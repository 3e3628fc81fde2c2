/** A small universe of Python values, enough for what the selection menus
    store in an option: strings, dictionaries (kept in insertion order), None,
    and any other object given by its `str()` text and its truthiness. */
module PyObj {
  import opened Wrappers
  import opened PyStr

  /** The exceptions the modelled code can raise. */
  datatype PyError = IndexError | TypeError | AttributeError | RuntimeError

  datatype PyValue =
    | PyNone
    | PyStr(s: string)
    | PyDict(entries: seq<(PyValue, PyValue)>)
    | PyOther(text: string, truthy: bool)

  /** `bool(v)`: None, the empty string and the empty dictionary are false. */
  predicate IsTruthy(v: PyValue)
  {
    match v
    case PyNone => false
    case PyStr(s) => s != ""
    case PyDict(entries) => entries != []
    case PyOther(_, truthy) => truthy
  }

  /** `str(v)` (`quoted` false) or `repr(v)` (`quoted` true). */
  function Text(v: PyValue, quoted: bool): string
    decreases v
  {
    match v
    case PyNone => "None"
    case PyStr(s) => if quoted then "'" + s + "'" else s
    case PyDict(entries) =>
      "{" + Join(seq(|entries|, i requires 0 <= i < |entries| =>
                       Text(entries[i].0, true) + ": " + Text(entries[i].1, true)), ", ") + "}"
    case PyOther(text, _) => text
  }

  function Str(v: PyValue): string
  {
    Text(v, false)
  }

  /** `list(d.keys())`. */
  function Keys(entries: seq<(PyValue, PyValue)>): (r: seq<PyValue>)
    ensures |r| == |entries| && forall i :: 0 <= i < |r| ==> r[i] == entries[i].0
  {
    seq(|entries|, i requires 0 <= i < |entries| => entries[i].0)
  }

  /** `list(d.values())`. */
  function Values(entries: seq<(PyValue, PyValue)>): (r: seq<PyValue>)
    ensures |r| == |entries| && forall i :: 0 <= i < |r| ==> r[i] == entries[i].1
  {
    seq(|entries|, i requires 0 <= i < |entries| => entries[i].1)
  }

  /** The position `xs[i]` reads in a list of length `n`: Python accepts
      `-n <= i < n`, counting negative indices from the end, and raises
      IndexError otherwise. */
  function PyIndex(i: int, n: nat): (r: Option<nat>)
    ensures r.Some? <==> 0 - n <= i < n
    ensures r.Some? ==> r.value < n && (if i >= 0 then r.value == i else r.value == i + n)
  {
    if 0 <= i < n then Some(i) else if 0 - n <= i < 0 then Some(i + n) else None
  }

  /** A loop that applies `f` to each element in order and stops at the
      first exception: the results, or that first error. */
  function TryMap<A, B>(xs: seq<A>, f: A -> Result<B, PyError>): (r: Result<seq<B>, PyError>)
    ensures r.Ok? ==> |r.value| == |xs|
  {
    if xs == [] then Ok([])
    else match TryMap(xs[..|xs| - 1], f)
      case Err(e) => Err(e)
      case Ok(init) =>
        match f(xs[|xs| - 1])
        case Err(e) => Err(e)
        case Ok(y) => Ok(init + [y])
  }

  /** One more turn of the loop: it raises what `f` raises on the next
      element, or appends its result. */
  lemma TryMapStep<A, B>(xs: seq<A>, f: A -> Result<B, PyError>, j: nat)
    requires j < |xs| && TryMap(xs[..j], f).Ok?
    ensures f(xs[j]).Err? ==> TryMap(xs[..j + 1], f) == Err(f(xs[j]).error)
    ensures f(xs[j]).Ok? ==> TryMap(xs[..j + 1], f) == Ok(TryMap(xs[..j], f).value + [f(xs[j]).value])
  {
    assert xs[..j + 1][..j] == xs[..j];
  }

  /** Once the loop has raised on a prefix, the whole loop raises the same. */
  lemma {:induction false} TryMapStops<A, B>(xs: seq<A>, f: A -> Result<B, PyError>, j: nat)
    requires j <= |xs| && TryMap(xs[..j], f).Err?
    ensures TryMap(xs, f) == TryMap(xs[..j], f)
  {
    if j < |xs| {
      assert xs[..|xs| - 1][..j] == xs[..j];
      TryMapStops(xs[..|xs| - 1], f, j);
    } else {
      assert xs[..j] == xs;
    }
  }

  /** The loop succeeds exactly when every element succeeds, and then holds
      each element's result at its position. */
  lemma {:induction false} TryMapOk<A, B>(xs: seq<A>, f: A -> Result<B, PyError>)
    ensures TryMap(xs, f).Ok? <==> forall i :: 0 <= i < |xs| ==> f(xs[i]).Ok?
    ensures TryMap(xs, f).Ok? ==> forall i :: 0 <= i < |xs| ==> TryMap(xs, f).value[i] == f(xs[i]).value
  {
    if xs != [] {
      var init := xs[..|xs| - 1];
      TryMapOk(init, f);
      assert forall i :: 0 <= i < |init| ==> init[i] == xs[i];
    }
  }

  /** When every failure of `f` is the error `e`, a loop that stops at the
      first failure raises `e`. */
  lemma {:induction false} TryMapError<A, B>(xs: seq<A>, f: A -> Result<B, PyError>, e: PyError)
    requires forall i :: 0 <= i < |xs| && f(xs[i]).Err? ==> f(xs[i]).error == e
    ensures TryMap(xs, f).Err? ==> TryMap(xs, f).error == e
  {
    if xs != [] {
      var init := xs[..|xs| - 1];
      assert forall i :: 0 <= i < |init| ==> init[i] == xs[i];
      TryMapError(init, f, e);
    }
  }
}
