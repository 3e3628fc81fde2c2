/** The two-field vector of src/panda_util/types/vector.py. */
module Vectors {
  import opened Wrappers
  import opened PyStr

  /** `Vector(x, y)`: an immutable named pair whose fields keep the order
      and the values given; two vectors are equal when both fields are. */
  datatype Vector = Vector(x: int, y: int)

  /** `str(v)`: `Vector(` then the two fields in decimal, separated by a
      comma and a space, then `)`. */
  function Show(v: Vector): (r: string)
    ensures |r| >= 12 && r[..7] == "Vector(" && r[|r| - 1] == ')'
  {
    "Vector(" + IntToString(v.x) + ", " + IntToString(v.y) + ")"
  }

  /** The index of the first comma in `s`, or `|s|` when there is none. */
  function CommaAt(s: string): (r: nat)
    ensures r <= |s| && (r < |s| ==> s[r] == ',')
    ensures forall i :: 0 <= i < r ==> s[i] != ','
  {
    if s == [] || s[0] == ',' then 0 else 1 + CommaAt(s[1..])
  }

  /** Reads a vector back from the text `str` gives it. */
  function Parse(s: string): (r: Option<Vector>)
    ensures r.Some? ==> |s| >= 8 && s[..7] == "Vector(" && s[|s| - 1] == ')'
  {
    if |s| < 8 || s[..7] != "Vector(" || s[|s| - 1] != ')' then None
    else
      var body := s[7..|s| - 1];
      var c := CommaAt(body);
      if c + 2 > |body| || body[c + 1] != ' ' then None
      else
        match (ParseInt(body[..c]), ParseInt(body[c + 2..]))
        case (Some(x), Some(y)) => Some(Vector(x, y))
        case _ => None
  }

  /** A comma-free prefix puts the first comma right after it. */
  lemma {:induction false} CommaAfter(a: string, rest: string)
    requires forall i :: 0 <= i < |a| ==> a[i] != ','
    requires rest != [] && rest[0] == ','
    ensures CommaAt(a + rest) == |a|
  {
    if a != [] {
      assert (a + rest)[1..] == a[1..] + rest;
      CommaAfter(a[1..], rest);
    }
  }

  /** Reading back the text of a vector gives the vector. */
  lemma ShowParse(v: Vector)
    ensures Parse(Show(v)) == Some(v)
  {
    var a := IntToString(v.x);
    var b := IntToString(v.y);
    var s := Show(v);
    var body := s[7..|s| - 1];
    assert body == a + (", " + b);
    CommaAfter(a, ", " + b);
    assert body[..|a|] == a;
    assert body[|a| + 2..] == b;
    IntRoundTrip(v.x);
    IntRoundTrip(v.y);
  }

  /** Different vectors print differently. */
  lemma ShowInjective(v: Vector, w: Vector)
    ensures Show(v) == Show(w) <==> v == w
  {
    ShowParse(v);
    ShowParse(w);
  }
}
