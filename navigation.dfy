/** What the three selection menus share: the key-driven state machine,
    the run of that machine over a finite sequence of keys, the controls
    line, and the painting of one frame on the display. */
module Navigation {
  import opened Wrappers
  import opened PyStr
  import opened RichTable
  import Painter

  /** What a key does to a menu whose highlighted index is `index`. */
  datatype Action = MoveTo(index: int) | Ignore | Choose | Cancel

  /** The key handling of a menu with `n` options. Python's `%` with a
      positive divisor, like Dafny's, never yields a negative result. */
  function KeyAction(index: int, n: nat, cancellable: bool, key: string): (a: Action)
    requires n > 0
    ensures key == "up" ==> a == MoveTo((index - 1) % n)
    ensures key == "down" ==> a == MoveTo((index + 1) % n)
    ensures a.MoveTo? ==> 0 <= a.index < n
    ensures a == Choose <==> key == "space" || key == "enter"
    ensures a == Cancel <==> key == "esc" && cancellable
    ensures a == Ignore <==> key !in ["up", "down", "space", "enter"] && !(key == "esc" && cancellable)
  {
    if key == "up" then MoveTo((index - 1) % n)
    else if key == "down" then MoveTo((index + 1) % n)
    else if key == "space" || key == "enter" then Choose
    else if key == "esc" && cancellable then Cancel
    else Ignore
  }

  /** `up` undoes `down` and `down` undoes `up` on a valid index. */
  lemma UpUndoesDown(index: int, n: nat, cancellable: bool)
    requires 0 <= index < n
    ensures KeyAction(KeyAction(index, n, cancellable, "down").index, n, cancellable, "up") == MoveTo(index)
    ensures KeyAction(KeyAction(index, n, cancellable, "up").index, n, cancellable, "down") == MoveTo(index)
  {
    ModUnique(index, n, 0, index);
    if index == n - 1 {
      ModUnique(index + 1, n, 1, 0);
      ModUnique(0 - 1, n, -1, n - 1);
    } else {
      ModUnique(index + 1, n, 0, index + 1);
    }
    if index == 0 {
      ModUnique(index - 1, n, -1, n - 1);
      ModUnique(n, n, 1, 0);
    } else {
      ModUnique(index - 1, n, 0, index - 1);
    }
  }

  /** How a session ends: an option was chosen at an index, the menu was
      cancelled, or the keys ran out while the menu waited at an index. */
  datatype End = Chosen(index: int) | Cancelled | Waiting(index: int)

  /** The highlighted index of every painted frame, in order, and the end. */
  datatype Session = Session(frames: seq<int>, end: End)

  /** The menu's main loop over the key sequence `keys`: paint the frame
      for the current index, then read one key and act on it. */
  function Drive(index: int, n: nat, cancellable: bool, keys: seq<string>): (s: Session)
    requires n > 0
    ensures s.frames != [] && s.frames[0] == index
    ensures s.end.Waiting? ==> |s.frames| == |keys| + 1
    ensures !s.end.Waiting? ==> |s.frames| <= |keys|
    ensures s.end.Chosen? ==> s.end.index == s.frames[|s.frames| - 1]
    ensures s.end.Waiting? ==> s.end.index == s.frames[|s.frames| - 1]
    decreases |keys|
  {
    if keys == [] then Session([index], Waiting(index))
    else
      match KeyAction(index, n, cancellable, keys[0])
      case MoveTo(j) =>
        var rest := Drive(j, n, cancellable, keys[1..]);
        Session([index] + rest.frames, rest.end)
      case Ignore =>
        var rest := Drive(index, n, cancellable, keys[1..]);
        Session([index] + rest.frames, rest.end)
      case Choose => Session([index], Chosen(index))
      case Cancel => Session([index], Cancelled)
  }

  /** Every painted index is the starting one or a valid one: the
      machine never leaves the range of options once it has moved. */
  lemma {:induction false} DriveStaysInRange(index: int, n: nat, cancellable: bool, keys: seq<string>)
    requires n > 0
    ensures StartOrValid(Drive(index, n, cancellable, keys).frames, index, n)
    decreases |keys|
  {
    if keys != [] {
      var a := KeyAction(index, n, cancellable, keys[0]);
      if a.MoveTo? {
        DriveStaysInRange(a.index, n, cancellable, keys[1..]);
      } else if a == Ignore {
        DriveStaysInRange(index, n, cancellable, keys[1..]);
      }
    }
  }

  predicate StartOrValid(frames: seq<int>, start: int, n: nat)
  {
    forall j :: 0 <= j < |frames| ==> frames[j] == start || 0 <= frames[j] < n
  }

  /** The index the menu holds when the session ends. */
  function LastIndex(s: Session): int
    requires s.frames != []
  {
    s.frames[|s.frames| - 1]
  }

  /** Frame `k` of a session and what the key read after it does: with
      no key left the session waits there; a move or an ignored key paints
      the next frame at the new index; choosing or cancelling ends the
      session after that frame. */
  lemma {:induction false} DriveAt(start: int, n: nat, cancellable: bool, keys: seq<string>, k: nat)
    requires n > 0 && k < |Drive(start, n, cancellable, keys).frames|
    ensures var s := Drive(start, n, cancellable, keys);
            var i := s.frames[k];
            && k <= |keys|
            && (k == |keys| ==> |s.frames| == k + 1 && s.end == Waiting(i))
            && (k < |keys| ==>
                  var a := KeyAction(i, n, cancellable, keys[k]);
                  && (a.MoveTo? ==> k + 1 < |s.frames| && s.frames[k + 1] == a.index)
                  && (a == Ignore ==> k + 1 < |s.frames| && s.frames[k + 1] == i)
                  && (a == Choose ==> |s.frames| == k + 1 && s.end == Chosen(i))
                  && (a == Cancel ==> |s.frames| == k + 1 && s.end == Cancelled))
    decreases k
  {
    if keys != [] {
      var a := KeyAction(start, n, cancellable, keys[0]);
      if a.MoveTo? || a == Ignore {
        var next := if a.MoveTo? then a.index else start;
        var rest := Drive(next, n, cancellable, keys[1..]);
        assert Drive(start, n, cancellable, keys) == Session([start] + rest.frames, rest.end);
        if k > 0 {
          DriveAt(next, n, cancellable, keys[1..], k - 1);
          if k < |keys| {
            assert keys[1..][k - 1] == keys[k];
          }
        }
      }
    }
  }

  function Repeat(key: string, k: nat): (r: seq<string>)
    ensures |r| == k && forall i :: 0 <= i < k ==> r[i] == key
  {
    seq(k, _ => key)
  }

  /** Pressing `down` k times from a valid index paints the k following
      indices, wrapping around, and leaves the menu waiting at the last. */
  lemma {:induction false} DownWalk(index: int, n: nat, cancellable: bool, k: nat)
    requires 0 <= index < n
    ensures var s := Drive(index, n, cancellable, Repeat("down", k));
            && |s.frames| == k + 1
            && (forall j :: 0 <= j <= k ==> s.frames[j] == (index + j) % n)
            && s.end == Waiting((index + k) % n)
    decreases k
  {
    ModUnique(index, n, 0, index);
    if k > 0 {
      var next := (index + 1) % n;
      DownWalk(next, n, cancellable, k - 1);
      assert Repeat("down", k)[1..] == Repeat("down", k - 1);
      var rest := Drive(next, n, cancellable, Repeat("down", k - 1));
      assert Drive(index, n, cancellable, Repeat("down", k)) == Session([index] + rest.frames, rest.end);
      ShiftFrames(index, n, k, rest.frames);
      ModAdd(index + 1, k - 1, n);
    }
  }

  lemma ShiftFrames(index: int, n: nat, k: nat, rest: seq<int>)
    requires 0 <= index < n && k > 0
    requires |rest| == k && forall j :: 0 <= j < k ==> rest[j] == ((index + 1) % n + j) % n
    ensures forall j :: 0 <= j <= k ==> ([index] + rest)[j] == (index + j) % n
  {
    forall j | 0 <= j <= k
      ensures ([index] + rest)[j] == (index + j) % n
    {
      if j > 0 {
        ModAdd(index + 1, j - 1, n);
      } else {
        ModUnique(index, n, 0, index);
      }
    }
  }

  lemma MulLe(a: int, b: int, n: int)
    requires n > 0 && a <= b
    ensures a * n <= b * n
  {
    var d := b - a;
    assert b * n == a * n + d * n;
  }

  lemma SmallMultiple(d: int, n: int)
    requires n > 0 && -n < d * n < n
    ensures d == 0
  {
    if d > 0 {
      MulLe(1, d, n);
    } else if d < 0 {
      MulLe(d, -1, n);
    }
  }

  /** Euclidean remainders are unique. */
  lemma ModUnique(a: int, n: int, q: int, r: int)
    requires n > 0 && a == q * n + r && 0 <= r < n
    ensures a % n == r
  {
    var q2 := a / n;
    var r2 := a % n;
    assert a == q2 * n + r2;
    assert (q2 - q) * n == r - r2;
    SmallMultiple(q2 - q, n);
  }

  lemma ModAdd(a: int, b: int, n: int)
    requires n > 0
    ensures (a % n + b) % n == (a + b) % n
  {
    var q := (a % n + b) / n;
    var r := (a % n + b) % n;
    assert a % n + b == q * n + r;
    assert a == (a / n) * n + a % n;
    assert a + b == (a / n + q) * n + r by {
      assert (a / n + q) * n == (a / n) * n + q * n;
    }
    ModUnique(a + b, n, a / n + q, r);
  }

  /** n presses of `down` bring the menu back to where it started. */
  lemma DownCycle(index: int, n: nat, cancellable: bool)
    requires 0 <= index < n
    ensures Drive(index, n, cancellable, Repeat("down", n)).end == Waiting(index)
  {
    DownWalk(index, n, cancellable, n);
    ModUnique(index + n, n, 1, index);
  }

  /** Three options, two `down`s and `enter`: the third option is chosen. */
  lemma ChooseThird(cancellable: bool)
    ensures Drive(0, 3, cancellable, ["down", "down", "enter"]) == Session([0, 1, 2], Chosen(2))
  {
    assert ["down", "down", "enter"][1..] == ["down", "enter"];
    assert ["down", "enter"][1..] == ["enter"];
  }

  /** `esc` stops a cancellable menu and is ignored by any other menu. */
  lemma EscapeOnlyCancels(index: int, n: nat)
    requires n > 0
    ensures Drive(index, n, true, ["esc"]) == Session([index], Cancelled)
    ensures Drive(index, n, false, ["esc"]) == Session([index, index], Waiting(index))
  {
    assert ["esc"][1..] == [];
  }

  const Navigate := "[↑/↓] Navigate"
  const CancelControl := "[Esc] Cancel"
  const Select := "[Space/Enter] Select"
  const Bar := " | "

  /** The entries of the controls line. */
  function ControlItems(cancellable: bool): seq<string>
  {
    [Navigate] + (if cancellable then [CancelControl] else []) + [Select]
  }

  /** The controls line: the entries joined with " | ". */
  function Controls(cancellable: bool): (r: string)
    ensures cancellable ==> r == Navigate + Bar + CancelControl + Bar + Select
    ensures !cancellable ==> r == Navigate + Bar + Select
  {
    var items := ControlItems(cancellable);
    assert items == if cancellable then [Navigate, CancelControl, Select] else [Navigate, Select];
    JoinSmall(Navigate, CancelControl, Select, Bar);
    Join(items, Bar)
  }

  lemma JoinSmall(a: string, b: string, c: string, sep: string)
    ensures Join([a, c], sep) == a + sep + c
    ensures Join([a, b, c], sep) == a + sep + b + sep + c
  {
    assert [a, c][1..] == [c];
    assert [a, b, c][1..] == [b, c];
    assert [b, c][1..] == [c];
  }

  /** `t` occurs in `s` at position `k`. */
  predicate OccursAt(s: string, t: string, k: int)
  {
    0 <= k <= |s| - |t| && s[k..k + |t|] == t
  }

  predicate Contains(s: string, t: string)
  {
    exists k :: 0 <= k <= |s| && OccursAt(s, t, k)
  }

  /** The controls line offers `[Esc] Cancel` exactly when the menu is
      cancellable. */
  lemma ControlsOfferCancel(cancellable: bool)
    ensures Contains(Controls(cancellable), CancelControl) <==> cancellable
  {
    var s := Controls(cancellable);
    if cancellable {
      var pre := Navigate + Bar;
      assert s == pre + CancelControl + (Bar + Select);
      assert s[|pre|..|pre| + |CancelControl|] == CancelControl;
      assert OccursAt(s, CancelControl, |pre|);
    } else {
      assert 'C' !in Navigate && 'C' !in Bar && 'C' !in Select;
      assert 'C' !in s;
      forall k | 0 <= k <= |s|
        ensures !OccursAt(s, CancelControl, k)
      {
        if k <= |s| - |CancelControl| {
          assert s[k..k + |CancelControl|][6] == s[k + 6] != 'C';
        }
      }
    }
  }

  /** The display calls that paint one frame: a full clear (legacy) or a
      buffer clear, the widgets appended in order, then one rich render. */
  function FrameCalls(fullClear: bool, widgets: seq<Widget>, size: Painter.Size): (r: seq<Painter.Call<Widget>>)
    ensures |r| == |widgets| + 2
    ensures r[0] == (if fullClear then Painter.ClearCall else Painter.ClearBufferCall)
    ensures r[1..|r| - 1] == Painter.Appends(widgets)
    ensures r[|r| - 1] == Painter.DisplayTextCall(true, size)
  {
    [if fullClear then Painter.ClearCall else Painter.ClearBufferCall] + Painter.Appends(widgets)
      + [Painter.DisplayTextCall(true, size)]
  }

  lemma Assoc<X>(a: seq<X>, b: seq<X>, c: seq<X>, d: seq<X>)
    ensures a + b + c + d == a + (b + c + d)
  {
  }
}
