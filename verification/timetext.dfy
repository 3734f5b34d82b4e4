/** The string handling the task form does on time inputs: `split('T')`,
    the fixed date prefix of recurring mode, and the 16-character cut and
    `":00"` suffix used around `datetime-local` values. */
module TimeText {
  import opened Wrappers
  import opened Utf16

  /** The date recurring mode glues in front of a bare `HH:MM` value. */
  const RecurringDate: string := "2025-09-13"

  /** Default times a recurring payload carries when none was entered. */
  const DefaultStart: string := "09:00"
  const DefaultEnd: string := "10:00"

  /** JavaScript's `s.split(c)` for a one-character separator. */
  function Split(s: string, c: char): (parts: seq<string>)
    ensures |parts| >= 1
    ensures |parts| == 1 <==> c !in s
    ensures forall i :: 0 <= i < |parts| ==> c !in parts[i]
  {
    if s == [] then [""]
    else
      var rest := Split(s[1..], c);
      if s[0] == c then [""] + rest
      else
        var r := [[s[0]] + rest[0]] + rest[1..];
        assert forall i :: 1 <= i < |r| ==> r[i] == rest[i];
        r
  }

  /** JavaScript's `parts.join(c)`. */
  function Join(parts: seq<string>, c: char): string
    requires |parts| >= 1
  {
    if |parts| == 1 then parts[0] else parts[0] + [c] + Join(parts[1..], c)
  }

  /** Joining the pieces of a split gives the string back. */
  lemma {:induction false} JoinSplit(s: string, c: char)
    ensures Join(Split(s, c), c) == s
  {
    if s != [] {
      JoinSplit(s[1..], c);
      var rest := Split(s[1..], c);
      if s[0] != c {
        var r := Split(s, c);
        assert r[1..] == rest[1..];
        if |rest| > 1 {
          assert Join(rest, c) == rest[0] + [c] + Join(rest[1..], c);
        }
      }
    }
  }

  /** A string free of the separator splits into itself alone. */
  lemma {:induction false} SplitWithout(s: string, c: char)
    requires c !in s
    ensures Split(s, c) == [s]
  {
    if s != [] {
      SplitWithout(s[1..], c);
      assert [s[0]] + s[1..] == s;
    }
  }

  /** Splitting `a + [c] + b` with `c` not in `a` yields `a` and then the
      pieces of `b`. */
  lemma {:induction false} SplitAfterFirst(a: string, b: string, c: char)
    requires c !in a
    ensures Split(a + [c] + b, c) == [a] + Split(b, c)
  {
    if a == [] {
      assert a + [c] + b == [c] + b;
      assert ([c] + b)[1..] == b;
    } else {
      assert (a + [c] + b)[1..] == a[1..] + [c] + b;
      SplitAfterFirst(a[1..], b, c);
      assert [a[0]] + a[1..] == a;
    }
  }

  /** Splitting a join of separator-free pieces gives the pieces back. */
  lemma {:induction false} SplitJoin(parts: seq<string>, c: char)
    requires |parts| >= 1
    requires forall i :: 0 <= i < |parts| ==> c !in parts[i]
    ensures Split(Join(parts, c), c) == parts
  {
    if |parts| == 1 {
      SplitWithout(parts[0], c);
    } else {
      SplitJoin(parts[1..], c);
      SplitAfterFirst(parts[0], Join(parts[1..], c), c);
      assert [parts[0]] + parts[1..] == parts;
    }
  }

  /** `s.split('T')[1]`: the text between the first `'T'` and the next one
      (or the end); `None` (JavaScript's `undefined`) when there is no `'T'`. */
  function AfterT(s: string): (r: Option<string>)
    ensures r.None? <==> 'T' !in s
    ensures r.Some? ==> 'T' !in r.value
    ensures r.Some? ==> PieceAfterFirst(s, 'T', r.value)
  {
    var parts := Split(s, 'T');
    if |parts| >= 2 then
      SecondPiece(s, 'T');
      Some(parts[1])
    else
      None
  }

  /** The second piece of a split sits right after the first separator and
      runs up to the next one or the end. */
  lemma SecondPiece(s: string, c: char)
    requires |Split(s, c)| >= 2
    ensures PieceAfterFirst(s, c, Split(s, c)[1])
  {
    var parts := Split(s, c);
    JoinSplit(s, c);
    var b := JoinAfterSecond(parts, c);
    var a := parts[0];
    assert s == a + [c] + parts[1] + b;
    assert c !in a;
    Witness(s, c, parts[1], a, b);
  }

  /** `v` is the piece right after the first `c` of `s`, up to the next `c`
      or the end. */
  ghost predicate PieceAfterFirst(s: string, c: char, v: string) {
    exists i :: 0 <= i < |s| && s[i] == c && c !in s[..i]
      && i + 1 + |v| <= |s| && s[i + 1..i + 1 + |v|] == v
      && (i + 1 + |v| == |s| || s[i + 1 + |v|] == c)
  }

  lemma Witness(s: string, c: char, v: string, a: string, b: string)
    requires s == a + [c] + v + b && c !in a && (b == [] || b[0] == c)
    ensures PieceAfterFirst(s, c, v)
  {
    var i := |a|;
    assert s[i] == c && s[..i] == a;
    assert s[i + 1..i + 1 + |v|] == v;
    assert i + 1 + |v| < |s| ==> s[i + 1 + |v|] == b[0];
  }

  /** What follows the second piece in a join: nothing, or a separator and
      the join of the rest. */
  lemma JoinAfterSecond(parts: seq<string>, c: char) returns (b: string)
    requires |parts| >= 2
    ensures Join(parts, c) == parts[0] + [c] + parts[1] + b
    ensures b == [] || b[0] == c
  {
    var tail := parts[1..];
    assert Join(parts, c) == parts[0] + [c] + Join(tail, c);
    if |parts| == 2 {
      b := [];
      assert Join(tail, c) == parts[1];
    } else {
      assert tail[1..] == parts[2..];
      b := [c] + Join(parts[2..], c);
      assert Join(tail, c) == parts[1] + b;
    }
  }

  /** The value recurring mode stores for a time-of-day `v`. */
  function InRecurringDate(v: string): string {
    RecurringDate + "T" + v
  }

  /** Prefixing the fixed date and taking the part after `'T'` gives `v`
      back exactly when `v` has no `'T'` of its own. */
  lemma RecurringTimeRoundTrip(v: string)
    ensures AfterT(InRecurringDate(v)) == Some(v) <==> 'T' !in v
  {
    assert 'T' !in RecurringDate;
    assert InRecurringDate(v) == RecurringDate + ['T'] + v;
    SplitAfterFirst(RecurringDate, v, 'T');
    if 'T' !in v {
      SplitWithout(v, 'T');
    }
  }

  /** `s.substring(0, 16)`: the first 16 characters, or all of a shorter `s`.
      The source counts UTF-16 units; on text in the Basic Multilingual
      Plane the two agree, and the cut then keeps 16 units. */
  function Cut16(s: string): (r: string)
    ensures |r| == if |s| < 16 then |s| else 16
    ensures r <= s
    ensures InBmp(s) ==> InBmp(r) && Utf16Length(r) == if Utf16Length(s) < 16 then Utf16Length(s) else 16
  {
    if |s| < 16 then s else s[..16]
  }

  /** The seconds suffix the form appends to a `datetime-local` value. */
  function WithSeconds(s: string): (r: string)
    ensures |r| == |s| + 3 && r[..|s|] == s && r[|s|..] == ":00"
  {
    s + ":00"
  }

  /** Cutting a timestamp to 16 characters and appending `":00"` restores it
      exactly when it is 19 characters long and ends in `":00"`
      (`YYYY-MM-DDTHH:MM:00`). */
  lemma CutThenSecondsRoundTrip(s: string)
    ensures WithSeconds(Cut16(s)) == s <==> |s| == 19 && s[16..] == ":00"
  {
    if |s| == 19 && s[16..] == ":00" {
      assert s == s[..16] + s[16..];
    }
  }
}
