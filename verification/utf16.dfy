/** JavaScript string lengths: `length` and `substring` count UTF-16 code
    units, and a character outside the Basic Multilingual Plane takes two. */
module Utf16 {

  /** Every character is in the Basic Multilingual Plane, so it takes one
      UTF-16 unit. */
  predicate InBmp(s: string) {
    forall i :: 0 <= i < |s| ==> s[i] as int <= 0xFFFF
  }

  /** The UTF-16 units of one character. */
  function Units(c: char): (n: nat)
    ensures n == 1 || n == 2
    ensures n == 2 <==> c as int > 0xFFFF
  {
    if c as int > 0xFFFF then 2 else 1
  }

  /** `s.length`. */
  function Utf16Length(s: string): (n: nat)
    ensures |s| <= n <= 2 * |s|
    ensures InBmp(s) ==> n == |s|
    ensures |s| == 1 ==> n == Units(s[0])
  {
    if s == [] then 0
    else Units(s[0]) + Utf16Length(s[1..])
  }

  /** Lengths add up over concatenation, so with `Utf16Length`'s one-character
      case every string's length is the sum of its characters' units. */
  lemma {:induction false} Utf16Append(a: string, b: string)
    ensures Utf16Length(a + b) == Utf16Length(a) + Utf16Length(b)
    decreases |a|
  {
    if a != [] {
      assert (a + b)[0] == a[0];
      assert (a + b)[1..] == a[1..] + b;
      Utf16Append(a[1..], b);
    } else {
      assert a + b == b;
    }
  }

  /** Appending a character adds its units. */
  lemma Utf16Snoc(s: string, c: char)
    ensures Utf16Length(s + [c]) == Utf16Length(s) + Units(c)
  {
    Utf16Append(s, [c]);
  }
}
