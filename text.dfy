/** Python string operations that the dashboard relies on, over `seq<char>`. */
module Text {

  /** ASCII lower-casing of one character (str.lower() restricted to ASCII). */
  function LowerChar(c: char): (r: char)
    ensures 'A' <= c <= 'Z' ==> r as int == c as int + 32
    ensures !('A' <= c <= 'Z') ==> r == c
    ensures !('A' <= r <= 'Z')
  {
    if 'A' <= c <= 'Z' then (c as int + 32) as char else c
  }

  /** `s.lower()`: every character lower-cased, nothing else changes. */
  function Lower(s: string): (r: string)
    ensures |r| == |s|
    ensures forall i :: 0 <= i < |s| ==> r[i] == LowerChar(s[i])
  {
    seq(|s|, i requires 0 <= i < |s| => LowerChar(s[i]))
  }

  /** Lower-casing a lower-cased string changes nothing. */
  lemma LowerIdempotent(s: string)
    ensures Lower(Lower(s)) == Lower(s)
  {
  }

  /** Lower-casing commutes with slicing. */
  lemma LowerSlice(s: string, i: int, j: int)
    requires 0 <= i <= j <= |s|
    ensures Lower(s[i..j]) == Lower(s)[i..j]
  {
  }

  /** Lower-casing never turns a non-empty string into the empty one, or back. */
  lemma LowerKeepsEmptiness(s: string)
    ensures s == "" <==> Lower(s) == ""
  {
    assert |Lower(s)| == |s|;
  }

  /** Python's `needle in hay` for strings: some position of `hay` starts with `needle`. */
  predicate Contains(hay: string, needle: string)
    decreases |hay|
  {
    needle <= hay || (hay != [] && Contains(hay[1..], needle))
  }

  /** Number of positions of `hay` at which `needle` starts. */
  function Occurrences(hay: string, needle: string): nat
    decreases |hay|
  {
    (if needle <= hay then 1 else 0) + (if hay == [] then 0 else Occurrences(hay[1..], needle))
  }

  /** `needle in hay` holds exactly when `needle` occurs at least once. */
  lemma {:induction false} ContainsIffOccurs(hay: string, needle: string)
    ensures Contains(hay, needle) <==> Occurrences(hay, needle) > 0
    decreases |hay|
  {
    if hay != [] {
      ContainsIffOccurs(hay[1..], needle);
    }
  }

  /** `needle` occurs in `hay` starting at index `i`. */
  predicate StartsAt(hay: string, needle: string, i: int) {
    0 <= i <= |hay| - |needle| && hay[i..i + |needle|] == needle
  }

  /** `in` agrees with the positional definition of a substring. */
  lemma {:induction false} ContainsAt(hay: string, needle: string)
    ensures Contains(hay, needle) <==> exists i :: StartsAt(hay, needle, i)
    decreases |hay|
  {
    if needle <= hay {
      assert StartsAt(hay, needle, 0);
    }
    if hay != [] {
      ContainsAt(hay[1..], needle);
      if Contains(hay[1..], needle) {
        var i :| StartsAt(hay[1..], needle, i);
        assert hay[1..][i..i + |needle|] == hay[i + 1..i + 1 + |needle|];
        assert StartsAt(hay, needle, i + 1);
      }
      if exists i :: StartsAt(hay, needle, i) {
        var i :| StartsAt(hay, needle, i);
        if i > 0 {
          assert hay[1..][i - 1..i - 1 + |needle|] == hay[i..i + |needle|];
          assert StartsAt(hay[1..], needle, i - 1);
        } else {
          assert needle <= hay;
        }
      }
    } else {
      if exists i :: StartsAt(hay, needle, i) {
        assert needle <= hay;
      }
    }
  }

  /** The empty string is in every string, as in Python. */
  lemma EmptyInEverything(hay: string)
    ensures Contains(hay, "")
  {
  }
}
