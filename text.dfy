/**
 * The few string operations of Python that the bot relies on: `str.lower()`,
 * `str.upper()` and the substring test `needle in hay`.
 */
module Text {

  /** ASCII case mapping of one character (`str.lower` restricted to ASCII). */
  function LowerChar(c: char): (d: char)
    ensures 'A' <= c <= 'Z' ==> d as int == c as int + 32
    ensures !('A' <= c <= 'Z') ==> d == c
  {
    if 'A' <= c <= 'Z' then (c as int + 32) as char else c
  }

  function UpperChar(c: char): (d: char)
    ensures 'a' <= c <= 'z' ==> d as int == c as int - 32
    ensures !('a' <= c <= 'z') ==> d == c
  {
    if 'a' <= c <= 'z' then (c as int - 32) as char else c
  }

  function Lower(s: string): (r: string)
    ensures |r| == |s|
    ensures forall i :: 0 <= i < |s| ==> r[i] == LowerChar(s[i])
  {
    if s == [] then [] else [LowerChar(s[0])] + Lower(s[1..])
  }

  function Upper(s: string): (r: string)
    ensures |r| == |s|
    ensures forall i :: 0 <= i < |s| ==> r[i] == UpperChar(s[i])
  {
    if s == [] then [] else [UpperChar(s[0])] + Upper(s[1..])
  }

  /** The `n` characters of `hay` starting at `i`. */
  function Window(hay: string, i: nat, n: nat): string
    requires i + n <= |hay|
  {
    hay[i..i + n]
  }

  /** `needle in hay`: some window of `hay` spells `needle`. */
  ghost predicate Occurs(needle: string, hay: string) {
    exists i: nat :: i + |needle| <= |hay| && Window(hay, i, |needle|) == needle
  }

  /** The substring test as the interpreter runs it: try every start position in turn. */
  function Contains(hay: string, needle: string): (b: bool)
    decreases |hay|
  {
    |needle| <= |hay| && (hay[..|needle|] == needle || Contains(hay[1..], needle))
  }

  /** `Contains` finds a window exactly when one exists. */
  lemma ContainsIffOccurs(hay: string, needle: string)
    ensures Contains(hay, needle) <==> Occurs(needle, hay)
  {
    if Contains(hay, needle) {
      ContainsFindsWindow(hay, needle);
    }
    if Occurs(needle, hay) {
      var i: nat :| i + |needle| <= |hay| && Window(hay, i, |needle|) == needle;
      WindowIsFound(hay, needle, i);
    }
  }

  lemma {:induction false} ContainsFindsWindow(hay: string, needle: string)
    requires Contains(hay, needle)
    ensures Occurs(needle, hay)
    decreases |hay|
  {
    if hay[..|needle|] == needle {
      assert Window(hay, 0, |needle|) == needle;
    } else {
      ContainsFindsWindow(hay[1..], needle);
      var i: nat :| i + |needle| <= |hay[1..]| && Window(hay[1..], i, |needle|) == needle;
      assert Window(hay, i + 1, |needle|) == Window(hay[1..], i, |needle|);
    }
  }

  lemma {:induction false} WindowIsFound(hay: string, needle: string, i: nat)
    requires i + |needle| <= |hay| && Window(hay, i, |needle|) == needle
    ensures Contains(hay, needle)
    decreases i
  {
    if i > 0 && hay[..|needle|] != needle {
      assert Window(hay[1..], i - 1, |needle|) == Window(hay, i, |needle|);
      WindowIsFound(hay[1..], needle, i - 1);
    }
  }

  /** The empty string is in every string, as in Python. */
  lemma EmptyOccursEverywhere(hay: string)
    ensures Contains(hay, "")
  {
    assert hay[..0] == "";
  }
}
