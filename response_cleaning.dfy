/**
 * The reply clean-up of ai_client.py: `clean_response` and the truncation to
 * the tweet length in `get_response`.
 *
 * `clean_response` is a fixed chain of `re.sub` calls.  Each pattern is
 * modelled by a `Pass`: `MatchAt` says whether the pattern matches at the
 * start of a string, how long the match is and what replaces it, and
 * `Rewrite` scans left to right the way `re.sub` does, resuming after each
 * match.  Every pattern here has at most one match at a given position (its
 * repetitions are greedy and cannot give back characters), so the scan is
 * deterministic.
 */
module ResponseCleaning {
  import opened Wrappers
  import Tweets

  /** `Config.TWEET_MAX_LENGTH`. */
  const TweetMaxLength: nat := 280
  const Ellipsis: string := "..."

  /** `\s` of Python's `re` on `str`, which is also what `str.strip()` removes. */
  predicate IsSpace(c: char) {
    || '\t' <= c <= '\r'
    || '\U{1C}' <= c <= '\U{1F}'
    || c == ' ' || c == '\U{85}' || c == '\U{A0}' || c == '\U{1680}'
    || '\U{2000}' <= c <= '\U{200A}'
    || c == '\U{2028}' || c == '\U{2029}' || c == '\U{202F}' || c == '\U{205F}' || c == '\U{3000}'
  }

  /** `\d`, on ASCII digits. */
  predicate IsDigit(c: char) {
    '0' <= c <= '9'
  }

  /** The length of the longest prefix of `s` made of digits. */
  function Digits(s: string): (n: nat)
    ensures n <= |s|
    ensures n < |s| ==> !IsDigit(s[n])
  {
    if s != [] && IsDigit(s[0]) then 1 + Digits(s[1..]) else 0
  }

  /** The length of the longest prefix of `s` made of whitespace. */
  function Spaces(s: string): (n: nat)
    ensures n <= |s|
    ensures n < |s| ==> !IsSpace(s[n])
  {
    if s != [] && IsSpace(s[0]) then 1 + Spaces(s[1..]) else 0
  }

  /** The length of the longest prefix of `s` made only of `c`. */
  function RunOf(s: string, c: char): (n: nat)
    ensures n <= |s|
    ensures n < |s| ==> s[n] != c
  {
    if s != [] && s[0] == c then 1 + RunOf(s[1..], c) else 0
  }

  /** The length of the longest prefix of `s` free of `c` (a class `[^c]`). */
  function Until(s: string, c: char): (n: nat)
    ensures n <= |s|
    ensures n < |s| ==> s[n] == c
  {
    if s != [] && s[0] != c then 1 + Until(s[1..], c) else 0
  }

  /** Everything before the end of a counted prefix belongs to it. */
  lemma {:induction false} DigitsSpan(s: string)
    ensures forall i :: 0 <= i < Digits(s) ==> IsDigit(s[i])
  {
    if s != [] && IsDigit(s[0]) {
      DigitsSpan(s[1..]);
    }
  }

  lemma {:induction false} SpacesSpan(s: string)
    ensures forall i :: 0 <= i < Spaces(s) ==> IsSpace(s[i])
  {
    if s != [] && IsSpace(s[0]) {
      SpacesSpan(s[1..]);
    }
  }

  lemma {:induction false} RunOfSpan(s: string, c: char)
    ensures forall i :: 0 <= i < RunOf(s, c) ==> s[i] == c
  {
    if s != [] && s[0] == c {
      RunOfSpan(s[1..], c);
    }
  }

  lemma {:induction false} UntilSpan(s: string, c: char)
    ensures forall i :: 0 <= i < Until(s, c) ==> s[i] != c
  {
    if s != [] && s[0] != c {
      UntilSpan(s[1..], c);
    }
  }

  /** The patterns of `clean_response`, in the order it applies them. */
  datatype Pass =
    | Footnote      // a citation: 【, digits, a colon, digits, †, a non-empty body, 】; deleted
    | Bold          // a non-empty run without `*` between `**` and `**`; unwrapped
    | Italic        // a non-empty run without `*` between single `*`; unwrapped
    | NumberedList  // digits, a dot and whitespace; deleted
    | Bullet        // a dash or a bullet sign and whitespace; deleted
    | CodeBlock     // a run without backquotes between triple backquotes; deleted
    | InlineCode    // a non-empty run without backquotes between single backquotes; unwrapped
    | Heading       // one or more `#` and whitespace; deleted
    | Link          // bracketed text followed by a parenthesised target; replaced by the text
    | Blockquote    // `>` and whitespace; deleted
    | Whitespace    // a run of whitespace; replaced by one space

  const Pipeline: seq<Pass> :=
    [Footnote, Bold, Italic, NumberedList, Bullet, CodeBlock, InlineCode, Heading, Link, Blockquote, Whitespace]

  /** A match at the start of a string: its length and its replacement. */
  datatype Match = Match(len: nat, replacement: string)

  function FootnoteAt(s: string): Option<Match> {
    if |s| < 1 || s[0] != '\U{3010}' then None
    else
      var d1 := Digits(s[1..]);
      if d1 == 0 || 1 + d1 >= |s| || s[1 + d1] != ':' then None
      else
        var d2 := Digits(s[2 + d1..]);
        if d2 == 0 || 2 + d1 + d2 >= |s| || s[2 + d1 + d2] != '\U{2020}' then None
        else
          var n := Until(s[3 + d1 + d2..], '\U{3011}');
          if n == 0 || 3 + d1 + d2 + n >= |s| then None
          else Some(Match(4 + d1 + d2 + n, ""))
  }

  function BoldAt(s: string): Option<Match> {
    if |s| < 2 || s[..2] != "**" then None
    else
      var n := Until(s[2..], '*');
      if n == 0 || 2 + n + 2 > |s| || s[2 + n..2 + n + 2] != "**" then None
      else Some(Match(n + 4, s[2..2 + n]))
  }

  /** `c` + `[^c]+` + `c`, replaced by the middle part (or by nothing). */
  function DelimitedAt(s: string, c: char, keep: bool): Option<Match> {
    if |s| < 1 || s[0] != c then None
    else
      var n := Until(s[1..], c);
      if n == 0 || 1 + n >= |s| then None
      else Some(Match(n + 2, if keep then s[1..1 + n] else ""))
  }

  function NumberedAt(s: string): Option<Match> {
    var d := Digits(s);
    if d == 0 || d >= |s| || s[d] != '.' then None
    else
      var w := Spaces(s[d + 1..]);
      if w == 0 then None else Some(Match(d + 1 + w, ""))
  }

  /** A single character from `marks`, then `\s+`. */
  function MarkThenSpaceAt(s: string, marks: set<char>): Option<Match> {
    if |s| < 1 || s[0] !in marks then None
    else
      var w := Spaces(s[1..]);
      if w == 0 then None else Some(Match(1 + w, ""))
  }

  function CodeBlockAt(s: string): Option<Match> {
    if |s| < 3 || s[..3] != "```" then None
    else
      var n := Until(s[3..], '`');
      if 3 + n + 3 > |s| || s[3 + n..3 + n + 3] != "```" then None
      else Some(Match(n + 6, ""))
  }

  function HeadingAt(s: string): Option<Match> {
    var h := RunOf(s, '#');
    if h == 0 then None
    else
      var w := Spaces(s[h..]);
      if w == 0 then None else Some(Match(h + w, ""))
  }

  function LinkAt(s: string): Option<Match> {
    if |s| < 1 || s[0] != '[' then None
    else
      var n := Until(s[1..], ']');
      if n == 0 || 2 + n >= |s| || s[2 + n] != '(' then None
      else
        var m := Until(s[3 + n..], ')');
        if m == 0 || 3 + n + m >= |s| then None
        else Some(Match(4 + n + m, s[1..1 + n]))
  }

  function WhitespaceAt(s: string): Option<Match> {
    var w := Spaces(s);
    if w == 0 then None else Some(Match(w, " "))
  }

  /** Whether pattern `p` matches at the start of `s`, and with what. */
  function MatchAt(p: Pass, s: string): (m: Option<Match>)
    ensures m.Some? ==> 0 < m.value.len <= |s|
  {
    match p
    case Footnote => FootnoteAt(s)
    case Bold => BoldAt(s)
    case Italic => DelimitedAt(s, '*', true)
    case NumberedList => NumberedAt(s)
    case Bullet => MarkThenSpaceAt(s, {'-', '\U{2022}'})
    case CodeBlock => CodeBlockAt(s)
    case InlineCode => DelimitedAt(s, '`', true)
    case Heading => HeadingAt(s)
    case Link => LinkAt(s)
    case Blockquote => MarkThenSpaceAt(s, {'>'})
    case Whitespace => WhitespaceAt(s)
  }

  /** `re.sub(pattern, replacement, s)` for pattern `p`. */
  function Rewrite(p: Pass, s: string): string
    decreases |s|
  {
    if s == [] then []
    else
      match MatchAt(p, s)
      case Some(m) => m.replacement + Rewrite(p, s[m.len..])
      case None => [s[0]] + Rewrite(p, s[1..])
  }

  /** The passes applied in order. */
  function ApplyAll(passes: seq<Pass>, s: string): string
    decreases |passes|
  {
    if passes == [] then s else ApplyAll(passes[1..], Rewrite(passes[0], s))
  }

  function StripLeft(s: string): string
    decreases |s|
  {
    if s != [] && IsSpace(s[0]) then StripLeft(s[1..]) else s
  }

  function StripRight(s: string): string
    decreases |s|
  {
    if s != [] && IsSpace(s[|s| - 1]) then StripRight(s[..|s| - 1]) else s
  }

  /** `str.strip()`. */
  function Strip(s: string): string {
    StripRight(StripLeft(s))
  }

  /** `clean_response(text)`: `""` for `None` or `""`, otherwise the pipeline followed by `strip()`. */
  function CleanResponse(text: Option<string>): (r: string)
    ensures !Tweets.Truthy(text) ==> r == ""
  {
    if !Tweets.Truthy(text) then "" else Strip(ApplyAll(Pipeline, text.value))
  }

  /** Two adjacent whitespace characters at `i`. */
  predicate SpacePair(s: string, i: nat)
    requires i + 1 < |s|
  {
    IsSpace(s[i]) && IsSpace(s[i + 1])
  }

  /** Every whitespace character is a plain space and no two are adjacent. */
  predicate Collapsed(s: string) {
    && (forall i :: 0 <= i < |s| && IsSpace(s[i]) ==> s[i] == ' ')
    && (forall i :: 0 <= i && i + 1 < |s| ==> !SpacePair(s, i))
  }

  /** What the whitespace pass leaves: collapsed, and starting with whitespace exactly when its input does. */
  lemma {:induction false} WhitespacePassCollapses(s: string)
    ensures var r := Rewrite(Whitespace, s);
            && Collapsed(r)
            && (r == [] <==> s == [])
            && (s != [] ==> (IsSpace(r[0]) <==> IsSpace(s[0])))
    decreases |s|
  {
    if s != [] {
      var r := Rewrite(Whitespace, s);
      var w := Spaces(s);
      if w > 0 {
        var rest := s[w..];
        WhitespacePassCollapses(rest);
        var r' := Rewrite(Whitespace, rest);
        assert r == " " + r';
        assert rest != [] ==> !IsSpace(rest[0]);
        forall i | 0 <= i && i + 1 < |r|
          ensures !SpacePair(r, i)
        {
          if i > 0 {
            assert SpacePair(r, i) == SpacePair(r', i - 1);
          }
        }
      } else {
        WhitespacePassCollapses(s[1..]);
        var r' := Rewrite(Whitespace, s[1..]);
        assert r == [s[0]] + r';
        forall i | 0 <= i && i + 1 < |r|
          ensures !SpacePair(r, i)
        {
          if i > 0 {
            assert SpacePair(r, i) == SpacePair(r', i - 1);
          }
        }
      }
    }
  }

  lemma CollapsedSlice(s: string, a: nat, b: nat)
    requires Collapsed(s) && a <= b <= |s|
    ensures Collapsed(s[a..b])
  {
    var t := s[a..b];
    forall i | 0 <= i && i + 1 < |t|
      ensures !SpacePair(t, i)
    {
      assert SpacePair(t, i) == SpacePair(s, a + i);
    }
  }

  /** `strip()` returns a slice of its input with no whitespace at either end. */
  lemma {:induction false} StripIsTrimmedSlice(s: string)
    ensures exists a: nat, b: nat :: a <= b <= |s| && Strip(s) == s[a..b]
    ensures Strip(s) != [] ==> !IsSpace(Strip(s)[0]) && !IsSpace(Strip(s)[|Strip(s)| - 1])
  {
    var a := StripLeftSlice(s);
    var l := StripLeft(s);
    var b := StripRightSlice(l);
    assert Strip(s) == s[a..][..b] == s[a..a + b];
  }

  lemma {:induction false} StripLeftSlice(s: string) returns (a: nat)
    ensures a <= |s| && StripLeft(s) == s[a..]
    ensures StripLeft(s) != [] ==> !IsSpace(StripLeft(s)[0])
    decreases |s|
  {
    if s != [] && IsSpace(s[0]) {
      var a' := StripLeftSlice(s[1..]);
      a := a' + 1;
    } else {
      a := 0;
    }
  }

  lemma {:induction false} StripRightSlice(s: string) returns (b: nat)
    ensures b <= |s| && StripRight(s) == s[..b]
    ensures StripRight(s) != [] ==> !IsSpace(StripRight(s)[|StripRight(s)| - 1])
    ensures s != [] && !IsSpace(s[0]) ==> StripRight(s) != [] && StripRight(s)[0] == s[0]
    decreases |s|
  {
    if s != [] && IsSpace(s[|s| - 1]) {
      b := StripRightSlice(s[..|s| - 1]);
    } else {
      b := |s|;
    }
  }

  /**
   * The text `clean_response` returns is tidy: no whitespace at either end,
   * every whitespace character a single space, and no two spaces in a row.
   */
  lemma CleanResponseIsTidy(text: Option<string>)
    ensures var r := CleanResponse(text);
            && Collapsed(r)
            && (r != [] ==> !IsSpace(r[0]) && !IsSpace(r[|r| - 1]))
  {
    if Tweets.Truthy(text) {
      var before := ApplyAll(Pipeline[..10], text.value);
      ApplyAllSplit(Pipeline, 10, text.value);
      assert Pipeline[10..] == [Whitespace];
      var collapsed := Rewrite(Whitespace, before);
      assert ApplyAll([Whitespace], before) == ApplyAll([], collapsed) == collapsed;
      WhitespacePassCollapses(before);
      StripIsTrimmedSlice(collapsed);
      var a: nat, b: nat :| a <= b <= |collapsed| && Strip(collapsed) == collapsed[a..b];
      CollapsedSlice(collapsed, a, b);
    }
  }

  /** Running a pipeline is running its first `k` passes and then the rest. */
  lemma {:induction false} ApplyAllSplit(passes: seq<Pass>, k: nat, s: string)
    requires k <= |passes|
    ensures ApplyAll(passes, s) == ApplyAll(passes[k..], ApplyAll(passes[..k], s))
    decreases k
  {
    if k > 0 {
      ApplyAllSplit(passes[1..], k - 1, Rewrite(passes[0], s));
      assert passes[1..][k - 1..] == passes[k..];
      assert passes[1..][..k - 1] == passes[..k][1..];
    }
  }

  /** `[^c]+` followed by something else stops exactly where the free part ends. */
  lemma UntilAppend(x: string, c: char, rest: string)
    requires forall i :: 0 <= i < |x| ==> x[i] != c
    requires rest != [] && rest[0] == c
    ensures Until(x + rest, c) == |x|
    decreases |x|
  {
    if x != [] {
      assert (x + rest)[1..] == x[1..] + rest;
      UntilAppend(x[1..], c, rest);
    }
  }

  /** Rewriting the empty string gives the empty string. */
  lemma RewriteEmpty(p: Pass)
    ensures Rewrite(p, "") == ""
  {
  }

  /** A match that spans the whole string is replaced, and nothing else happens. */
  lemma RewriteWholeMatch(p: Pass, s: string, x: string)
    requires MatchAt(p, s) == Some(Match(|s|, x))
    ensures Rewrite(p, s) == x
  {
    assert s[|s|..] == "";
    assert Rewrite(p, s) == x + Rewrite(p, "");
  }

  lemma BoldMatchesWrapped(x: string)
    requires x != [] && forall i :: 0 <= i < |x| ==> x[i] != '*'
    ensures BoldAt("**" + x + "**") == Some(Match(|x| + 4, x))
  {
    var s := "**" + x + "**";
    assert s[..2] == "**";
    assert s[2..] == x + "**";
    UntilAppend(x, '*', "**");
    assert s[2 + |x|..2 + |x| + 2] == "**";
    assert s[2..2 + |x|] == x;
  }

  /** `**x**` becomes `x` when `x` is non-empty and free of `*`. */
  lemma BoldUnwraps(x: string)
    requires x != [] && forall i :: 0 <= i < |x| ==> x[i] != '*'
    ensures Rewrite(Bold, "**" + x + "**") == x
  {
    BoldMatchesWrapped(x);
    RewriteWholeMatch(Bold, "**" + x + "**", x);
  }

  /** `` `x` `` becomes `x` when `x` is non-empty and free of backticks. */
  lemma InlineCodeMatchesWrapped(x: string)
    requires x != [] && forall i :: 0 <= i < |x| ==> x[i] != '`'
    ensures MatchAt(InlineCode, "`" + x + "`") == Some(Match(|x| + 2, x))
  {
    var s := "`" + x + "`";
    assert s[1..] == x + "`";
    UntilAppend(x, '`', "`");
    assert s[1..1 + |x|] == x;
  }

  lemma InlineCodeUnwraps(x: string)
    requires x != [] && forall i :: 0 <= i < |x| ==> x[i] != '`'
    ensures Rewrite(InlineCode, "`" + x + "`") == x
  {
    InlineCodeMatchesWrapped(x);
    RewriteWholeMatch(InlineCode, "`" + x + "`", x);
  }


  /** A Markdown link, `[text](url)`. */
  function LinkMarkup(text: string, url: string): string {
    "[" + text + "](" + url + ")"
  }

  /** The link pattern read off the positions of its parts. */
  lemma LinkAtParts(s: string, n: nat, m: nat)
    requires 3 + n + m < |s| && n > 0 && m > 0
    requires s[0] == '[' && s[1 + n] == ']' && s[2 + n] == '('
    requires Until(s[1..], ']') == n && Until(s[3 + n..], ')') == m
    ensures LinkAt(s) == Some(Match(4 + n + m, s[1..1 + n]))
  {
  }

  /** Where the parts of a link sit. */
  lemma LinkSlices(text: string, url: string)
    ensures var s := LinkMarkup(text, url);
            var n := |text|;
            && |s| == 4 + n + |url|
            && s[0] == '[' && s[1 + n] == ']' && s[2 + n] == '('
            && s[1..] == text + ("](" + url + ")")
            && s[3 + n..] == url + ")"
            && s[1..1 + n] == text
  {
  }

  lemma LinkMatchesWrapped(text: string, url: string)
    requires text != [] && forall i :: 0 <= i < |text| ==> text[i] != ']'
    requires url != [] && forall i :: 0 <= i < |url| ==> url[i] != ')'
    ensures MatchAt(Link, LinkMarkup(text, url)) == Some(Match(|LinkMarkup(text, url)|, text))
  {
    LinkSlices(text, url);
    UntilAppend(text, ']', "](" + url + ")");
    UntilAppend(url, ')', ")");
    LinkAtParts(LinkMarkup(text, url), |text|, |url|);
  }

  /** `[text](url)` becomes `text` when `text` is non-empty and free of `]`, and `url` is non-empty and free of `)`. */
  lemma LinkUnwraps(text: string, url: string)
    requires text != [] && forall i :: 0 <= i < |text| ==> text[i] != ']'
    requires url != [] && forall i :: 0 <= i < |url| ==> url[i] != ')'
    ensures Rewrite(Link, LinkMarkup(text, url)) == text
  {
    LinkMatchesWrapped(text, url);
    RewriteWholeMatch(Link, LinkMarkup(text, url), text);
  }

  /** Whether a match of `p` can start with `c`. */
  predicate CanStart(p: Pass, c: char) {
    match p
    case Footnote => c == '\U{3010}'
    case Bold => c == '*'
    case Italic => c == '*'
    case NumberedList => IsDigit(c)
    case Bullet => c == '-' || c == '\U{2022}'
    case CodeBlock => c == '`'
    case InlineCode => c == '`'
    case Heading => c == '#'
    case Link => c == '['
    case Blockquote => c == '>'
    case Whitespace => IsSpace(c)
  }

  /** No character of `s` can start a match of `p`. */
  predicate Quiet(p: Pass, s: string) {
    forall i :: 0 <= i < |s| ==> !CanStart(p, s[i])
  }

  lemma QuietAppend(p: Pass, a: string, b: string)
    requires Quiet(p, a) && Quiet(p, b)
    ensures Quiet(p, a + b)
  {
    forall i | 0 <= i < |a + b|
      ensures !CanStart(p, (a + b)[i])
    {
      if i >= |a| {
        assert (a + b)[i] == b[i - |a|];
      }
    }
  }

  lemma NoMatchWithoutAnchor(p: Pass, s: string)
    requires s != [] && !CanStart(p, s[0])
    ensures MatchAt(p, s) == None
  {
  }

  /** Where nothing matches, one character is copied and the scan moves on. */
  lemma RewriteCopies(p: Pass, s: string)
    requires s != [] && MatchAt(p, s) == None
    ensures Rewrite(p, s) == [s[0]] + Rewrite(p, s[1..])
  {
  }

  lemma AppendAssoc(a: string, b: string, c: string)
    ensures a + (b + c) == a + b + c
  {
  }

  /** A pass leaves alone every prefix in which no match can start. */
  lemma {:induction false} RewriteSkipsPrefix(p: Pass, a: string, b: string)
    requires Quiet(p, a)
    ensures Rewrite(p, a + b) == a + Rewrite(p, b)
    decreases |a|
  {
    if a != [] {
      var s := a + b;
      NoMatchWithoutAnchor(p, s);
      RewriteCopies(p, s);
      assert s[1..] == a[1..] + b;
      RewriteSkipsPrefix(p, a[1..], b);
      AppendAssoc([a[0]], a[1..], Rewrite(p, b));
      assert [a[0]] + a[1..] == a;
    } else {
      assert a + b == b;
    }
  }

  /** A pass leaves a string alone when no match can start anywhere in it. */
  lemma RewriteUntouched(p: Pass, s: string)
    requires Quiet(p, s)
    ensures Rewrite(p, s) == s
  {
    RewriteSkipsPrefix(p, s, "");
    assert s + "" == s;
  }

  /** A match at the front is replaced and the scan resumes after it. */
  lemma RewriteAfterMatch(p: Pass, a: string, b: string, x: string)
    requires MatchAt(p, a + b) == Some(Match(|a|, x))
    ensures Rewrite(p, a + b) == x + Rewrite(p, b)
  {
    assert (a + b)[|a|..] == b;
  }

  /** Collapsed text is a fixed point of the whitespace pass. */
  lemma {:induction false} WhitespacePassKeepsCollapsed(s: string)
    requires Collapsed(s)
    ensures Rewrite(Whitespace, s) == s
    decreases |s|
  {
    if s != [] {
      CollapsedSlice(s, 1, |s|);
      assert s[1..|s|] == s[1..];
      WhitespacePassKeepsCollapsed(s[1..]);
      if IsSpace(s[0]) {
        assert |s| > 1 ==> !SpacePair(s, 0);
        assert Spaces(s) == 1;
      }
    }
  }

  lemma BoldMatchesFront(x: string, rest: string)
    requires x != [] && forall i :: 0 <= i < |x| ==> x[i] != '*'
    ensures BoldAt("**" + x + "**" + rest) == Some(Match(|x| + 4, x))
  {
    var s := "**" + x + "**" + rest;
    assert s[..2] == "**";
    assert s[2..] == x + ("**" + rest);
    UntilAppend(x, '*', "**" + rest);
    assert s[2 + |x|..2 + |x| + 2] == "**";
    assert s[2..2 + |x|] == x;
  }

  lemma DigitsAppend(d: string, rest: string)
    requires forall i :: 0 <= i < |d| ==> IsDigit(d[i])
    requires rest != [] && !IsDigit(rest[0])
    ensures Digits(d + rest) == |d|
    decreases |d|
  {
    if d != [] {
      assert (d + rest)[1..] == d[1..] + rest;
      DigitsAppend(d[1..], rest);
    }
  }

  /** An OpenAI file citation, `【d1:d2†body】`. */
  function Citation(d1: string, d2: string, body: string): string {
    "\U{3010}" + d1 + ":" + d2 + "\U{2020}" + body + "\U{3011}"
  }

  /** The footnote pattern read off the positions of its parts. */
  lemma FootnoteAtParts(s: string, n1: nat, n2: nat, n: nat)
    requires 3 + n1 + n2 + n < |s| && n1 > 0 && n2 > 0 && n > 0
    requires s[0] == '\U{3010}' && s[1 + n1] == ':' && s[2 + n1 + n2] == '\U{2020}'
    requires Digits(s[1..]) == n1 && Digits(s[2 + n1..]) == n2
    requires Until(s[3 + n1 + n2..], '\U{3011}') == n
    ensures FootnoteAt(s) == Some(Match(4 + n1 + n2 + n, ""))
  {
  }

  /** Where the parts of a citation sit once it is followed by more text. */
  lemma CitationSlices(d1: string, d2: string, body: string, rest: string)
    ensures var s := Citation(d1, d2, body) + rest;
            var n1, n2 := |d1|, |d2|;
            var t := "\U{3011}" + rest;
            && |s| == 4 + n1 + n2 + |body| + |rest|
            && s[0] == '\U{3010}' && s[1 + n1] == ':' && s[2 + n1 + n2] == '\U{2020}'
            && s[1..] == d1 + (":" + d2 + "\U{2020}" + body + t)
            && s[2 + n1..] == d2 + ("\U{2020}" + body + t)
            && s[3 + n1 + n2..] == body + t
  {
  }

  /** A file-citation marker `【d1:d2†body】` at the front of a string is one footnote match. */
  lemma FootnoteMatchesFront(d1: string, d2: string, body: string, rest: string)
    requires d1 != [] && forall i :: 0 <= i < |d1| ==> IsDigit(d1[i])
    requires d2 != [] && forall i :: 0 <= i < |d2| ==> IsDigit(d2[i])
    requires body != [] && forall i :: 0 <= i < |body| ==> body[i] != '\U{3011}'
    ensures FootnoteAt(Citation(d1, d2, body) + rest) == Some(Match(|Citation(d1, d2, body)|, ""))
  {
    var s := Citation(d1, d2, body) + rest;
    var t := "\U{3011}" + rest;
    CitationSlices(d1, d2, body, rest);
    DigitsAppend(d1, ":" + d2 + "\U{2020}" + body + t);
    DigitsAppend(d2, "\U{2020}" + body + t);
    UntilAppend(body, '\U{3011}', t);
    FootnoteAtParts(s, |d1|, |d2|, |body|);
  }

  /** A single match in the middle of text where nothing else can match. */
  lemma RewriteOneMatch(p: Pass, a: string, m: string, rest: string, x: string)
    requires Quiet(p, a)
    requires Quiet(p, rest)
    requires MatchAt(p, m + rest) == Some(Match(|m|, x))
    ensures Rewrite(p, a + m + rest) == a + x + rest
  {
    assert a + m + rest == a + (m + rest);
    RewriteAfterMatch(p, m, rest, x);
    RewriteUntouched(p, rest);
    RewriteSkipsPrefix(p, a, m + rest);
  }

  /** Characters that no pass of the pipeline touches and no pattern uses as a delimiter. */
  predicate PlainChar(c: char) {
    && !IsSpace(c) && !IsDigit(c)
    && c != '*' && c != '-' && c != '\U{2022}' && c != '`' && c != '#'
    && c != '[' && c != ']' && c != '(' && c != ')' && c != '>' && c != '\U{3010}' && c != '\U{3011}'
  }

  /** A non-empty word of plain characters. */
  predicate Plain(s: string) {
    s != [] && forall i :: 0 <= i < |s| ==> PlainChar(s[i])
  }

  lemma PlainIsQuiet(p: Pass, s: string)
    requires Plain(s)
    ensures Quiet(p, s)
  {
  }

  lemma PlainIsCollapsed(s: string)
    requires Plain(s)
    ensures Collapsed(s)
  {
  }

  /** Two collapsed runs joined by one space, neither touching it with whitespace, stay collapsed. */
  lemma CollapsedJoin(a: string, b: string)
    requires Collapsed(a) && Collapsed(b) && a != [] && b != []
    requires !IsSpace(a[|a| - 1]) && !IsSpace(b[0])
    ensures Collapsed(a + " " + b)
  {
    var s := a + " " + b;
    forall i | 0 <= i && i + 1 < |s|
      ensures !SpacePair(s, i)
    {
      if i + 1 < |a| {
        assert SpacePair(s, i) == SpacePair(a, i);
      } else if i > |a| {
        assert SpacePair(s, i) == SpacePair(b, i - |a| - 1);
      }
    }
    forall i | 0 <= i < |s| && IsSpace(s[i])
      ensures s[i] == ' '
    {
      if i > |a| {
        assert s[i] == b[i - |a| - 1];
      }
    }
  }

  lemma ApplyAllQuiet(passes: seq<Pass>, s: string)
    requires forall k :: 0 <= k < |passes| ==> Quiet(passes[k], s)
    ensures ApplyAll(passes, s) == s
    decreases |passes|
  {
    if passes != [] {
      RewriteUntouched(passes[0], s);
      ApplyAllQuiet(passes[1..], s);
    }
  }

  /** The hypotheses of `CleanResponseUnwrapsMarkup`. */
  predicate MarkupParts(x: string, y: string, d1: string, d2: string, body: string, text: string, url: string) {
    && Plain(x) && Plain(y) && Plain(text) && Plain(url)
    && d1 != [] && (forall i :: 0 <= i < |d1| ==> IsDigit(d1[i]))
    && d2 != [] && (forall i :: 0 <= i < |d2| ==> IsDigit(d2[i]))
    && body != [] && (forall i :: 0 <= i < |body| ==> body[i] != '\U{3011}')
  }

  /** The pipeline, stage by stage, for text whose only markup is bold, a citation and a link. */
  lemma PipelineStages(s0: string, s1: string, s2: string, s3: string)
    requires Rewrite(Footnote, s0) == s1 && Rewrite(Bold, s1) == s2
    requires ApplyAll([Italic, NumberedList, Bullet, CodeBlock, InlineCode, Heading], s2) == s2
    requires Rewrite(Link, s2) == s3 && ApplyAll([Blockquote, Whitespace], s3) == s3
    ensures ApplyAll(Pipeline, s0) == s3
  {
    var later := Pipeline[2..];
    assert Pipeline[..2] == [Footnote, Bold];
    assert later[..6] == [Italic, NumberedList, Bullet, CodeBlock, InlineCode, Heading];
    assert later[6..] == [Link, Blockquote, Whitespace];
    ApplyAllSplit(Pipeline, 2, s0);
    ApplyAllSplit(later, 6, s2);
    assert ApplyAll([Link, Blockquote, Whitespace], s2) == ApplyAll([Blockquote, Whitespace], s3);
  }

  lemma QuietWords(p: Pass, x: string, y: string)
    requires Plain(x) && Plain(y) && !CanStart(p, ' ')
    ensures Quiet(p, x + " " + y + " ") && Quiet(p, " " + y + " ")
  {
    PlainIsQuiet(p, x); PlainIsQuiet(p, y);
    QuietAppend(p, x, " "); QuietAppend(p, x + " ", y); QuietAppend(p, x + " " + y, " ");
    QuietAppend(p, " ", y); QuietAppend(p, " " + y, " ");
  }

  lemma QuietLink(p: Pass, text: string, url: string)
    requires Plain(text) && Plain(url) && p != Link && p != Whitespace
    ensures Quiet(p, LinkMarkup(text, url))
  {
    PlainIsQuiet(p, text); PlainIsQuiet(p, url);
    QuietAppend(p, "[", text); QuietAppend(p, "[" + text, "](");
    QuietAppend(p, "[" + text + "](", url); QuietAppend(p, "[" + text + "](" + url, ")");
  }

  lemma StageCitation(a: string, d1: string, d2: string, body: string, tail: string)
    requires Quiet(Footnote, a) && Quiet(Footnote, tail)
    requires d1 != [] && forall i :: 0 <= i < |d1| ==> IsDigit(d1[i])
    requires d2 != [] && forall i :: 0 <= i < |d2| ==> IsDigit(d2[i])
    requires body != [] && forall i :: 0 <= i < |body| ==> body[i] != '\U{3011}'
    ensures Rewrite(Footnote, a + Citation(d1, d2, body) + tail) == a + tail
  {
    assert a + "" + tail == a + tail;
    FootnoteMatchesFront(d1, d2, body, tail);
    RewriteOneMatch(Footnote, a, Citation(d1, d2, body), tail, "");
  }

  lemma StageBold(x: string, tail: string)
    requires Plain(x) && Quiet(Bold, tail)
    ensures Rewrite(Bold, "**" + x + "**" + tail) == x + tail
  {
    BoldMatchesFront(x, tail);
    RewriteAfterMatch(Bold, "**" + x + "**", tail, x);
    RewriteUntouched(Bold, tail);
  }

  lemma StageQuiet(s: string)
    requires forall p :: p in [Italic, NumberedList, Bullet, CodeBlock, InlineCode, Heading] ==> Quiet(p, s)
    ensures ApplyAll([Italic, NumberedList, Bullet, CodeBlock, InlineCode, Heading], s) == s
  {
    ApplyAllQuiet([Italic, NumberedList, Bullet, CodeBlock, InlineCode, Heading], s);
  }

  lemma StageLink(a: string, text: string, url: string)
    requires Quiet(Link, a) && Plain(text) && Plain(url)
    ensures Rewrite(Link, a + LinkMarkup(text, url)) == a + text
  {
    assert LinkMarkup(text, url) + "" == LinkMarkup(text, url);
    assert a + LinkMarkup(text, url) + "" == a + LinkMarkup(text, url);
    assert a + text + "" == a + text;
    LinkMatchesWrapped(text, url);
    RewriteOneMatch(Link, a, LinkMarkup(text, url), "", text);
  }

  lemma TailQuiet(x: string, y: string, text: string)
    requires Plain(x) && Plain(y) && Plain(text)
    ensures Rewrite(Blockquote, x + " " + y + " " + text) == x + " " + y + " " + text
  {
    QuietWords(Blockquote, x, y);
    PlainIsQuiet(Blockquote, text);
    QuietAppend(Blockquote, x + " " + y + " ", text);
    RewriteUntouched(Blockquote, x + " " + y + " " + text);
  }

  lemma TailCollapsed(x: string, y: string, text: string)
    requires Plain(x) && Plain(y) && Plain(text)
    ensures var s := x + " " + y + " " + text;
            Collapsed(s) && !IsSpace(s[0]) && !IsSpace(s[|s| - 1])
  {
    var s := x + " " + y + " " + text;
    PlainIsCollapsed(x); PlainIsCollapsed(y); PlainIsCollapsed(text);
    CollapsedJoin(x, y);
    CollapsedJoin(x + " " + y, text);
    assert s[0] == x[0];
    assert s[|s| - 1] == text[|text| - 1];
  }

  lemma StageTail(x: string, y: string, text: string)
    requires Plain(x) && Plain(y) && Plain(text)
    ensures var s := x + " " + y + " " + text;
            ApplyAll([Blockquote, Whitespace], s) == s && Strip(s) == s
  {
    var s := x + " " + y + " " + text;
    TailQuiet(x, y, text);
    TailCollapsed(x, y, text);
    WhitespacePassKeepsCollapsed(s);
  }

  lemma CitationPass(x: string, y: string, d1: string, d2: string, body: string, text: string, url: string)
    requires MarkupParts(x, y, d1, d2, body, text, url)
    ensures Rewrite(Footnote, "**" + x + "** " + y + Citation(d1, d2, body) + " " + LinkMarkup(text, url))
            == "**" + x + "**" + (" " + y + " " + LinkMarkup(text, url))
  {
    var link := LinkMarkup(text, url);
    var a := "**" + x + "** " + y;
    assert a + Citation(d1, d2, body) + " " + link == a + Citation(d1, d2, body) + (" " + link);
    assert a + (" " + link) == "**" + x + "**" + (" " + y + " " + link);
    PlainIsQuiet(Footnote, x); PlainIsQuiet(Footnote, y);
    QuietAppend(Footnote, "**", x); QuietAppend(Footnote, "**" + x, "** "); QuietAppend(Footnote, "**" + x + "** ", y);
    QuietLink(Footnote, text, url);
    QuietAppend(Footnote, " ", link);
    StageCitation(a, d1, d2, body, " " + link);
  }

  lemma BoldPass(x: string, y: string, text: string, url: string)
    requires Plain(x) && Plain(y) && Plain(text) && Plain(url)
    ensures Rewrite(Bold, "**" + x + "**" + (" " + y + " " + LinkMarkup(text, url))) == x + " " + y + " " + LinkMarkup(text, url)
  {
    var link := LinkMarkup(text, url);
    QuietWords(Bold, x, y);
    QuietLink(Bold, text, url);
    QuietAppend(Bold, " " + y + " ", link);
    StageBold(x, " " + y + " " + link);
    AppendAssoc(x, " " + y + " ", link);
    AppendAssoc(x, " " + y, " ");
    AppendAssoc(x, " ", y);
  }

  lemma QuietPasses(x: string, y: string, text: string, url: string)
    requires Plain(x) && Plain(y) && Plain(text) && Plain(url)
    ensures var s := x + " " + y + " " + LinkMarkup(text, url);
            ApplyAll([Italic, NumberedList, Bullet, CodeBlock, InlineCode, Heading], s) == s
  {
    var s := x + " " + y + " " + LinkMarkup(text, url);
    forall p | p in [Italic, NumberedList, Bullet, CodeBlock, InlineCode, Heading]
      ensures Quiet(p, s)
    {
      QuietWords(p, x, y);
      QuietLink(p, text, url);
      QuietAppend(p, x + " " + y + " ", LinkMarkup(text, url));
    }
    StageQuiet(s);
  }

  lemma LinkPass(x: string, y: string, text: string, url: string)
    requires Plain(x) && Plain(y) && Plain(text) && Plain(url)
    ensures Rewrite(Link, x + " " + y + " " + LinkMarkup(text, url)) == x + " " + y + " " + text
  {
    QuietWords(Link, x, y);
    StageLink(x + " " + y + " ", text, url);
  }

  /**
   * Markup around plain words comes off and a file citation disappears:
   * `**x** y【d1:d2†body】 [text](url)` cleans to `x y text`.
   */
  lemma CleanResponseUnwrapsMarkup(x: string, y: string, d1: string, d2: string, body: string, text: string, url: string)
    requires MarkupParts(x, y, d1, d2, body, text, url)
    ensures CleanResponse(Some("**" + x + "** " + y + Citation(d1, d2, body) + " " + LinkMarkup(text, url)))
            == x + " " + y + " " + text
  {
    CitationPass(x, y, d1, d2, body, text, url);
    BoldPass(x, y, text, url);
    QuietPasses(x, y, text, url);
    LinkPass(x, y, text, url);
    StageTail(x, y, text);
    PipelineStages("**" + x + "** " + y + Citation(d1, d2, body) + " " + LinkMarkup(text, url),
                   "**" + x + "**" + (" " + y + " " + LinkMarkup(text, url)),
                   x + " " + y + " " + LinkMarkup(text, url),
                   x + " " + y + " " + text);
  }

  lemma ExampleWordIsPlain(w: string)
    requires w == "Hi" || w == "there" || w == "link" || w == "http://x"
    ensures Plain(w)
  {
  }

  /**
   * A worked example: `**Hi** there【4:0†note.txt】 [link](http://x)`
   * cleans to `Hi there link`.
   */
  lemma CleanResponseExample(hi: string, there: string, d1: string, d2: string, body: string, link: string, url: string)
    requires hi == "Hi" && there == "there" && link == "link" && url == "http://x"
    requires d1 == "4" && d2 == "0" && body == "note.txt"
    ensures CleanResponse(Some("**" + hi + "** " + there + Citation(d1, d2, body) + " " + LinkMarkup(link, url)))
            == hi + " " + there + " " + link
  {
    ExampleWordIsPlain(hi);
    ExampleWordIsPlain(there);
    ExampleWordIsPlain(link);
    ExampleWordIsPlain(url);
    CleanResponseUnwrapsMarkup(hi, there, d1, d2, body, link, url);
  }

  /** The reply as posted: at most `TweetMaxLength` characters, cut with an ellipsis when longer. */
  function Truncate(s: string): (r: string)
    ensures |r| <= TweetMaxLength
    ensures |s| <= TweetMaxLength ==> r == s
    ensures |s| > TweetMaxLength ==> |r| == TweetMaxLength && r[..TweetMaxLength - 3] == s[..TweetMaxLength - 3] && r[TweetMaxLength - 3..] == Ellipsis
  {
    if |s| > TweetMaxLength then s[..TweetMaxLength - 3] + Ellipsis else s
  }

  /** Truncating twice is truncating once. */
  lemma TruncateIdempotent(s: string)
    ensures Truncate(Truncate(s)) == Truncate(s)
  {
  }
}
