/**
 * The few Python `str` built-ins the downloader relies on, modelled on
 * strings as sequences of Unicode scalar values: `isspace` (the set that
 * `strip()` removes), `strip()`, `split(sep, 1)`, `replace(c, d)` for
 * single characters, and `startswith` (Dafny's prefix relation `<=`).
 */
module PyStr {

  /** Python's `str.isspace` on one character: the characters `strip()` removes. */
  predicate IsSpace(c: char)
    ensures IsSpace(c) ==> !('!' <= c <= '~')
    ensures c == ' ' || c == '\t' || c == '\n' || c == '\r' ==> IsSpace(c)
  {
    ('\t' <= c <= '\r') || ('\U{1C}' <= c <= '\U{1F}') || c == ' '
    || c == '\U{85}' || c == '\U{A0}' || c == '\U{1680}'
    || ('\U{2000}' <= c <= '\U{200A}') || c == '\U{2028}' || c == '\U{2029}'
    || c == '\U{202F}' || c == '\U{205F}' || c == '\U{3000}'
  }

  /** `s.rstrip()`: the longest prefix of `s` that does not end in whitespace. */
  function RStrip(s: string): (r: string)
    ensures r <= s
    ensures forall i :: |r| <= i < |s| ==> IsSpace(s[i])
    ensures r == [] || !IsSpace(r[|r| - 1])
  {
    if |s| > 0 && IsSpace(s[|s| - 1]) then RStrip(s[..|s| - 1]) else s
  }

  /** `s.lstrip()`: the longest suffix of `s` that does not start with whitespace. */
  function LStrip(s: string): (r: string)
    ensures |r| <= |s| && r == s[|s| - |r|..]
    ensures forall i :: 0 <= i < |s| - |r| ==> IsSpace(s[i])
    ensures r == [] || !IsSpace(r[0])
  {
    if |s| > 0 && IsSpace(s[0]) then LStrip(s[1..]) else s
  }

  /** `s.strip()`: whitespace removed from both ends (StripSlice says what is removed). */
  function Strip(s: string): (r: string)
    ensures |r| <= |s|
    ensures r == [] || (!IsSpace(r[0]) && !IsSpace(r[|r| - 1]))
  {
    LStrip(RStrip(s))
  }

  /**
   * `strip()` keeps a contiguous slice of `s`, ending where `rstrip()` ends,
   * and everything cut off on either side is whitespace.
   */
  lemma StripSlice(s: string)
    ensures var r, t := Strip(s), RStrip(s);
            && |r| <= |t| && r == s[|t| - |r|..|t|]
            && (forall i :: 0 <= i < |t| - |r| ==> IsSpace(s[i]))
            && (forall i :: |t| <= i < |s| ==> IsSpace(s[i]))
  {
    var t := RStrip(s);
    var r := LStrip(t);
    var k := |t| - |r|;
    assert t == s[..|t|];
    assert r == t[k..];
    assert s[..|t|][k..] == s[k..|t|];
    forall i | 0 <= i < k
      ensures IsSpace(s[i])
    {
      assert s[i] == t[i];
    }
  }

  /**
   * `s.split(sep, 1)`: one part when `sep` does not occur, otherwise the
   * text before the first `sep` and everything after it.
   */
  function SplitOnce(s: string, sep: char): (parts: seq<string>)
    ensures |parts| == 1 || |parts| == 2
    ensures |parts| == 1 <==> sep !in s
    ensures |parts| == 1 ==> parts[0] == s
    ensures |parts| == 2 ==> sep !in parts[0] && s == parts[0] + [sep] + parts[1]
  {
    if |s| == 0 then [s]
    else if s[0] == sep then ["", s[1..]]
    else
      var rest := SplitOnce(s[1..], sep);
      [[s[0]] + rest[0]] + rest[1..]
  }

  /** `s.replace(target, replacement)` for single characters. */
  function ReplaceChar(s: string, target: char, replacement: char): (r: string)
    ensures |r| == |s|
    ensures forall i :: 0 <= i < |s| ==> r[i] == if s[i] == target then replacement else s[i]
  {
    if s == [] then [] else [if s[0] == target then replacement else s[0]] + ReplaceChar(s[1..], target, replacement)
  }

  /** Stripping a string that already has no whitespace at either end changes nothing. */
  lemma {:induction false} StripTrimmed(s: string)
    requires s == [] || (!IsSpace(s[0]) && !IsSpace(s[|s| - 1]))
    ensures Strip(s) == s
  {
  }

  /** Trailing whitespace is exactly what `rstrip` removes. */
  lemma {:induction false} RStripTrailing(s: string, ws: string)
    requires forall i :: 0 <= i < |ws| ==> IsSpace(ws[i])
    ensures RStrip(s + ws) == RStrip(s)
  {
    if ws != [] {
      assert (s + ws)[..|s + ws| - 1] == s + ws[..|ws| - 1];
      RStripTrailing(s, ws[..|ws| - 1]);
    } else {
      assert s + ws == s;
    }
  }
}
