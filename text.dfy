/** The .NET string operations the core relies on: char.IsWhiteSpace, string.Trim,
    string.IsNullOrWhiteSpace and string.Split(new[] { sep }, 2). A C# string that may be
    null is an `Option<string>`. */
module Text {

  import opened Exceptions

  /** char.IsWhiteSpace: the Unicode White_Space characters (categories Zs, Zl, Zp,
      the controls U+0009 to U+000D, U+0085 and U+00A0). */
  predicate IsWhiteSpace(c: char)
    ensures c == ' ' || c == '\t' || c == '\r' || c == '\n' ==> IsWhiteSpace(c)
    ensures IsWhiteSpace(c) ==> !('a' <= c <= 'z' || 'A' <= c <= 'Z' || '0' <= c <= '9' || c == '@')
  {
    var n := c as int;
    (0x09 <= n <= 0x0D) || n == 0x20 || n == 0x85 || n == 0xA0 || n == 0x1680
    || (0x2000 <= n <= 0x200A) || n == 0x2028 || n == 0x2029 || n == 0x202F
    || n == 0x205F || n == 0x3000
  }

  /** Number of white-space characters at the start of `s`. */
  function LeadingWhiteSpace(s: string): (n: nat)
    ensures n <= |s|
    ensures forall i :: 0 <= i < n ==> IsWhiteSpace(s[i])
    ensures n < |s| ==> !IsWhiteSpace(s[n])
  {
    if |s| > 0 && IsWhiteSpace(s[0]) then 1 + LeadingWhiteSpace(s[1..]) else 0
  }

  /** Number of white-space characters at the end of `s`. */
  function TrailingWhiteSpace(s: string): (n: nat)
    ensures n <= |s|
    ensures forall i :: |s| - n <= i < |s| ==> IsWhiteSpace(s[i])
    ensures n < |s| ==> !IsWhiteSpace(s[|s| - 1 - n])
  {
    if |s| > 0 && IsWhiteSpace(s[|s| - 1]) then 1 + TrailingWhiteSpace(s[..|s| - 1]) else 0
  }

  /** string.Trim(): `s` without its leading and trailing white space. The result is the
      infix of `s` that starts after the leading white space, everything cut off is white
      space, and the result neither starts nor ends with white space. */
  function Trim(s: string): (r: string)
    ensures LeadingWhiteSpace(s) + |r| <= |s|
    ensures r == s[LeadingWhiteSpace(s)..LeadingWhiteSpace(s) + |r|]
    ensures forall i :: LeadingWhiteSpace(s) + |r| <= i < |s| ==> IsWhiteSpace(s[i])
    ensures |r| > 0 ==> !IsWhiteSpace(r[0]) && !IsWhiteSpace(r[|r| - 1])
  {
    var t := s[LeadingWhiteSpace(s)..];
    t[..|t| - TrailingWhiteSpace(t)]
  }

  /** string.IsNullOrWhiteSpace: null, or nothing but white space, which is to say exactly
      what trimming empties. */
  predicate IsNullOrWhiteSpace(s: Option<string>)
    ensures IsNullOrWhiteSpace(s) <==> s.None? || Trim(s.value) == []
  {
    if s.None? then true
    else
      AllWhiteSpaceIffTrimEmpty(s.value);
      forall i :: 0 <= i < |s.value| ==> IsWhiteSpace(s.value[i])
  }

  /** A string is all white space exactly when trimming it leaves nothing. */
  lemma AllWhiteSpaceIffTrimEmpty(s: string)
    ensures (forall i :: 0 <= i < |s| ==> IsWhiteSpace(s[i])) <==> Trim(s) == []
  {
    if Trim(s) == [] {
      var a := LeadingWhiteSpace(s);
      forall i | 0 <= i < |s| ensures IsWhiteSpace(s[i]) {
        if i >= a { assert a + |Trim(s)| <= i; }
      }
    }
  }

  /** Trimming white space a second time changes nothing. */
  lemma {:induction false} TrimIdempotent(s: string)
    ensures Trim(Trim(s)) == Trim(s)
  {
    var r := Trim(s);
    if |r| > 0 {
      assert LeadingWhiteSpace(r) == 0;
      assert TrailingWhiteSpace(r) == 0;
    }
  }

  /** Position of the first occurrence of `c` in `s`. */
  function IndexOf(s: string, c: char): (r: Option<nat>)
    ensures r.None? <==> c !in s
    ensures r.Some? ==> r.value < |s| && s[r.value] == c && c !in s[..r.value]
  {
    if |s| == 0 then None
    else if s[0] == c then Some(0)
    else
      match IndexOf(s[1..], c)
      case None => None
      case Some(i) =>
        assert s[..i + 1] == [s[0]] + s[1..][..i];
        Some(i + 1)
  }

  /** s.Split(new[] { sep }, 2) with StringSplitOptions.None: the whole string when `sep`
      does not occur, otherwise the part before the FIRST `sep` and everything after it. */
  function SplitFirst(s: string, sep: char): (r: seq<string>)
    ensures 1 <= |r| <= 2
    ensures |r| == 1 <==> sep !in s
    ensures |r| == 1 ==> r[0] == s
    ensures |r| == 2 ==> sep !in r[0] && r[0] + [sep] + r[1] == s
  {
    match IndexOf(s, sep)
    case None => [s]
    case Some(i) =>
      assert s == s[..i] + [sep] + s[i + 1..];
      [s[..i], s[i + 1..]]
  }

  /** Splitting at the first separator is undone by joining with it, and the first part
      is then the longest separator-free prefix. */
  lemma SplitFirstUnique(s: string, sep: char, u: string, p: string)
    requires sep !in u && u + [sep] + p == s
    ensures SplitFirst(s, sep) == [u, p]
  {
    var r := SplitFirst(s, sep);
    assert s[|u|] == sep;
    assert |r| == 2;
    assert r[0] == s[..|u|] == u;
    assert r[1] == s[|u| + 1..] == p;
  }
}
