/** The string operations of the Java platform and of Apache Commons Lang that the processor
    calls: `StringUtils.isBlank`, `StringUtils.defaultIfBlank`, and lower-casing the first
    character with `substring` and `toLowerCase`. */
module JavaText {
  import opened Wrappers

  /** `Character.isWhitespace` on the ASCII range: space, the tab, line feed, vertical tab,
      form feed and carriage return, and the four separators U+001C to U+001F. */
  predicate IsWhitespace(c: char)
  {
    c == ' ' || c == '\t' || c == '\n' || c == '\U{0B}' || c == '\U{0C}' || c == '\r'
    || ('\U{1C}' <= c <= '\U{1F}')
  }

  /** `StringUtils.isBlank`: null, empty, or whitespace only. */
  predicate IsBlank(s: Option<string>)
  {
    s.None? || forall i | 0 <= i < |s.value| :: IsWhitespace(s.value[i])
  }

  /** `StringUtils.defaultIfBlank(s, d)`. */
  function DefaultIfBlank(s: Option<string>, d: string): (r: string)
    ensures IsBlank(s) ==> r == d
    ensures !IsBlank(s) ==> s == Some(r) && exists i | 0 <= i < |r| :: !IsWhitespace(r[i])
  {
    if IsBlank(s) then d else s.value
  }

  /** `Character.toLowerCase` on the ASCII letters; every other character is unchanged. */
  function LowerAscii(c: char): (r: char)
    ensures 'A' <= c <= 'Z' ==> 'a' <= r <= 'z' && r as int - c as int == 32
    ensures !('A' <= c <= 'Z') ==> r == c
  {
    if 'A' <= c <= 'Z' then (c as int + 32) as char else c
  }

  /** `s.substring(0, 1).toLowerCase() + s.substring(1)`; `substring(0, 1)` throws on "". */
  function LowerFirst(s: string): (r: string)
    requires |s| > 0
    ensures |r| == |s|
    ensures r[0] == LowerAscii(s[0])
    ensures forall i | 1 <= i < |s| :: r[i] == s[i]
  {
    [LowerAscii(s[0])] + s[1..]
  }

  /** `s.indexOf(c)`, with None for -1. */
  function IndexOf(s: string, c: char): (r: Option<nat>)
    ensures r.None? <==> c !in s
    ensures r.Some? ==> r.value < |s| && s[r.value] == c && c !in s[..r.value]
  {
    if s == [] then None
    else if s[0] == c then Some(0)
    else
      var tail := IndexOf(s[1..], c);
      assert s == [s[0]] + s[1..];
      match tail
      case None => None
      case Some(k) =>
        assert s[..k + 1] == [s[0]] + s[1..][..k];
        Some(k + 1)
  }

  /** In `a + b`, the first occurrence of a character that `a` lacks and `b` starts with is at
      position `|a|`. */
  lemma {:induction false} IndexOfAfter(a: string, b: string, c: char)
    requires c !in a
    requires |b| > 0 && b[0] == c
    ensures IndexOf(a + b, c) == Some(|a|)
  {
    var r := IndexOf(a + b, c);
    assert (a + b)[|a|] == c;
    assert (a + b)[..|a|] == a;
    assert c in a + b;
    assert r.Some?;
  }
}
