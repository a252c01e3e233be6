/**
 * A clipping: a captured text and the one-line preview derived from it
 * when the clipping is created (Clippings.swift, class `Clipping`).
 */
module Preview {

  /** The preview keeps at most this many characters before the ellipsis. */
  const DefaultLength := 40

  const Ellipsis: char := '\U{2026}'

  /** Foundation's `newlines` set: U+000A to U+000D, U+0085, U+2028, U+2029. */
  predicate IsNewline(c: char) {
    ('\n' <= c <= '\r') || c == '\U{0085}' || c == '\U{2028}' || c == '\U{2029}'
  }

  /** Foundation's `whitespaces` set: space separators and the tab. */
  predicate IsWhitespace(c: char) {
    || c == '\t' || c == ' ' || c == '\U{00A0}' || c == '\U{1680}'
    || ('\U{2000}' <= c <= '\U{200A}')
    || c == '\U{202F}' || c == '\U{205F}' || c == '\U{3000}'
  }

  /** Foundation's `whitespacesAndNewlines` set. */
  predicate IsSpace(c: char) {
    IsWhitespace(c) || IsNewline(c)
  }

  /** Every character of `s` from `lo` up to `hi` is whitespace or a newline. */
  predicate SpaceIn(s: string, lo: int, hi: int)
    requires 0 <= lo <= hi <= |s|
  {
    forall j :: lo <= j < hi ==> IsSpace(s[j])
  }

  predicate AllSpace(s: string) {
    SpaceIn(s, 0, |s|)
  }

  predicate NoNewline(s: string) {
    forall i :: 0 <= i < |s| ==> !IsNewline(s[i])
  }

  /** Drops the leading whitespace and newlines, and nothing else. */
  function TrimLeading(s: string): (r: string)
    ensures |r| <= |s| && r == s[|s| - |r|..]
    ensures SpaceIn(s, 0, |s| - |r|)
    ensures r == [] || !IsSpace(r[0])
  {
    if s != [] && IsSpace(s[0]) then
      var t := s[1..];
      var r := TrimLeading(t);
      assert forall j :: 1 <= j < |s| - |r| ==> s[j] == t[j - 1];
      r
    else
      s
  }

  /** Drops the trailing whitespace and newlines, and nothing else. */
  function TrimTrailing(s: string): (r: string)
    ensures |r| <= |s| && r == s[..|r|]
    ensures SpaceIn(s, |r|, |s|)
    ensures r == [] || !IsSpace(r[|r| - 1])
  {
    if s != [] && IsSpace(s[|s| - 1]) then
      var t := s[..|s| - 1];
      var r := TrimTrailing(t);
      assert t[..|r|] == s[..|r|];
      assert forall j :: |r| <= j < |t| ==> s[j] == t[j];
      r
    else
      s
  }

  /** Where the trimmed text starts in `s`. */
  function TrimStart(s: string): (i: nat)
    ensures i <= |s|
  {
    |s| - |TrimLeading(s)|
  }

  /**
   * `trimmingCharacters(in: .whitespacesAndNewlines)`: the slice of `s`
   * left after dropping whitespace and newlines at both ends.
   */
  function Trim(s: string): (r: string)
    ensures TrimStart(s) + |r| <= |s| && r == s[TrimStart(s)..TrimStart(s) + |r|]
    ensures SpaceIn(s, 0, TrimStart(s)) && SpaceIn(s, TrimStart(s) + |r|, |s|)
    ensures r == [] || (!IsSpace(r[0]) && !IsSpace(r[|r| - 1]))
  {
    var left := TrimLeading(s);
    var r := TrimTrailing(left);
    SuffixSlices(s, left, r);
    r
  }

  /** How a prefix `r` of a suffix `left` of `s` sits in `s`. */
  lemma SuffixSlices(s: string, left: string, r: string)
    requires |left| <= |s| && left == s[|s| - |left|..]
    requires |r| <= |left| && r == left[..|r|] && SpaceIn(left, |r|, |left|)
    ensures var i := |s| - |left|;
            && r == s[i..i + |r|] && SpaceIn(s, i + |r|, |s|)
            && (r != [] ==> r[0] == left[0])
  {
    var i := |s| - |left|;
    forall j | i + |r| <= j < |s| ensures IsSpace(s[j]) {
      assert s[j] == left[j - i];
    }
  }

  /** Leading whitespace in front of a core that starts with none is exactly what `TrimLeading` drops. */
  lemma {:induction false} TrimLeadingOfPadded(p: string, t: string)
    requires AllSpace(p) && (t == [] || !IsSpace(t[0]))
    ensures TrimLeading(p + t) == t
    decreases |p|
  {
    if p == [] {
      assert p + t == t;
    } else {
      assert (p + t)[1..] == p[1..] + t;
      TrimLeadingOfPadded(p[1..], t);
    }
  }

  /** Trailing whitespace after a core that ends in none is exactly what `TrimTrailing` drops. */
  lemma {:induction false} TrimTrailingOfPadded(t: string, q: string)
    requires AllSpace(q) && (t == [] || !IsSpace(t[|t| - 1]))
    ensures TrimTrailing(t + q) == t
    decreases |q|
  {
    if q == [] {
      assert t + q == t;
    } else {
      assert (t + q)[..|t + q| - 1] == t + q[..|q| - 1];
      TrimTrailingOfPadded(t, q[..|q| - 1]);
    }
  }

  /**
   * `Trim` is determined by its contract: whitespace, then a core with no
   * whitespace at either end, then whitespace, trims to that core.
   */
  lemma TrimOfPadded(p: string, t: string, q: string)
    requires AllSpace(p) && AllSpace(q)
    requires t == [] || (!IsSpace(t[0]) && !IsSpace(t[|t| - 1]))
    ensures Trim(p + t + q) == t
  {
    if t == [] {
      assert p + t + q == (p + q) + [];
      assert AllSpace(p + q) by {
        forall k | 0 <= k < |p + q| ensures IsSpace((p + q)[k]) {
          if k >= |p| {
            assert (p + q)[k] == q[k - |p|];
          }
        }
      }
      TrimLeadingOfPadded(p + q, []);
      TrimTrailingOfPadded([], []);
    } else {
      assert p + t + q == p + (t + q);
      TrimLeadingOfPadded(p, t + q);
      TrimTrailingOfPadded(t, q);
    }
  }

  /** `components(separatedBy: .newlines)[0]`: the text before the first newline. */
  function FirstLine(s: string): (r: string)
    ensures r <= s
    ensures NoNewline(r)
    ensures |r| < |s| ==> IsNewline(s[|r|])
  {
    if s == [] || IsNewline(s[0]) then [] else [s[0]] + FirstLine(s[1..])
  }

  /**
   * The preview of a captured text: trimmed, cut at the first newline,
   * and cut to 40 characters with an ellipsis when longer than that.
   */
  function ShortenedText(s: string): (r: string)
    ensures NoNewline(r)
    ensures |r| <= DefaultLength + 1
    ensures |r| == DefaultLength + 1 <==> |FirstLine(Trim(s))| > DefaultLength
    ensures |r| == DefaultLength + 1 ==> r == FirstLine(Trim(s))[..DefaultLength] + [Ellipsis]
    ensures |r| <= DefaultLength ==> r == FirstLine(Trim(s))
  {
    var line := FirstLine(Trim(s));
    if |line| > DefaultLength then line[..DefaultLength] + [Ellipsis] else line
  }

  /** A line with no newline and no whitespace at either end. */
  predicate CleanLine(s: string) {
    NoNewline(s) && (s == [] || (!IsSpace(s[0]) && !IsSpace(s[|s| - 1])))
  }

  /** On a clean line the preview is plain truncation to 40 characters. */
  lemma ShortenedTextOfCleanLine(s: string)
    requires CleanLine(s)
    ensures ShortenedText(s) == if |s| > DefaultLength then s[..DefaultLength] + [Ellipsis] else s
  {
    assert TrimLeading(s) == s;
    assert TrimTrailing(s) == s;
  }

  /** The preview without its ellipsis, `Core`, is a prefix of the trimmed text. */
  function Core(r: string): string {
    if |r| == DefaultLength + 1 then r[..DefaultLength] else r
  }

  lemma ShortenedCoreIsPrefix(s: string)
    ensures var core := Core(ShortenedText(s));
            |core| <= |Trim(s)| && core == Trim(s)[..|core|]
  {
    var line := FirstLine(Trim(s));
    var core := Core(ShortenedText(s));
    assert core == line[..|core|];
    assert line == Trim(s)[..|line|];
  }

  /**
   * The preview without its ellipsis is a slice of the captured text that
   * starts where the trimmed text starts, after whitespace and newlines only.
   */
  lemma ShortenedTextIsExcerpt(s: string)
    ensures var core := Core(ShortenedText(s));
            var i := TrimStart(s);
            && i + |core| <= |s| && core == s[i..i + |core|] && SpaceIn(s, 0, i)
  {
    var core := Core(ShortenedText(s));
    ShortenedCoreIsPrefix(s);
    SlicePrefix(s, TrimStart(s), |Trim(s)|, |core|);
  }

  lemma SlicePrefix(s: string, i: int, n: int, m: int)
    requires 0 <= i && i + n <= |s| && 0 <= m <= n
    ensures s[i..i + n][..m] == s[i..i + m]
  {
  }

  /** The clipping value. `length` is the preview limit the source stores. */
  datatype Clipping = Clipping(fullText: string, shortenedText: string, length: int)

  /** A clipping as `Clipping.init(string:)` creates it. */
  ghost predicate WellFormed(c: Clipping) {
    c.shortenedText == ShortenedText(c.fullText) && c.length == DefaultLength
  }

  /** `Clipping.init(string:)`: the full text is stored unchanged, the preview derived from it. */
  function NewClipping(s: string): (c: Clipping)
    ensures c.fullText == s
    ensures WellFormed(c)
    ensures NoNewline(c.shortenedText) && |c.shortenedText| <= DefaultLength + 1
  {
    Clipping(s, ShortenedText(s), DefaultLength)
  }

  /** A well-formed clipping is recreated exactly from its full text. */
  lemma NewClippingOfFullText(c: Clipping)
    requires WellFormed(c)
    ensures NewClipping(c.fullText) == c
  {
  }

  /** `"  hello\nworld  "` previews as `"hello"`. */
  lemma ShortenedTextExampleTwoLines()
    ensures ShortenedText("  hello\nworld  ") == "hello"
  {
    TrimExample();
    FirstLineExample();
  }

  lemma TrimExample()
    ensures Trim("  hello\nworld  ") == "hello\nworld"
  {
    var pad := "  ";
    var body := "hello\nworld";
    assert "  hello\nworld  " == pad + body + pad;
    assert AllSpace(pad) by {
      assert pad[0] == ' ' && pad[1] == ' ';
    }
    assert body[0] == 'h' && body[|body| - 1] == 'd';
    TrimOfPadded(pad, body, pad);
  }

  lemma FirstLineExample()
    ensures FirstLine("hello\nworld") == "hello"
  {
    var body := "hello\nworld";
    assert body[5] == '\n';
    assert FirstLine(body[5..]) == [];
    assert body[4..] == [body[4]] + body[5..];
    assert body[3..] == [body[3]] + body[4..];
    assert body[2..] == [body[2]] + body[3..];
    assert body[1..] == [body[1]] + body[2..];
  }

  /** Fifty `x` characters preview as forty `x` characters and an ellipsis. */
  lemma ShortenedTextExampleLong()
    ensures var r := ShortenedText(seq(50, _ => 'x'));
            |r| == DefaultLength + 1 && r[DefaultLength] == Ellipsis
            && forall k :: 0 <= k < DefaultLength ==> r[k] == 'x'
  {
    var s := seq(50, _ => 'x');
    assert CleanLine(s);
    ShortenedTextOfCleanLine(s);
  }
}
