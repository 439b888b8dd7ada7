/** String helpers the recon script uses on lines of its files: Python's
    whitespace test, `str.strip()`, the first word of `str.split()`, and the
    substring test behind the JavaScript-URL marker. */
module Text {

  /** Python's `str.isspace()` for one character: the characters that
      `strip()` removes and `split()` splits on. */
  predicate IsSpace(c: char) {
    c == ' ' || ('\t' <= c <= '\r') || ('\U{1C}' <= c <= '\U{1F}')
    || c == '\U{85}' || c == '\U{A0}' || c == '\U{1680}'
    || ('\U{2000}' <= c <= '\U{200A}') || c == '\U{2028}' || c == '\U{2029}'
    || c == '\U{202F}' || c == '\U{205F}' || c == '\U{3000}'
  }

  predicate NoSpace(s: string) {
    forall k :: 0 <= k < |s| ==> !IsSpace(s[k])
  }

  /** `sub` occurs in `s` starting at index `i`. */
  predicate OccursAt(s: string, sub: string, i: int) {
    0 <= i && i + |sub| <= |s| && s[i..i + |sub|] == sub
  }

  /** `sub in s` */
  predicate Contains(s: string, sub: string) {
    exists i | 0 <= i <= |s| - |sub| :: OccursAt(s, sub, i)
  }

  /** The match test of the JS extraction: `'.js' in line or '/js/' in line`. */
  predicate IsJsLine(line: string) {
    Contains(line, ".js") || Contains(line, "/js/")
  }

  /** A substring not ending in a newline is found in a line with its
      terminator iff it is found in the line without it. */
  lemma ContainsIgnoresNewline(line: string, sub: string)
    requires sub != [] && sub[|sub| - 1] != '\n'
    ensures Contains(line + "\n", sub) <==> Contains(line, sub)
  {
    var u := line + "\n";
    if Contains(line, sub) {
      var i :| 0 <= i <= |line| - |sub| && OccursAt(line, sub, i);
      assert u[i..i + |sub|] == line[i..i + |sub|];
      assert OccursAt(u, sub, i);
    }
    if Contains(u, sub) {
      var i :| 0 <= i <= |u| - |sub| && OccursAt(u, sub, i);
      assert u[i + |sub| - 1] == u[i..i + |sub|][|sub| - 1];
      assert i + |sub| - 1 != |line|;
      assert line[i..i + |sub|] == u[i..i + |sub|];
      assert OccursAt(line, sub, i);
    }
  }

  /** Python tests each line with its terminator; the terminator never makes
      or breaks a match, so lines are kept here without it. */
  lemma JsLineIgnoresTerminator(line: string)
    ensures IsJsLine(line + "\n") <==> IsJsLine(line)
  {
    ContainsIgnoresNewline(line, ".js");
    ContainsIgnoresNewline(line, "/js/");
  }

  /** Number of whitespace characters at the front of `s`. */
  function LeadingSpace(s: string): (n: nat)
    ensures n <= |s|
    ensures forall k :: 0 <= k < n ==> IsSpace(s[k])
    ensures n < |s| ==> !IsSpace(s[n])
  {
    if |s| > 0 && IsSpace(s[0]) then 1 + LeadingSpace(s[1..]) else 0
  }

  /** Index just past the last non-whitespace character of `s` (0 if none). */
  function ContentEnd(s: string): (n: nat)
    ensures n <= |s|
    ensures forall k :: n <= k < |s| ==> IsSpace(s[k])
    ensures n > 0 ==> !IsSpace(s[n - 1])
  {
    if |s| > 0 && IsSpace(s[|s| - 1]) then ContentEnd(s[..|s| - 1]) else |s|
  }

  /** Python's `str.strip()`: drop whitespace from both ends. */
  function Strip(s: string): (r: string)
    ensures |r| <= |s|
    ensures r == [] || (!IsSpace(r[0]) && !IsSpace(r[|r| - 1]))
    ensures r == [] <==> forall k :: 0 <= k < |s| ==> IsSpace(s[k])
  {
    var a, b := LeadingSpace(s), ContentEnd(s);
    if a < b then s[a..b] else []
  }

  /** What `strip()` removes is whitespace and what it keeps is the middle of
      `s`, unchanged. */
  lemma StripIsInfix(s: string)
    ensures var a := LeadingSpace(s);
            a + |Strip(s)| <= |s| && Strip(s) == s[a..a + |Strip(s)|]
            && (forall k :: 0 <= k < a ==> IsSpace(s[k]))
            && (forall k :: a + |Strip(s)| <= k < |s| ==> IsSpace(s[k]))
  {
    var a, b := LeadingSpace(s), ContentEnd(s);
    if a >= b {
      assert a == |s|;
    }
  }

  /** Stripping twice is stripping once. */
  lemma StripIdempotent(s: string)
    ensures Strip(Strip(s)) == Strip(s)
  {
    var r := Strip(s);
    if r != [] {
      assert LeadingSpace(r) == 0;
      assert ContentEnd(r) == |r|;
      assert r[0..|r|] == r;
    }
  }

  /** A whitespace-free substring survives `strip()`: the marker a line was
      kept for is still in the URL written out. */
  lemma StripKeepsWord(s: string, sub: string)
    requires sub != [] && NoSpace(sub)
    requires Contains(s, sub)
    ensures Contains(Strip(s), sub)
  {
    var i :| 0 <= i <= |s| - |sub| && OccursAt(s, sub, i);
    OccurrenceInStrip(s, sub, i);
    StripIsSlice(s);
    OccursInInfix(s, sub, Strip(s), LeadingSpace(s), i);
  }

  /** An occurrence of a word without whitespace lies inside the stripped
      part. */
  lemma OccurrenceInStrip(s: string, sub: string, i: nat)
    requires sub != [] && NoSpace(sub) && OccursAt(s, sub, i)
    ensures LeadingSpace(s) <= i && i + |sub| <= ContentEnd(s)
  {
    OccurrenceEnds(s, sub, i);
    NonSpaceKept(s, i);
    NonSpaceKept(s, i + |sub| - 1);
  }

  /** An occurrence starts and ends with the first and last characters of
      what occurs. */
  lemma OccurrenceEnds(s: string, sub: string, i: nat)
    requires sub != [] && i + |sub| <= |s| && OccursAt(s, sub, i)
    ensures s[i] == sub[0] && s[i + |sub| - 1] == sub[|sub| - 1]
  {
    assert s[i] == s[i..i + |sub|][0];
    assert s[i + |sub| - 1] == s[i..i + |sub|][|sub| - 1];
  }

  /** The stripped string is the slice between the leading and the
      trailing whitespace. */
  lemma StripIsSlice(s: string)
    ensures var a := LeadingSpace(s);
            a + |Strip(s)| <= |s| && Strip(s) == s[a..a + |Strip(s)|]
            && (a < ContentEnd(s) ==> a + |Strip(s)| == ContentEnd(s))
  {
    StripIsInfix(s);
  }

  /** A non-space character lies between the leading and the trailing
      whitespace. */
  lemma NonSpaceKept(s: string, j: nat)
    requires j < |s| && !IsSpace(s[j])
    ensures LeadingSpace(s) <= j < ContentEnd(s)
  {
  }

  lemma OccursInInfix(s: string, sub: string, r: string, a: nat, i: nat)
    requires a + |r| <= |s| && r == s[a..a + |r|]
    requires a <= i && i + |sub| <= a + |r|
    requires OccursAt(s, sub, i)
    ensures OccursAt(r, sub, i - a)
  {
    var j, n := i - a, |sub|;
    forall k | 0 <= k < n ensures r[j..j + n][k] == sub[k] {
      assert r[j + k] == s[a..a + |r|][j + k] == s[i + k];
      assert s[i + k] == s[i..i + n][k];
    }
    assert r[j..j + n] == sub;
  }

  /** Every line kept by the JS filter still matches after stripping. */
  lemma StripKeepsJsMarker(line: string)
    requires IsJsLine(line)
    ensures IsJsLine(Strip(line)) && Strip(line) != []
  {
    if Contains(line, ".js") {
      StripKeepsWord(line, ".js");
    } else {
      StripKeepsWord(line, "/js/");
    }
  }

  /** The longest whitespace-free prefix of `s`. */
  function Token(s: string): (r: string)
    ensures |r| <= |s| && r == s[..|r|] && NoSpace(r)
    ensures |r| < |s| ==> IsSpace(s[|r|])
  {
    if |s| == 0 || IsSpace(s[0]) then [] else [s[0]] + Token(s[1..])
  }

  /** `s.split()[0]`: the first whitespace-separated word; meaningful when `s`
      holds a non-whitespace character (otherwise Python raises IndexError). */
  function FirstWord(s: string): (r: string)
    ensures NoSpace(r)
    ensures var a := LeadingSpace(s); a + |r| <= |s| && r == s[a..a + |r|]
    ensures var a := LeadingSpace(s); a + |r| < |s| ==> IsSpace(s[a + |r|])
    ensures (exists k :: 0 <= k < |s| && !IsSpace(s[k])) ==> r != []
  {
    Token(s[LeadingSpace(s)..])
  }

  /** On a stripped line the first word is a prefix of the line, ended by
      whitespace or by the end of the line. */
  lemma FirstWordOfStripped(s: string)
    requires s != [] && Strip(s) == s
    ensures var w := FirstWord(s);
            w != [] && w == s[..|w|] && (|w| == |s| || IsSpace(s[|w|]))
  {
    assert !IsSpace(s[0]);
    assert LeadingSpace(s) == 0;
    assert s[0..] == s;
  }

  lemma TokenIs(s: string, n: nat)
    requires n <= |s| && NoSpace(s[..n]) && (n < |s| ==> IsSpace(s[n]))
    ensures Token(s) == s[..n]
  {
    var r := Token(s);
    assert forall k :: 0 <= k < n ==> !IsSpace(s[k]) by {
      forall k | 0 <= k < n ensures !IsSpace(s[k]) {
        assert s[k] == s[..n][k];
      }
    }
    assert |r| >= n;
    assert |r| == n;
  }

  /** A line that starts with a whitespace-free word followed by whitespace
      (or nothing) has that word as the first word of the stripped line. */
  lemma FirstWordOfLine(w: string, tail: string)
    requires w != [] && NoSpace(w)
    requires tail == [] || IsSpace(tail[0])
    ensures FirstWord(Strip(w + tail)) == w
  {
    var line := w + tail;
    assert line[0] == w[0];
    assert LeadingSpace(line) == 0;
    StripIsInfix(line);
    var r := Strip(line);
    assert line[|w| - 1] == w[|w| - 1];
    assert |w| <= |r|;
    assert r[..|w|] == w;
    assert NoSpace(r[..|w|]);
    if |w| < |r| {
      assert r[|w|] == tail[0];
    }
    TokenIs(r, |w|);
    assert r[0] == w[0];
    assert LeadingSpace(r) == 0;
    assert r[0..] == r;
  }
}
