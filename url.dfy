/** The part of `urllib.parse.urlparse` the directory brute-force step relies
    on (scheme and network location), and the ffuf target built from them.

    The runner in module Recon treats `urlparse` as an oracle; the concrete
    splitter here follows the splitting rules of Python 3.12 (and 3.11.1
    and later, where a scheme must start with a letter) on printable ASCII
    URLs without IPv6 brackets, so that the target for a typical alive-host
    line can be computed and reasoned about. */
module Url {
  import opened Wrappers

  datatype UrlParts = UrlParts(scheme: string, netloc: string)

  /** `f"{parsed.scheme}://{parsed.netloc}/FUZZ"` */
  function FuzzTarget(p: UrlParts): (r: string)
    ensures |r| == |p.scheme| + |p.netloc| + 8
    ensures r[..|p.scheme|] == p.scheme
    ensures r[|p.scheme|..|p.scheme| + 3] == "://"
    ensures r[|p.scheme| + 3..|r| - 5] == p.netloc
    ensures r[|r| - 5..] == "/FUZZ"
  {
    p.scheme + "://" + p.netloc + "/FUZZ"
  }

  predicate IsAlpha(c: char) {
    'a' <= c <= 'z' || 'A' <= c <= 'Z'
  }

  /** Characters Python accepts in a scheme. */
  predicate IsSchemeChar(c: char) {
    IsAlpha(c) || '0' <= c <= '9' || c == '+' || c == '-' || c == '.'
  }

  /** Characters that end the network location. */
  predicate IsNetlocEnd(c: char) {
    c == '/' || c == '?' || c == '#'
  }

  /** The inputs the concrete splitter covers: printable ASCII, no IPv6
      bracket opening a literal address. */
  predicate Printable(s: string) {
    forall k :: 0 <= k < |s| ==> '!' <= s[k] <= '~' && s[k] != '['
  }

  /** A scheme as it comes out of `urlparse`: a letter, then scheme
      characters, all lower case. */
  predicate LowerScheme(s: string) {
    |s| > 0 && 'a' <= s[0] <= 'z'
    && forall k :: 0 <= k < |s| ==> IsSchemeChar(s[k]) && !('A' <= s[k] <= 'Z')
  }

  /** ASCII `str.lower()` */
  function Lower(s: string): (r: string)
    ensures |r| == |s|
    ensures forall k :: 0 <= k < |s| ==>
      r[k] == if 'A' <= s[k] <= 'Z' then (s[k] as int + 32) as char else s[k]
  {
    if s == [] then []
    else [if 'A' <= s[0] <= 'Z' then (s[0] as int + 32) as char else s[0]] + Lower(s[1..])
  }

  /** Index of the first `c` in `s`, or `|s|` when there is none. */
  function Find(s: string, c: char): (i: nat)
    ensures i <= |s|
    ensures forall k :: 0 <= k < i ==> s[k] != c
    ensures i < |s| ==> s[i] == c
  {
    if s == [] || s[0] == c then 0 else 1 + Find(s[1..], c)
  }

  /** Index of the first of `/`, `?`, `#` in `s`, or `|s|`. */
  function NetlocLength(s: string): (i: nat)
    ensures i <= |s|
    ensures forall k :: 0 <= k < i ==> !IsNetlocEnd(s[k])
    ensures i < |s| ==> IsNetlocEnd(s[i])
  {
    if s == [] || IsNetlocEnd(s[0]) then 0 else 1 + NetlocLength(s[1..])
  }

  /** The scheme split off the front of `u`, lower-cased, and what follows
      its colon; no scheme when the text before the first colon is empty,
      does not start with a letter or holds a non-scheme character. */
  function SplitScheme(u: string): (string, string) {
    var i := Find(u, ':');
    if 0 < i < |u| && IsAlpha(u[0]) && forall k :: 0 <= k < i ==> IsSchemeChar(u[k])
    then (Lower(u[..i]), u[i + 1..])
    else ("", u)
  }

  /** The network location: after a leading `//`, up to the first `/`, `?`
      or `#`; empty without the `//`. */
  function Netloc(rest: string): (n: string)
    ensures |n| <= |rest|
    ensures forall k :: 0 <= k < |n| ==> !IsNetlocEnd(n[k])
  {
    if |rest| >= 2 && rest[..2] == "//" then rest[2..][..NetlocLength(rest[2..])] else ""
  }

  /** `urlparse(u)` reduced to scheme and network location. `None` is the
      `ValueError` Python raises for an unmatched `]` in the network
      location. */
  function Split(u: string): (r: Option<UrlParts>)
    requires Printable(u)
    ensures r.Some? ==> ']' !in r.value.netloc
    ensures r.Some? ==> forall k :: 0 <= k < |r.value.netloc| ==> !IsNetlocEnd(r.value.netloc[k])
    ensures r.Some? ==> forall k :: 0 <= k < |r.value.scheme| ==> !('A' <= r.value.scheme[k] <= 'Z')
    ensures r.Some? ==> |r.value.scheme| + |r.value.netloc| <= |u|
  {
    var (scheme, rest) := SplitScheme(u);
    var netloc := Netloc(rest);
    if ']' in netloc then None else Some(UrlParts(scheme, netloc))
  }

  lemma LowerOfLowerScheme(s: string)
    requires LowerScheme(s)
    ensures Lower(s) == s
  {
  }

  lemma FindIs(s: string, c: char, i: nat)
    requires i < |s| && s[i] == c && forall k :: 0 <= k < i ==> s[k] != c
    ensures Find(s, c) == i
  {
    if Find(s, c) < i {
      assert s[Find(s, c)] == c;
    }
  }

  lemma NetlocLengthIs(s: string, i: nat)
    requires i <= |s| && (i < |s| ==> IsNetlocEnd(s[i]))
    requires forall k :: 0 <= k < i ==> !IsNetlocEnd(s[k])
    ensures NetlocLength(s) == i
  {
  }

  lemma SplitSchemeOf(scheme: string, after: string)
    requires LowerScheme(scheme)
    ensures SplitScheme(scheme + ":" + after) == (scheme, after)
  {
    var u := scheme + ":" + after;
    var n := |scheme|;
    assert forall k :: 0 <= k < n ==> u[k] == scheme[k];
    FindIs(u, ':', n);
    assert u[..n] == scheme && u[n + 1..] == after;
    LowerOfLowerScheme(scheme);
  }

  lemma NetlocOf(host: string, rest: string)
    requires forall k :: 0 <= k < |host| ==> !IsNetlocEnd(host[k])
    requires rest == [] || IsNetlocEnd(rest[0])
    ensures Netloc("//" + host + rest) == host
  {
    var after := "//" + host + rest;
    var tail := host + rest;
    assert after[..2] == "//" && after[2..] == tail;
    NetlocLengthIs(tail, |host|);
    assert tail[..|host|] == host;
  }

  /** `scheme://host` followed by a path, query or fragment (or nothing)
      splits into that scheme and host: everything after the host is
      discarded by the target construction. */
  lemma SplitSchemeHost(scheme: string, host: string, rest: string)
    requires LowerScheme(scheme)
    requires Printable(host) && forall k :: 0 <= k < |host| ==> !IsNetlocEnd(host[k]) && host[k] != ']'
    requires Printable(rest) && (rest == [] || IsNetlocEnd(rest[0]))
    ensures Printable(scheme + "://" + host + rest)
    ensures Split(scheme + "://" + host + rest) == Some(UrlParts(scheme, host))
  {
    var after := "//" + host + rest;
    assert scheme + "://" + host + rest == scheme + ":" + after;
    PrintableJoin(scheme, host, rest);
    SplitSchemeOf(scheme, after);
    NetlocOf(host, rest);
  }

  lemma PrintableJoin(scheme: string, host: string, rest: string)
    requires LowerScheme(scheme) && Printable(host) && Printable(rest)
    ensures Printable(scheme + "://" + host + rest)
  {
    var u := scheme + "://" + host + rest;
    forall k | 0 <= k < |u| ensures '!' <= u[k] <= '~' && u[k] != '[' {
      if k < |scheme| {
        assert u[k] == scheme[k] && IsSchemeChar(scheme[k]);
      } else if k < |scheme| + 3 {
        assert u[k] == "://"[k - |scheme|];
      } else if k < |scheme| + 3 + |host| {
        assert u[k] == host[k - |scheme| - 3];
      } else {
        assert u[k] == rest[k - |scheme| - 3 - |host|];
      }
    }
  }

  /** Splitting a ffuf target gives back the parts it was built from. */
  lemma FuzzTargetRoundTrip(p: UrlParts)
    requires LowerScheme(p.scheme)
    requires Printable(p.netloc)
    requires forall k :: 0 <= k < |p.netloc| ==> !IsNetlocEnd(p.netloc[k]) && p.netloc[k] != ']'
    ensures Printable(FuzzTarget(p))
    ensures Split(FuzzTarget(p)) == Some(p)
  {
    SplitSchemeHost(p.scheme, p.netloc, "/FUZZ");
    assert FuzzTarget(p) == p.scheme + "://" + p.netloc + "/FUZZ";
  }
}
