/** String tests and rewrites the endpoints perform with `startsWith`, `includes`,
    `replace(/^\/+/, "")` and case-insensitive regular expressions. */
module Strings {

  /** `s.startsWith(prefix)` */
  predicate StartsWith(s: string, prefix: string) {
    |prefix| <= |s| && s[..|prefix|] == prefix
  }

  /** `s.endsWith(suffix)` */
  predicate EndsWith(s: string, suffix: string) {
    |suffix| <= |s| && s[|s| - |suffix|..] == suffix
  }

  /** A string that ends with `a + b` ends with `b`. */
  lemma EndsWithSuffix(s: string, a: string, b: string)
    requires EndsWith(s, a + b)
    ensures EndsWith(s, b)
  {
    var n := |s| - |a + b|;
    assert s[n..][|a|..] == (a + b)[|a|..] == b;
    assert s[n..][|a|..] == s[n + |a|..];
  }

  /** `t` occurs in `s` starting at index `i`. */
  predicate OccursAt(s: string, t: string, i: int) {
    0 <= i <= |s| - |t| && s[i..i + |t|] == t
  }

  /** `s.includes(t)` */
  predicate Contains(s: string, t: string) {
    exists i :: 0 <= i <= |s| && OccursAt(s, t, i)
  }

  /** A run of `n` slashes. */
  function Slashes(n: nat): (r: string)
    ensures |r| == n && forall i :: 0 <= i < n ==> r[i] == '/'
  {
    if n == 0 then "" else "/" + Slashes(n - 1)
  }

  /** `p.replace(/^\/+/, "")`: removes the whole run of leading slashes, and nothing else. */
  function StripLeadingSlashes(p: string): (r: string)
    ensures r == [] || r[0] != '/'
    ensures |r| <= |p|
    ensures forall i :: 0 <= i < |p| - |r| ==> p[i] == '/'
  {
    if p != [] && p[0] == '/' then StripLeadingSlashes(p[1..]) else p
  }

  /** What remains is the end of the path. */
  lemma {:induction false} StripLeavesSuffix(p: string)
    ensures StripLeadingSlashes(p) == p[|p| - |StripLeadingSlashes(p)|..]
  {
    if p != [] && p[0] == '/' {
      StripLeavesSuffix(p[1..]);
    }
  }

  /** A path that does not start with '/' is left as it is. */
  lemma StripKeepsUnslashed(p: string)
    requires p == [] || p[0] != '/'
    ensures StripLeadingSlashes(p) == p
  {
  }

  /** Stripping twice is stripping once. */
  lemma StripIdempotent(p: string)
    ensures StripLeadingSlashes(StripLeadingSlashes(p)) == StripLeadingSlashes(p)
  {
    StripKeepsUnslashed(StripLeadingSlashes(p));
  }

  /** However many slashes precede a path, the stripped result is the same. */
  lemma {:induction false} StripIgnoresSlashRun(n: nat, p: string)
    ensures StripLeadingSlashes(Slashes(n) + p) == StripLeadingSlashes(p)
  {
    if n > 0 {
      assert (Slashes(n) + p)[0] == '/';
      assert (Slashes(n) + p)[1..] == Slashes(n - 1) + p;
      StripIgnoresSlashRun(n - 1, p);
    } else {
      assert Slashes(n) + p == p;
    }
  }

  /** Case folding as a non-Unicode JavaScript regular expression with the `i` flag does it:
      only ASCII letters fold, since a non-ASCII character never canonicalises to an ASCII one. */
  function AsciiLower(c: char): (r: char)
    ensures ('A' <= c <= 'Z') ==> 'a' <= r <= 'z' && r as int == c as int + 32
    ensures !('A' <= c <= 'Z') ==> r == c
  {
    if 'A' <= c <= 'Z' then (c as int + 32) as char else c
  }

  function Lower(s: string): (r: string)
    ensures |r| == |s| && forall i :: 0 <= i < |s| ==> r[i] == AsciiLower(s[i])
  {
    seq(|s|, i requires 0 <= i < |s| => AsciiLower(s[i]))
  }

  /** Folding twice is folding once. */
  lemma LowerIdempotent(s: string)
    ensures Lower(Lower(s)) == Lower(s)
  {
    var once := Lower(s);
    forall i | 0 <= i < |s|
      ensures Lower(once)[i] == once[i]
    {
      assert AsciiLower(AsciiLower(s[i])) == AsciiLower(s[i]);
    }
  }

  /** Folding commutes with taking a suffix. */
  lemma LowerSuffix(s: string, k: nat)
    requires k <= |s|
    ensures Lower(s[k..]) == Lower(s)[k..]
  {
  }
}
