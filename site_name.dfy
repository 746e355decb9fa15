/**
 * The site fragment that `save_to_csv` takes from the configured URL: the first result of
 * `re.findall("(?<=\.).*(?=\.com)", website)`.
 *
 * A match of that pattern is a span [p, e) of the URL such that the character just before
 * p is a dot, the span holds no newline (`.` does not match one), and `.com` starts at e.
 * `findall` tries start positions from left to right, so the first match starts at the
 * earliest p that admits any match at all; for that p the greedy `.*` keeps the longest
 * span, so e is the last admissible end.
 */
module SiteName {
  import opened Wrappers

  predicate DotBefore(s: string, p: nat) {
    0 < p <= |s| && s[p - 1] == '.'
  }

  /** The lookahead `(?=\.com)` succeeds at position e. */
  predicate ComAt(s: string, e: nat) {
    e + 4 <= |s| && s[e] == '.' && s[e + 1] == 'c' && s[e + 2] == 'o' && s[e + 3] == 'm'
  }

  predicate NoNewline(s: string, p: nat, e: nat)
    requires p <= e <= |s|
  {
    forall k :: p <= k < e ==> s[k] != '\n'
  }

  /** The pattern matches the span s[p..e]. */
  predicate MatchAt(s: string, p: nat, e: nat) {
    p <= e <= |s| && DotBefore(s, p) && ComAt(s, e) && NoNewline(s, p, e)
  }

  /** How far `.*` can run from p: up to the next newline or the end of the string. */
  function LineEnd(s: string, p: nat): (h: nat)
    requires p <= |s|
    ensures p <= h <= |s| && NoNewline(s, p, h)
    ensures h == |s| || s[h] == '\n'
    decreases |s| - p
  {
    if p == |s| || s[p] == '\n' then p else LineEnd(s, p + 1)
  }

  /** Backtracking of the greedy `.*`: the last e in [p, h] at which `.com` follows. */
  function Backtrack(s: string, p: nat, h: nat): (r: Option<nat>)
    requires p <= h <= |s|
    ensures r.Some? ==> p <= r.value <= h && ComAt(s, r.value)
    ensures r.Some? ==> forall e :: r.value < e <= h ==> !ComAt(s, e)
    ensures r.None? ==> forall e :: p <= e <= h ==> !ComAt(s, e)
    decreases h - p
  {
    if ComAt(s, h) then Some(h)
    else if h == p then None
    else Backtrack(s, p, h - 1)
  }

  /** The end of the longest match starting at p, if any match starts there. */
  function LongestMatchFrom(s: string, p: nat): (r: Option<nat>)
    requires p <= |s|
    ensures r.Some? ==> MatchAt(s, p, r.value)
    ensures r.Some? ==> forall e :: r.value < e ==> !MatchAt(s, p, e)
    ensures r.None? ==> forall e :: !MatchAt(s, p, e)
  {
    if !DotBefore(s, p) then None
    else
      var h := LineEnd(s, p);
      var r := Backtrack(s, p, h);
      assert forall e :: h < e <= |s| ==> !NoNewline(s, p, e) by {
        forall e | h < e <= |s| ensures !NoNewline(s, p, e) {
          assert s[h] == '\n';
        }
      }
      r
  }

  /** The first match whose start is at or after q, as the regex engine scans. */
  function Scan(s: string, q: nat): (r: Option<(nat, nat)>)
    requires q <= |s|
    ensures r.Some? ==> q <= r.value.0 && MatchAt(s, r.value.0, r.value.1)
    ensures r.Some? ==> forall p: nat, e: nat :: q <= p < r.value.0 ==> !MatchAt(s, p, e)
    ensures r.Some? ==> forall e :: r.value.1 < e ==> !MatchAt(s, r.value.0, e)
    ensures r.None? ==> forall p: nat, e: nat :: q <= p ==> !MatchAt(s, p, e)
    decreases |s| - q
  {
    match LongestMatchFrom(s, q)
    case Some(e) => Some((q, e))
    case None => if q == |s| then None else Scan(s, q + 1)
  }

  /**
   * The span of `re.findall(...)[0]`: the earliest start that admits a match, and for it
   * the longest match; None when `findall` returns the empty list.
   */
  function FirstMatchSpan(s: string): (r: Option<(nat, nat)>)
    ensures r.Some? ==> MatchAt(s, r.value.0, r.value.1)
    ensures r.Some? ==> forall p: nat, e: nat :: p < r.value.0 ==> !MatchAt(s, p, e)
    ensures r.Some? ==> forall e :: r.value.1 < e ==> !MatchAt(s, r.value.0, e)
    ensures r.None? <==> forall p: nat, e: nat :: !MatchAt(s, p, e)
  {
    Scan(s, 0)
  }

  /** `re.findall("(?<=\.).*(?=\.com)", s)[0]`, or None when the list is empty. */
  function FirstMatch(s: string): (r: Option<string>)
    ensures r.None? <==> forall p: nat, e: nat :: !MatchAt(s, p, e)
  {
    match FirstMatchSpan(s)
    case None => None
    case Some((p, e)) => Some(s[p..e])
  }

  /**
   * For a URL shaped `a.b.com c` where `a` holds no dot, `b` no newline and `c` no dot,
   * the fragment is exactly `b` (for `https://de.indeed.com/...`, a is `https://de`,
   * b is `indeed`).
   */
  lemma {:induction false} FragmentOfHost(s: string, a: string, b: string, c: string)
    requires s == a + "." + b + ".com" + c
    requires '.' !in a && '\n' !in b && '.' !in c
    ensures FirstMatch(s) == Some(b)
  {
    var p, e := |a| + 1, |a| + 1 + |b|;
    assert s[..|a|] == a && s[|a|] == '.' && s[p..e] == b;
    assert s[e..e + 4] == ".com" && s[e + 4..] == c;
    assert ComAt(s, e) by {
      assert s[e] == s[e..e + 4][0];
      assert s[e + 1] == s[e..e + 4][1];
      assert s[e + 2] == s[e..e + 4][2];
      assert s[e + 3] == s[e..e + 4][3];
    }
    assert NoNewline(s, p, e) by {
      forall k | p <= k < e ensures s[k] != '\n' {
        assert s[k] == b[k - p];
      }
    }
    assert MatchAt(s, p, e);
    var r := FirstMatchSpan(s);
    assert r.Some?;
    var (p', e') := r.value;
    assert p' <= p;
    assert p' == p;
    assert e <= e';
    assert e' == e;
  }

  /** The site name of an Indeed search URL. */
  lemma IndeedFragment()
    ensures FirstMatch("https://de.indeed.com/Jobs?q=werkstudent") == Some("indeed")
  {
    var a, b, c := "https://de", "indeed", "/Jobs?q=werkstudent";
    var s := "https://de.indeed.com/Jobs?q=werkstudent";
    assert s == a + "." + b + ".com" + c;
    FragmentOfHost(s, a, b, c);
  }
}
