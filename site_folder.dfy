/** The folder-safe name the agent gives each site's output directory:
    `re.sub(r"[^a-zA-Z0-9._-]+", "_", site.strip("/"))`. */
module SiteFolder {
  import opened Strings

  /** The characters `[a-zA-Z0-9._-]` that may stay in a folder name. */
  predicate IsSafeChar(c: char) {
    'a' <= c <= 'z' || 'A' <= c <= 'Z' || '0' <= c <= '9' || c == '.' || c == '_' || c == '-'
  }

  predicate AllSafe(s: string) {
    forall k :: 0 <= k < |s| ==> IsSafeChar(s[k])
  }

  predicate IsSlash(c: char) { c == '/' }

  predicate AllSlashes(s: string) {
    forall k :: 0 <= k < |s| ==> IsSlash(s[k])
  }

  /** Python's `s.strip("/")`: drops every leading and every trailing slash. */
  function StripSlashes(s: string): (r: string)
    ensures |r| <= |s|
    ensures r == [] || (r[0] != '/' && r[|r| - 1] != '/')
    ensures r == [] <==> AllSlashes(s)
  {
    var lead := SpanWhile(s, 0, IsSlash);
    var body := s[lead..];
    var trail := TrailingWhile(body, IsSlash);
    assert lead < |s| ==> body[0] == s[lead];
    body[..|body| - trail]
  }

  /** Strip removes exactly the slashes around the core: for any core that
      neither starts nor ends with a slash, wrapping it in runs of slashes and
      stripping gives the core back. */
  lemma StripSlashesAround(before: string, core: string, after: string)
    requires AllSlashes(before) && AllSlashes(after)
    requires core == [] || (core[0] != '/' && core[|core| - 1] != '/')
    ensures StripSlashes(before + core + after) == core
  {
    var s := before + core + after;
    var lead := SpanWhile(s, 0, IsSlash);
    if core == [] {
      assert AllSlashes(s);
    } else {
      assert s[|before|] == core[0];
      assert lead == |before|;
      var body := s[lead..];
      assert body == core + after;
      var trail := TrailingWhile(body, IsSlash);
      assert body[|core| - 1] == core[|core| - 1];
      assert trail == |after|;
      assert body[..|body| - trail] == core;
    }
  }

  /** The scan behind the substitution: `inRun` says whether the previous
      character was a disallowed one, whose run has already become one `_`. */
  function CollapseFrom(s: string, inRun: bool): (r: string)
    ensures AllSafe(r)
    ensures |r| <= |s|
    decreases |s|
  {
    if |s| == 0 then ""
    else if IsSafeChar(s[0]) then [s[0]] + CollapseFrom(s[1..], false)
    else if inRun then CollapseFrom(s[1..], true)
    else "_" + CollapseFrom(s[1..], true)
  }

  /** `re.sub(r"[^a-zA-Z0-9._-]+", "_", s)`: each maximal run of disallowed
      characters becomes a single `_`. The name that results holds only
      allowed characters, is no longer than the input, and is empty only
      when the input is. */
  function Sanitize(s: string): (r: string)
    ensures AllSafe(r)
    ensures |r| <= |s|
    ensures r == [] <==> s == []
  {
    CollapseFrom(s, false)
  }

  /** The name the agent derives for a site (line 181 of the agent). */
  function SafeSiteName(site: string): (r: string)
    ensures AllSafe(r)
  {
    Sanitize(StripSlashes(site))
  }

  /** Whether the scan is inside a run of disallowed characters after reading `a`. */
  function EndsInRun(a: string, inRun: bool): bool {
    if |a| == 0 then inRun else !IsSafeChar(a[|a| - 1])
  }

  lemma {:induction false} CollapseAppend(a: string, b: string, inRun: bool)
    ensures CollapseFrom(a + b, inRun) == CollapseFrom(a, inRun) + CollapseFrom(b, EndsInRun(a, inRun))
    decreases |a|
  {
    if |a| == 0 {
      assert a + b == b;
    } else {
      var s := a + b;
      assert s[0] == a[0] && s[1..] == a[1..] + b;
      var next := !IsSafeChar(a[0]);
      CollapseAppend(a[1..], b, next);
      assert EndsInRun(a[1..], next) == EndsInRun(a, inRun);
    }
  }

  lemma {:induction false} CollapseSafe(s: string, inRun: bool)
    requires AllSafe(s)
    ensures CollapseFrom(s, inRun) == s
    decreases |s|
  {
    if |s| > 0 {
      CollapseSafe(s[1..], false);
      assert [s[0]] + s[1..] == s;
    }
  }

  /** A name that is already safe is left as it is. */
  lemma SanitizeSafe(s: string)
    requires AllSafe(s)
    ensures Sanitize(s) == s
  {
    CollapseSafe(s, false);
  }

  /** Every allowed character stays in its place: what lies before it and what
      lies after it are sanitised independently. */
  lemma SanitizeKeepsSafeChar(before: string, c: char, after: string)
    requires IsSafeChar(c)
    ensures Sanitize(before + [c] + after) == Sanitize(before) + [c] + Sanitize(after)
  {
    CollapseAppend(before, [c] + after, false);
    assert before + [c] + after == before + ([c] + after);
    var r := EndsInRun(before, false);
    assert ([c] + after)[1..] == after;
    assert CollapseFrom([c] + after, r) == [c] + CollapseFrom(after, false);
  }

  lemma {:induction false} CollapseRunInside(run: string)
    requires forall k :: 0 <= k < |run| ==> !IsSafeChar(run[k])
    ensures CollapseFrom(run, true) == ""
    decreases |run|
  {
    if |run| > 0 {
      CollapseRunInside(run[1..]);
    }
  }

  /** A whole run of disallowed characters, however long, becomes exactly one `_`. */
  lemma SanitizeRun(run: string)
    requires |run| > 0
    requires forall k :: 0 <= k < |run| ==> !IsSafeChar(run[k])
    ensures Sanitize(run) == "_"
  {
    CollapseRunInside(run[1..]);
  }

  /** Sanitising twice is sanitising once. */
  lemma SanitizeIdempotent(s: string)
    ensures Sanitize(Sanitize(s)) == Sanitize(s)
  {
    SanitizeSafe(Sanitize(s));
  }

  /** Deriving the folder name from a folder name changes nothing: it holds no
      slash to strip and no disallowed character to replace. */
  lemma SafeSiteNameIdempotent(site: string)
    ensures SafeSiteName(SafeSiteName(site)) == SafeSiteName(site)
  {
    var once := SafeSiteName(site);
    assert once == [] || (once[0] != '/' && once[|once| - 1] != '/') by {
      if once != [] {
        assert IsSafeChar(once[0]) && IsSafeChar(once[|once| - 1]);
      }
    }
    StripSlashesAround("", once, "");
    assert "" + once + "" == once;
    SanitizeSafe(once);
  }
}
