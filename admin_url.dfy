/** The SharePoint admin-centre URL that the agent derives from a site URL
    before it grants itself access to the site. */
module AdminUrl {
  import opened Results
  import opened Strings

  const Scheme := "https://"
  /** What must follow the tenant label in a site URL, slash included. */
  const SiteHostSuffix := ".sharepoint.com/"
  /** What follows the tenant label in the admin URL. */
  const AdminHostSuffix := "-admin.sharepoint.com"
  const UnsupportedPrefix := "Unsupported SharePoint URL: "

  /** The characters `[a-zA-Z0-9-]` of the tenant label. */
  predicate IsTenantChar(c: char) {
    'a' <= c <= 'z' || 'A' <= c <= 'Z' || '0' <= c <= '9' || c == '-'
  }

  predicate IsTenant(t: string) {
    |t| > 0 && forall k :: 0 <= k < |t| ==> IsTenantChar(t[k])
  }

  /** `derive_admin_url`: matches `https://([a-zA-Z0-9-]+)\.sharepoint\.com/`
      at the start of the URL and rebuilds `https://<tenant>-admin.sharepoint.com`;
      anything else raises `ValueError`. The greedy group takes the longest run
      of tenant characters, and since `.` is not one of them the match needs
      that run to be followed by `.sharepoint.com/`. */
  function DeriveAdminUrl(siteUrl: string): (r: Result<string, string>)
    ensures r.Failure? ==> r.error == UnsupportedPrefix + siteUrl
  {
    if !(Scheme <= siteUrl) then Failure(UnsupportedPrefix + siteUrl)
    else
      var n := SpanWhile(siteUrl, |Scheme|, IsTenantChar);
      if n > 0 && SiteHostSuffix <= siteUrl[|Scheme| + n..] then
        Success(Scheme + siteUrl[|Scheme|..|Scheme| + n] + AdminHostSuffix)
      else
        Failure(UnsupportedPrefix + siteUrl)
  }

  /** After the scheme, the run of tenant characters is exactly the tenant
      label when a dot follows it. */
  lemma TenantSpan(tenant: string, after: string)
    requires IsTenant(tenant)
    requires |after| > 0 && after[0] == '.'
    ensures var s := Scheme + tenant + after;
      && SpanWhile(s, |Scheme|, IsTenantChar) == |tenant|
      && s[|Scheme|..|Scheme| + |tenant|] == tenant
      && s[|Scheme| + |tenant|..] == after
  {
    var s := Scheme + tenant + after;
    var start := |Scheme|;
    forall k | start <= k < start + |tenant| ensures IsTenantChar(s[k]) {
      assert s[k] == tenant[k - start];
    }
    assert s[start + |tenant|] == after[0];
    SpanWhileIs(s, start, |tenant|, IsTenantChar);
    assert s[start..start + |tenant|] == tenant;
    assert s[start + |tenant|..] == after;
  }

  /** Every URL of the form `https://<tenant>.sharepoint.com/<anything>` is
      accepted, and only the tenant label carries over into the admin URL. */
  lemma DeriveAdminUrlAccepts(tenant: string, rest: string)
    requires IsTenant(tenant)
    ensures DeriveAdminUrl(Scheme + tenant + SiteHostSuffix + rest) == Success(Scheme + tenant + AdminHostSuffix)
  {
    var after := SiteHostSuffix + rest;
    assert Scheme + tenant + SiteHostSuffix + rest == Scheme + tenant + after;
    TenantSpan(tenant, after);
    assert SiteHostSuffix <= after;
  }

  /** Whatever is accepted has that form: the URL starts with `https://`, a
      tenant label and `.sharepoint.com/`, and the admin URL is built from that label. */
  lemma DeriveAdminUrlSound(siteUrl: string)
    requires DeriveAdminUrl(siteUrl).Success?
    ensures var u := DeriveAdminUrl(siteUrl).value;
            |u| > |Scheme| + |AdminHostSuffix| &&
            var tenant := u[|Scheme|..|u| - |AdminHostSuffix|];
            IsTenant(tenant) &&
            Scheme + tenant + SiteHostSuffix <= siteUrl &&
            u == Scheme + tenant + AdminHostSuffix
  {
    var start := |Scheme|;
    var n := SpanWhile(siteUrl, start, IsTenantChar);
    var tenant := siteUrl[start..start + n];
    var u := DeriveAdminUrl(siteUrl).value;
    assert u == Scheme + tenant + AdminHostSuffix;
    assert u[start..|u| - |AdminHostSuffix|] == tenant;
    assert siteUrl[..start] == Scheme;
    assert siteUrl[start + n..][..|SiteHostSuffix|] == SiteHostSuffix;
    assert siteUrl[..start + n + |SiteHostSuffix|] == Scheme + tenant + SiteHostSuffix;
  }

  /** The host without its trailing slash is refused. A worked instance of
      DeriveAdminUrlSound, whose success case needs `.sharepoint.com/`. */
  lemma DeriveAdminUrlNeedsSlash(tenant: string)
    requires IsTenant(tenant)
    ensures DeriveAdminUrl(Scheme + tenant + ".sharepoint.com").Failure?
  {
    var s := Scheme + tenant + ".sharepoint.com";
    var start := |Scheme|;
    forall k | 0 <= k < |tenant| ensures s[start + k] == tenant[k] { }
    assert s[start + |tenant|] == '.';
  }

  /** The scheme is matched case-sensitively and must come first. A worked
      instance of the first branch of DeriveAdminUrl, kept for the message it
      carries. */
  lemma DeriveAdminUrlNeedsScheme(siteUrl: string)
    requires !(Scheme <= siteUrl)
    ensures DeriveAdminUrl(siteUrl) == Failure(UnsupportedPrefix + siteUrl)
  {
  }
}
