# SharePoint audit agent: the orchestrator's own logic

The SharePoint audit agent runs an audit one site at a time:
- it grants itself access to the site through the admin centre;
- it runs a PowerShell scanning script, which writes a JSON document of metrics;
- it turns those metrics into a risk report in Markdown and HTML.

This project models the parts of the orchestrator `audit_agent.py` that compute something themselves, and proves properties of them:

- **`analyze`** (module `Report`):
  - It reads the metrics, falling back to 0 or `False` when a metric is missing.
  - It applies the six threshold rules in a fixed order, each with a fixed level.
  - It lays out the Markdown lines: summary, Risk Ratings, recommendations.
  - It joins the lines with newlines and wraps the result in an HTML page. When the `markdown` package is missing, the page holds the escaped Markdown inside `<pre>`.
  - `CollectFindings` keeps the six `if`s of the source. It is proved equal to a table-driven specification (`ExpectedFindings`), and the properties are proved about that specification.
  - The Risk Ratings loop is a `for` loop with its invariant.
- **`derive_admin_url`** (module `AdminUrl`): it matches `https://<tenant>.sharepoint.com/` at the start of a site URL and returns `https://<tenant>-admin.sharepoint.com`, or fails with `Unsupported SharePoint URL: …`.
- **The site folder name** (module `SiteFolder`):
  - It strips the slashes around the URL.
  - It replaces each maximal run of characters outside `[a-zA-Z0-9._-]` with one `_`.
- **Writing text into PowerShell** (module `PowerShellQuoting`):
  - The certificate password goes inside a single-quoted literal, with its apostrophes doubled.
  - The internal domains are written as single-quoted words.
  - The partner of both is a reader for PowerShell's single-quoted string literal (PowerShell Language Specification 3.0, section 2.3.5.2). Inside the literal, a doubled quote character stands for one, and a lone one closes the literal. PowerShell counts five characters as single quotes: U+0027, U+2018, U+2019, U+201A and U+201B.
- **Shared pieces**:
  - Module `Strings`: Python's `str.join`, `str.split`, `str.replace` and `str(int)`, with their inverses.
  - Module `Results`: the `Option` and `Result` types.

## Model

| member | source | states |
|---|---|---|
| Report.CountsOf | sharepoint-audit-agent/agent/python/audit_agent.py:94-102 | A missing `metrics` object gives all-zero counts and false flags. Otherwise each count is its metric when present and 0 when missing. Each flag holds exactly when its metric is present and true. |
| Report.Fires | sharepoint-audit-agent/agent/python/audit_agent.py:104-115 | A site where nothing was found, which is also what a document without `metrics` reads as, fires no rule unless the unique-items bound is negative or the external-identities bound is at most 0. With every flag off, only the unique-items and external-identities rules can fire. FindingConditions and FindingReportedIff state each rule's condition exactly. |
| Report.RuleFinding | sharepoint-audit-agent/agent/python/audit_agent.py:104-115 | The message of each counted rule is its fixed prefix and then a number that reads back as the count the rule tested. MessageInitial and RuleFindingInjective show that no two rules share a finding. FindingConditions gives each rule's level and message. |
| Report.CollectFindings | sharepoint-audit-agent/agent/python/audit_agent.py:103-115 | The six `if`s append exactly the expected findings, in table order. |
| Report.ExpectedFindingsBySteps | sharepoint-audit-agent/agent/python/audit_agent.py:103-115 | The table-driven list of findings equals the six per-rule contributions appended in the source's order. |
| Report.FiredFromMembers | sharepoint-audit-agent/agent/python/audit_agent.py:103-115 | A rule is among the fired rules exactly when it comes at or after the starting position and its condition holds. |
| Report.FiredFromOrdered | sharepoint-audit-agent/agent/python/audit_agent.py:103-115 | Fired rules come strictly in table order. |
| Report.RuleFindingInjective | sharepoint-audit-agent/agent/python/audit_agent.py:103-115 | Two different rules never report the same finding. |
| Report.FindingReportedIff | sharepoint-audit-agent/agent/python/audit_agent.py:103-115 | A rule's finding is in the report if and only if the rule fires. |
| Report.FindingConditions | sharepoint-audit-agent/agent/python/audit_agent.py:104-115 | For each of the six rules, the finding with its level and message is reported if and only if its condition holds. The four flag-gated rules need their flag and a true or non-zero count. The unique-items bound is strict. The external-identities bound is not strict. |
| Report.FindingsOrdered | sharepoint-audit-agent/agent/python/audit_agent.py:103-115 | There is one finding per fired rule, in table order, at most six of them, with no duplicates. A more severe finding never follows a less severe one. |
| Report.DefaultThresholdBounds | sharepoint-audit-agent/agent/python/audit_agent.py:84-88 | Under the default thresholds, the unique-items finding needs at least 251 items. The external-identities finding needs at least 10 identities. Every other finding appears exactly when its count is non-zero or its flag is true. |
| Report.HeaderLines | sharepoint-audit-agent/agent/python/audit_agent.py:117-128 | There are 15 opening lines. The title comes first, the `## Risk Ratings` heading is at index 13 and a blank line at index 14. SummaryShowsCounts covers the six summary lines. |
| Report.SummaryShowsCounts | sharepoint-audit-agent/agent/python/audit_agent.py:121-126 | Each of the four count lines shows its count as a number that reads back as that count. Each of the two flag lines shows `True` exactly when its flag is set. |
| Report.AppendRiskRatings | sharepoint-audit-agent/agent/python/audit_agent.py:129-132 | The loop appends one line `- **<level>** — <message>` per finding, in order. With no findings it appends the single no-risks line. |
| Report.RiskRatingsLayout | sharepoint-audit-agent/agent/python/audit_agent.py:117-138 | The report lines hold the `## Risk Ratings` heading and a blank line. Then comes a section ended by the blank line that opens the footer. That section holds the no-risks line alone when nothing fired. Otherwise it holds exactly one line per finding, in order, each made of that finding's level and message. |
| Report.Analyze | sharepoint-audit-agent/agent/python/audit_agent.py:92-146 | The Markdown is the report lines joined by newlines, for the counts read from the document and the findings the table yields. The HTML is the page around the library's rendering, or around the escaped fallback. In the fallback, the text inside `<pre>` holds no raw `<` and unescapes to the Markdown. |
| Report.RenderPage | sharepoint-audit-agent/agent/python/audit_agent.py:140-145 | Without the library, the page is the fixed head, `<pre>`, a text with no raw `<`, `</pre>` and the fixed tail. That text unescapes to the Markdown exactly. With the library, its rendering is the page body. |
| Report.HtmlPage | sharepoint-audit-agent/agent/python/audit_agent.py:145 | The body can be cut back out of the page: the fixed head comes before it and the fixed tail after it. |
| Report.FallbackBody | sharepoint-audit-agent/agent/python/audit_agent.py:144 | The fallback body is `<pre>`, then a text with no raw `<`, then `</pre>`. That text unescapes to the Markdown. |
| Report.EscapeHtml | sharepoint-audit-agent/agent/python/audit_agent.py:144 | The escaped Markdown contains no raw `<`. |
| Report.EscapeHtmlRoundTrip | sharepoint-audit-agent/agent/python/audit_agent.py:144 | Replacing `&lt;` and then `&amp;` in the escaped Markdown recovers the Markdown exactly. |
| AdminUrl.DeriveAdminUrl | sharepoint-audit-agent/agent/python/audit_agent.py:40-45 | A failure carries the message `Unsupported SharePoint URL: ` followed by the input. |
| AdminUrl.DeriveAdminUrlAccepts | sharepoint-audit-agent/agent/python/audit_agent.py:40-45 | Every `https://<tenant>.sharepoint.com/<anything>` with a non-empty `[a-zA-Z0-9-]` tenant gives `https://<tenant>-admin.sharepoint.com`. |
| AdminUrl.DeriveAdminUrlSound | sharepoint-audit-agent/agent/python/audit_agent.py:40-45 | Every success comes from an input of that form. The admin URL is rebuilt from that input's tenant label. |
| AdminUrl.DeriveAdminUrlNeedsSlash | sharepoint-audit-agent/agent/python/audit_agent.py:42-43 | The host without its trailing slash is rejected. |
| AdminUrl.DeriveAdminUrlNeedsScheme | sharepoint-audit-agent/agent/python/audit_agent.py:42-43 | A URL that does not start with `https://` is rejected with the message. |
| SiteFolder.StripSlashes | sharepoint-audit-agent/agent/python/audit_agent.py:181 | The result neither starts nor ends with `/`. It is empty exactly when the input is all slashes. |
| SiteFolder.StripSlashesAround | sharepoint-audit-agent/agent/python/audit_agent.py:181 | Stripping a core wrapped in runs of slashes gives the core back, when the core neither starts nor ends with a slash. |
| SiteFolder.SafeSiteName | sharepoint-audit-agent/agent/python/audit_agent.py:181 | The folder name holds only `[a-zA-Z0-9._-]`. |
| SiteFolder.Sanitize | sharepoint-audit-agent/agent/python/audit_agent.py:181 | The substitution's result holds only allowed characters. It is no longer than its input, and empty only when the input is. SanitizeKeepsSafeChar, SanitizeRun and SanitizeSafe pin down the rest. |
| SiteFolder.SanitizeKeepsSafeChar | sharepoint-audit-agent/agent/python/audit_agent.py:181 | An allowed character stays in place. The text before it and the text after it are sanitised independently. |
| SiteFolder.SanitizeRun | sharepoint-audit-agent/agent/python/audit_agent.py:181 | A whole run of disallowed characters, of any length, becomes exactly one `_`. |
| SiteFolder.SanitizeSafe | sharepoint-audit-agent/agent/python/audit_agent.py:181 | A name made only of allowed characters is left unchanged. |
| SiteFolder.SanitizeIdempotent | sharepoint-audit-agent/agent/python/audit_agent.py:181 | Sanitising twice is the same as sanitising once. |
| SiteFolder.SafeSiteNameIdempotent | sharepoint-audit-agent/agent/python/audit_agent.py:181 | Deriving a folder name from a folder name changes nothing. |
| PowerShellQuoting.DoubleQuotes | sharepoint-audit-agent/agent/python/audit_agent.py:71 | A password without apostrophes is written unchanged. The same escape is used at line 50. UndoubleDoubleQuotes, DoubleQuotesReadBack and TypographicQuoteEndsLiteral state what the escape does and does not achieve. |
| PowerShellQuoting.UndoubleDoubleQuotes | sharepoint-audit-agent/agent/python/audit_agent.py:71 | Replacing every `''` with `'` in the escaped password recovers the password. |
| PowerShellQuoting.DoubleQuotesReadBack | sharepoint-audit-agent/agent/python/audit_agent.py:50 | When the password's only quote character is the apostrophe, PowerShell reads it back exactly from the written literal. The literal also ends where the agent closes it. |
| PowerShellQuoting.TypographicQuoteEndsLiteral | sharepoint-audit-agent/agent/python/audit_agent.py:71 | The password `’ x` is left unescaped, and PowerShell's literal ends at its first character. |
| PowerShellQuoting.EscapeSingleQuotedReadBack | sharepoint-audit-agent/agent/python/audit_agent.py:71 | When every PowerShell quote character is doubled, any password reads back exactly. |
| PowerShellQuoting.RenderDomains | sharepoint-audit-agent/agent/python/audit_agent.py:70 | The argument is empty exactly when there are no domains. Otherwise it starts and ends with a single quote. RenderDomainsReadBack and RenderDomainsInjective state how the domains read back. |
| PowerShellQuoting.RenderDomainsReadBack | sharepoint-audit-agent/agent/python/audit_agent.py:70 | Reading the rendered argument as space-separated single-quoted words gives back the domains, in order. An empty list renders as the empty string. |
| PowerShellQuoting.RenderDomainsInjective | sharepoint-audit-agent/agent/python/audit_agent.py:70 | Different lists of quote-free domains render differently. |
| Strings.IntToDecimalRoundTrip | sharepoint-audit-agent/agent/python/audit_agent.py:107-113 | Parsing a rendered count gives back the count, negative ones included. |
| Strings.SplitJoin | sharepoint-audit-agent/agent/python/audit_agent.py:139 | Splitting joined lines at the newline gives back the lines, when none of them contains a newline. |

## Left out

- Reading the JSON file: `analyze` takes the already-parsed document. A `metrics` key whose value is `null` is not modelled; the source would fail on it. Metric values other than integers and booleans are not modelled either.
- The clock reading in the `_Generated:` line is a parameter.
- The `markdown` package's rendering is a parameter: its output, or None when it cannot be imported or fails.
- `analyze`'s third argument, `internal_domains_supplied`, is unused by the source, so it is not a parameter here.
- The scanning engine is not part of this model. It is a PowerShell script passed to the agent and run as a subprocess.
- The rest of the PowerShell script templates is not modelled: the interpolation of URLs, tenant, app id and paths, and `textwrap.dedent`. Neither are the subprocess calls (`run`, `which_prog`), the run directories (`RunContext`, `ts`), argument parsing, CSV reading and the per-site loop of `main`.
- Report.RiskRatingsLayout: the layout is stated on the list of lines that `analyze` joins, not on the joined text. Strings.SplitJoin recovers the list from the text when no line holds a newline. That the fixed literal lines hold none is not proved.
- PowerShellQuoting.RenderDomainsReadBack: it requires domains without quote characters, because the source writes domains into the argument without escaping them.
- How PowerShell binds the rendered domains to the `-InternalDomains` parameter is not modelled. PowerShellQuoting.ReadQuotedWords reads the argument as space-separated single-quoted words. PowerShell binds a named array parameter to one argument unless the values are joined by commas, and the empty list leaves `-InternalDomains` with no value.
- The HTML page is modelled as the same fixed text around the body, with `CSS` copied verbatim. No HTML parsing is modelled.

## Findings

| source | as written | input that shows it | evidently intended | confidence | as-written member | corrected member |
|---|---|---|---|---|---|---|
| sharepoint-audit-agent/agent/python/audit_agent.py:71 | The password is escaped for a PowerShell single-quoted literal by doubling only the ASCII apostrophe. PowerShell also treats U+2018, U+2019, U+201A and U+201B as single quotes. The same happens at line 50. | the password `’ x`, which begins with U+2019: the literal closes after its first character and ` x` is read as script | every PowerShell single-quote character doubled, so that any password reads back unchanged | medium, not executed | PowerShellQuoting.TypographicQuoteEndsLiteral | PowerShellQuoting.EscapeSingleQuotedReadBack |
