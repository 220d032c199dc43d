/** `analyze`: reads the metrics the scanning script wrote, applies the risk
    thresholds in a fixed order, and lays out the Markdown report and its HTML
    page. */
module Report {
  import opened Results
  import opened Strings

  /** The `metrics` object of the scanner's JSON; a key that is missing or
      `null` is None. */
  datatype Metrics = Metrics(
    itemsWithUniquePermissions: Option<int>,
    externalUsers: Option<int>,
    webDirectAssignments: Option<int>,
    orphanedGroups: Option<int>,
    anyoneOrEveryoneAtWeb: Option<bool>,
    externalOwnerPresent: Option<bool>)

  /** The scanner's JSON document, of which `analyze` reads the `metrics` key only. */
  datatype AuditData = AuditData(metrics: Option<Metrics>)

  /** The `counts` dictionary of `analyze`. */
  datatype Counts = Counts(
    uniqueItems: int,
    externalIdentities: int,
    directWebAssignments: int,
    groupsWithoutOwner: int,
    anyoneOrEveryone: bool,
    externalOwner: bool)

  /** The `thresholds` dictionary: the flags that switch rules on and the two bounds. */
  datatype Thresholds = Thresholds(
    anyoneOrEveryone: bool,
    externalOwner: bool,
    directWebPerms: bool,
    uniqueItemsGt: int,
    externalItemIdentitiesGte: int,
    groupWithoutOwner: bool)

  /** `DEFAULT_THRESHOLDS`, the only thresholds the agent passes. */
  const DefaultThresholds := Thresholds(true, true, true, 250, 10, true)

  datatype Level = Critical | High | Medium

  datatype Finding = Finding(level: Level, message: string)

  /** Python's `value or default` on a number that may be missing. */
  function OrDefault(v: Option<int>, default: int): int {
    if v.Some? && v.value != 0 then v.value else default
  }

  /** Python's `bool(value)` on a boolean that may be missing. */
  function Truthy(v: Option<bool>): bool {
    v.Some? && v.value
  }

  /** Each count is the metric when it is present and 0 otherwise (the `or 0`
      makes no difference for a present 0); each flag holds only when the
      metric is present and true. A missing `metrics` key reads as `{}`. */
  function CountsOf(data: AuditData): (c: Counts)
    ensures data.metrics.None? ==> c == NothingFound
    ensures data.metrics.Some? ==>
      var m := data.metrics.value;
      && (m.itemsWithUniquePermissions.Some? ==> c.uniqueItems == m.itemsWithUniquePermissions.value)
      && (m.itemsWithUniquePermissions.None? ==> c.uniqueItems == 0)
      && (m.externalUsers.Some? ==> c.externalIdentities == m.externalUsers.value)
      && (m.externalUsers.None? ==> c.externalIdentities == 0)
      && (m.webDirectAssignments.Some? ==> c.directWebAssignments == m.webDirectAssignments.value)
      && (m.webDirectAssignments.None? ==> c.directWebAssignments == 0)
      && (m.orphanedGroups.Some? ==> c.groupsWithoutOwner == m.orphanedGroups.value)
      && (m.orphanedGroups.None? ==> c.groupsWithoutOwner == 0)
      && (c.anyoneOrEveryone <==> m.anyoneOrEveryoneAtWeb == Some(true))
      && (c.externalOwner <==> m.externalOwnerPresent == Some(true))
  {
    var m := if data.metrics.Some? then data.metrics.value else Metrics(None, None, None, None, None, None);
    Counts(
      OrDefault(m.itemsWithUniquePermissions, 0),
      OrDefault(m.externalUsers, 0),
      OrDefault(m.webDirectAssignments, 0),
      OrDefault(m.orphanedGroups, 0),
      Truthy(m.anyoneOrEveryoneAtWeb),
      Truthy(m.externalOwnerPresent))
  }

  // ---------------------------------------------------------------------------
  // The rule table

  /** The six threshold rules, one per `if` of `analyze`. */
  datatype Rule = AnyoneOrEveryone | ExternalOwner | DirectWebPerms | UniqueItems | ExternalIdentities | GroupsWithoutOwner

  /** The order in which `analyze` tests the rules. */
  const RuleOrder: seq<Rule> := [AnyoneOrEveryone, ExternalOwner, DirectWebPerms, UniqueItems, ExternalIdentities, GroupsWithoutOwner]

  function Rank(r: Rule): (k: nat)
    ensures k < |RuleOrder| && RuleOrder[k] == r
  {
    match r
    case AnyoneOrEveryone => 0
    case ExternalOwner => 1
    case DirectWebPerms => 2
    case UniqueItems => 3
    case ExternalIdentities => 4
    case GroupsWithoutOwner => 5
  }

  lemma RankOfOrder(k: nat)
    requires k < |RuleOrder|
    ensures Rank(RuleOrder[k]) == k
  {
  }

  /** The counts of a site where the scanner found nothing: what a document
      without `metrics` reads as. */
  const NothingFound := Counts(0, 0, 0, 0, false, false)

  /** When a rule fires: the four flag-gated rules need their threshold flag
      and a truthy count or flag; the unique-items bound is strict and the
      external-identities bound is not, and neither consults a flag. So a site
      where nothing was found fires no rule unless the unique-items bound is
      negative or the external-identities bound is at most 0, and with every
      flag off only the two bounds can fire. */
  predicate Fires(r: Rule, c: Counts, t: Thresholds)
    ensures c == NothingFound && Fires(r, c, t) ==>
      (r == UniqueItems && t.uniqueItemsGt < 0) || (r == ExternalIdentities && t.externalItemIdentitiesGte <= 0)
    ensures !t.anyoneOrEveryone && !t.externalOwner && !t.directWebPerms && !t.groupWithoutOwner && Fires(r, c, t) ==>
      r == UniqueItems || r == ExternalIdentities
  {
    match r
    case AnyoneOrEveryone => t.anyoneOrEveryone && c.anyoneOrEveryone
    case ExternalOwner => t.externalOwner && c.externalOwner
    case DirectWebPerms => t.directWebPerms && c.directWebAssignments != 0
    case UniqueItems => c.uniqueItems > t.uniqueItemsGt
    case ExternalIdentities => c.externalIdentities >= t.externalItemIdentitiesGte
    case GroupsWithoutOwner => t.groupWithoutOwner && c.groupsWithoutOwner != 0
  }

  // Literals longer than forty characters are written in pieces, which lets
  // the verifier see their characters.
  const AnyoneMessage := "'Anyone/Everyone' access detected " + "at web/site scope."
  const ExternalOwnerMessage := "Guest/external user with Owner " + "role detected."
  const DirectWebPrefix := "Direct user permissions at web scope: "
  const UniqueItemsPrefix := "Items with unique permissions: "
  const ExternalIdentitiesPrefix := "External identities " + "with item-level access: "
  const GroupsWithoutOwnerPrefix := "SharePoint groups without owners: "

  /** The four rules whose message ends with the count that made them fire. */
  predicate IsCounted(r: Rule) {
    r.DirectWebPerms? || r.UniqueItems? || r.ExternalIdentities? || r.GroupsWithoutOwner?
  }

  function MessagePrefix(r: Rule): string
    requires IsCounted(r)
  {
    match r
    case DirectWebPerms => DirectWebPrefix
    case UniqueItems => UniqueItemsPrefix
    case ExternalIdentities => ExternalIdentitiesPrefix
    case GroupsWithoutOwner => GroupsWithoutOwnerPrefix
  }

  /** The count a counted rule tests. */
  function RuleCount(r: Rule, c: Counts): int
    requires IsCounted(r)
  {
    match r
    case DirectWebPerms => c.directWebAssignments
    case UniqueItems => c.uniqueItems
    case ExternalIdentities => c.externalIdentities
    case GroupsWithoutOwner => c.groupsWithoutOwner
  }

  /** The finding a rule reports: its level and its message. A counted rule's
      message is its fixed prefix followed by a number that reads back as the
      count it tested. */
  function RuleFinding(r: Rule, c: Counts): (f: Finding)
    ensures IsCounted(r) ==> exists digits ::
      f.message == MessagePrefix(r) + digits && IsIntText(digits) && ParseInt(digits) == RuleCount(r, c)
  {
    match r
    case AnyoneOrEveryone => Finding(Critical, AnyoneMessage)
    case ExternalOwner => Finding(Critical, ExternalOwnerMessage)
    case DirectWebPerms =>
      IntToDecimalRoundTrip(c.directWebAssignments);
      Finding(High, DirectWebPrefix + IntToDecimal(c.directWebAssignments))
    case UniqueItems =>
      IntToDecimalRoundTrip(c.uniqueItems);
      Finding(High, UniqueItemsPrefix + IntToDecimal(c.uniqueItems))
    case ExternalIdentities =>
      IntToDecimalRoundTrip(c.externalIdentities);
      Finding(Medium, ExternalIdentitiesPrefix + IntToDecimal(c.externalIdentities))
    case GroupsWithoutOwner =>
      IntToDecimalRoundTrip(c.groupsWithoutOwner);
      Finding(Medium, GroupsWithoutOwnerPrefix + IntToDecimal(c.groupsWithoutOwner))
  }

  /** The rules from position `from` of RuleOrder on that fire, in table order. */
  function FiredFrom(from: nat, c: Counts, t: Thresholds): (fired: seq<Rule>)
    requires from <= |RuleOrder|
    ensures |fired| <= |RuleOrder| - from
    decreases |RuleOrder| - from
  {
    if from == |RuleOrder| then []
    else
      var r := RuleOrder[from];
      (if Fires(r, c, t) then [r] else []) + FiredFrom(from + 1, c, t)
  }

  /** Rules listed strictly in table order. */
  predicate InRankOrder(rs: seq<Rule>) {
    forall i, j :: 0 <= i < j < |rs| ==> Rank(rs[i]) < Rank(rs[j])
  }

  lemma ConsInRankOrder(r: Rule, rest: seq<Rule>)
    requires InRankOrder(rest)
    requires forall q :: q in rest ==> Rank(r) < Rank(q)
    ensures InRankOrder([r] + rest)
  {
    var rs := [r] + rest;
    forall i, j | 0 <= i < j < |rs| ensures Rank(rs[i]) < Rank(rs[j]) {
      assert rs[j] == rest[j - 1] && rs[j] in rest;
      if i > 0 {
        assert rs[i] == rest[i - 1];
      }
    }
  }

  /** A rule is among those fired from `from` on exactly when it comes at or
      after `from` and fires. */
  lemma {:induction false} FiredFromMembers(from: nat, c: Counts, t: Thresholds)
    requires from <= |RuleOrder|
    ensures forall r :: r in FiredFrom(from, c, t) <==> Rank(r) >= from && Fires(r, c, t)
    decreases |RuleOrder| - from
  {
    if from < |RuleOrder| {
      FiredFromMembers(from + 1, c, t);
      var r := RuleOrder[from];
      RankOfOrder(from);
      forall q ensures q in FiredFrom(from, c, t) <==> Rank(q) >= from && Fires(q, c, t) {
        if Rank(q) == from { assert q == r; }
      }
    }
  }

  /** The rules fired from `from` on come in table order. */
  lemma {:induction false} FiredFromOrdered(from: nat, c: Counts, t: Thresholds)
    requires from <= |RuleOrder|
    ensures InRankOrder(FiredFrom(from, c, t))
    decreases |RuleOrder| - from
  {
    if from < |RuleOrder| {
      FiredFromOrdered(from + 1, c, t);
      var r := RuleOrder[from];
      var rest := FiredFrom(from + 1, c, t);
      if Fires(r, c, t) {
        assert forall q :: q in rest ==> Rank(r) < Rank(q) by {
          FiredFromMembers(from + 1, c, t);
          RankOfOrder(from);
        }
        ConsInRankOrder(r, rest);
        assert FiredFrom(from, c, t) == [r] + rest;
      } else {
        assert FiredFrom(from, c, t) == rest;
      }
    }
  }

  function FiredRules(c: Counts, t: Thresholds): seq<Rule> {
    FiredFrom(0, c, t)
  }

  function FindingsFor(rs: seq<Rule>, c: Counts): seq<Finding> {
    seq(|rs|, i requires 0 <= i < |rs| => RuleFinding(rs[i], c))
  }

  /** The findings `analyze` is to report: one per fired rule, in table order. */
  function ExpectedFindings(c: Counts, t: Thresholds): seq<Finding> {
    FindingsFor(FiredRules(c, t), c)
  }

  function Severity(l: Level): nat {
    match l
    case Critical => 0
    case High => 1
    case Medium => 2
  }

  /** The first character of each rule's message. */
  function Initial(r: Rule): char {
    match r
    case AnyoneOrEveryone => '\''
    case ExternalOwner => 'G'
    case DirectWebPerms => 'D'
    case UniqueItems => 'I'
    case ExternalIdentities => 'E'
    case GroupsWithoutOwner => 'S'
  }

  lemma MessageInitial(r: Rule, c: Counts)
    ensures |RuleFinding(r, c).message| > 0 && RuleFinding(r, c).message[0] == Initial(r)
  {
    match r
    case AnyoneOrEveryone =>
      assert AnyoneMessage[0] == '\'';
    case ExternalOwner =>
      assert ExternalOwnerMessage[0] == 'G';
    case DirectWebPerms =>
      assert (DirectWebPrefix + IntToDecimal(c.directWebAssignments))[0] == DirectWebPrefix[0] == 'D';
    case UniqueItems =>
      assert (UniqueItemsPrefix + IntToDecimal(c.uniqueItems))[0] == UniqueItemsPrefix[0] == 'I';
    case ExternalIdentities =>
      assert (ExternalIdentitiesPrefix + IntToDecimal(c.externalIdentities))[0] == ExternalIdentitiesPrefix[0] == 'E';
    case GroupsWithoutOwner =>
      assert (GroupsWithoutOwnerPrefix + IntToDecimal(c.groupsWithoutOwner))[0] == GroupsWithoutOwnerPrefix[0] == 'S';
  }

  /** Different rules never report the same finding. */
  lemma RuleFindingInjective(r1: Rule, r2: Rule, c: Counts)
    requires RuleFinding(r1, c) == RuleFinding(r2, c)
    ensures r1 == r2
  {
    MessageInitial(r1, c);
    MessageInitial(r2, c);
  }

  /** A rule's finding is reported exactly when the rule fires. */
  lemma FindingReportedIff(r: Rule, c: Counts, t: Thresholds)
    ensures RuleFinding(r, c) in ExpectedFindings(c, t) <==> Fires(r, c, t)
  {
    var rs := FiredRules(c, t);
    var fs := ExpectedFindings(c, t);
    FiredFromMembers(0, c, t);
    if RuleFinding(r, c) in fs {
      var i :| 0 <= i < |fs| && fs[i] == RuleFinding(r, c);
      RuleFindingInjective(rs[i], r, c);
    }
    if Fires(r, c, t) {
      assert r in rs;
      var i :| 0 <= i < |rs| && rs[i] == r;
      assert fs[i] == RuleFinding(r, c);
    }
  }

  /** The six `if`s of `analyze`, rule by rule: each finding with its level,
      reported if and only if its condition holds. */
  lemma FindingConditions(c: Counts, t: Thresholds)
    ensures var fs := ExpectedFindings(c, t);
      && (Finding(Critical, AnyoneMessage) in fs <==> t.anyoneOrEveryone && c.anyoneOrEveryone)
      && (Finding(Critical, ExternalOwnerMessage) in fs <==> t.externalOwner && c.externalOwner)
      && ((Finding(High, DirectWebPrefix + IntToDecimal(c.directWebAssignments)) in fs)
          <==> t.directWebPerms && c.directWebAssignments != 0)
      && ((Finding(High, UniqueItemsPrefix + IntToDecimal(c.uniqueItems)) in fs)
          <==> c.uniqueItems > t.uniqueItemsGt)
      && ((Finding(Medium, ExternalIdentitiesPrefix + IntToDecimal(c.externalIdentities)) in fs)
          <==> c.externalIdentities >= t.externalItemIdentitiesGte)
      && ((Finding(Medium, GroupsWithoutOwnerPrefix + IntToDecimal(c.groupsWithoutOwner)) in fs)
          <==> t.groupWithoutOwner && c.groupsWithoutOwner != 0)
  {
    FindingReportedIff(AnyoneOrEveryone, c, t);
    FindingReportedIff(ExternalOwner, c, t);
    FindingReportedIff(DirectWebPerms, c, t);
    FindingReportedIff(UniqueItems, c, t);
    FindingReportedIff(ExternalIdentities, c, t);
    FindingReportedIff(GroupsWithoutOwner, c, t);
  }

  /** Findings come in table order, each at most once, so at most six of them,
      and never a more severe one after a less severe one. */
  lemma FindingsOrdered(c: Counts, t: Thresholds)
    ensures var rs := FiredRules(c, t);
            var fs := ExpectedFindings(c, t);
      && |fs| == |rs| <= 6
      && (forall i :: 0 <= i < |fs| ==> fs[i] == RuleFinding(rs[i], c))
      && (forall i, j :: 0 <= i < j < |rs| ==> Rank(rs[i]) < Rank(rs[j]))
      && (forall i, j :: 0 <= i < j < |fs| ==> fs[i] != fs[j])
      && (forall i, j :: 0 <= i < j < |fs| ==> Severity(fs[i].level) <= Severity(fs[j].level))
  {
    var rs := FiredRules(c, t);
    var fs := ExpectedFindings(c, t);
    FiredFromMembers(0, c, t);
    FiredFromOrdered(0, c, t);
    forall i, j | 0 <= i < j < |fs|
      ensures fs[i] != fs[j] && Severity(fs[i].level) <= Severity(fs[j].level)
    {
      assert Rank(rs[i]) < Rank(rs[j]);
      assert fs[i] == RuleFinding(rs[i], c) && fs[j] == RuleFinding(rs[j], c);
      SeverityFollowsRank(rs[i], rs[j], c);
      if fs[i] == fs[j] {
        RuleFindingInjective(rs[i], rs[j], c);
      }
    }
  }

  lemma SeverityFollowsRank(r1: Rule, r2: Rule, c: Counts)
    requires Rank(r1) < Rank(r2)
    ensures Severity(RuleFinding(r1, c).level) <= Severity(RuleFinding(r2, c).level)
  {
  }

  /** With the default thresholds: more than 250 items with unique permissions
      are needed (250 is not enough), and 10 external identities are enough. */
  lemma DefaultThresholdBounds(c: Counts)
    ensures var fs := ExpectedFindings(c, DefaultThresholds);
      && (RuleFinding(UniqueItems, c) in fs <==> c.uniqueItems >= 251)
      && (RuleFinding(ExternalIdentities, c) in fs <==> c.externalIdentities >= 10)
      && (RuleFinding(DirectWebPerms, c) in fs <==> c.directWebAssignments != 0)
      && (RuleFinding(GroupsWithoutOwner, c) in fs <==> c.groupsWithoutOwner != 0)
      && (RuleFinding(AnyoneOrEveryone, c) in fs <==> c.anyoneOrEveryone)
      && (RuleFinding(ExternalOwner, c) in fs <==> c.externalOwner)
  {
    FindingReportedIff(UniqueItems, c, DefaultThresholds);
    FindingReportedIff(ExternalIdentities, c, DefaultThresholds);
    FindingReportedIff(DirectWebPerms, c, DefaultThresholds);
    FindingReportedIff(GroupsWithoutOwner, c, DefaultThresholds);
    FindingReportedIff(AnyoneOrEveryone, c, DefaultThresholds);
    FindingReportedIff(ExternalOwner, c, DefaultThresholds);
  }

  // ---------------------------------------------------------------------------
  // The Markdown report

  const Title := "# SharePoint Audit \U{2014} " + "Findings & Recommendations"
  const RiskRatingsHeading := "## Risk Ratings"
  const NoRisksLine := "- No risks met the configured " + "thresholds."

  const FooterLines: seq<string> := [
    "", "## Recommendations (PnP Snippets)", "",
    "- Review anonymous sharing " + "& site sharing settings.",
    "- Remove direct web permissions " + "where unjustified.",
    "- Reduce item-level unique permissions " + "where possible.",
    "- Ensure each SharePoint group " + "has an owner.", "", "---",
    "_PII notice: contains user emails " + "and access data. Handle per policy._"]

  /** Python's `str` of a bool. */
  function PyBool(b: bool): string {
    if b then "True" else "False"
  }

  function LevelName(l: Level): string {
    match l
    case Critical => "Critical"
    case High => "High"
    case Medium => "Medium"
  }

  /** `line` is `caption`, then a number that reads back as `n`, then `**`. */
  ghost predicate ShowsCount(line: string, caption: string, n: int) {
    exists digits :: line == caption + digits + "**" && IsIntText(digits) && ParseInt(digits) == n
  }

  lemma CountShown(caption: string, n: int)
    ensures ShowsCount(caption + IntToDecimal(n) + "**", caption, n)
  {
    IntToDecimalRoundTrip(n);
  }

  /** The report's opening lines up to the blank line under the Risk Ratings
      heading; `generated` is the time stamp the agent reads from the clock. */
  function HeaderLines(c: Counts, generated: string): (lines: seq<string>)
    ensures |lines| == 15 && lines[0] == Title
    ensures lines[13] == RiskRatingsHeading && lines[14] == ""
  {
    [ Title, "",
      "_Generated: " + generated + "_", "",
      "## Summary", "",
      "- Items with unique permissions: **" + IntToDecimal(c.uniqueItems) + "**",
      "- External identities (item-level): **" + IntToDecimal(c.externalIdentities) + "**",
      "- Direct web assignments: **" + IntToDecimal(c.directWebAssignments) + "**",
      "- Groups without owners: **" + IntToDecimal(c.groupsWithoutOwner) + "**",
      "- Anyone/Everyone at web/site: **" + PyBool(c.anyoneOrEveryone) + "**",
      "- External Owner present: **" + PyBool(c.externalOwner) + "**", "",
      RiskRatingsHeading, "" ]
  }

  /** The summary shows each of the four counts so that it reads back, and
      each of the two flags as `True` exactly when it is set. */
  lemma SummaryShowsCounts(c: Counts, generated: string)
    ensures var lines := HeaderLines(c, generated);
      && ShowsCount(lines[6], "- Items with unique permissions: **", c.uniqueItems)
      && ShowsCount(lines[7], "- External identities (item-level): **", c.externalIdentities)
      && ShowsCount(lines[8], "- Direct web assignments: **", c.directWebAssignments)
      && ShowsCount(lines[9], "- Groups without owners: **", c.groupsWithoutOwner)
      && (lines[10] == "- Anyone/Everyone at web/site: **True**" <==> c.anyoneOrEveryone)
      && (lines[11] == "- External Owner present: **True**" <==> c.externalOwner)
  {
    var lines := HeaderLines(c, generated);
    assert ShowsCount(lines[6], "- Items with unique permissions: **", c.uniqueItems) by {
      CountShown("- Items with unique permissions: **", c.uniqueItems);
    }
    assert ShowsCount(lines[7], "- External identities (item-level): **", c.externalIdentities) by {
      CountShown("- External identities (item-level): **", c.externalIdentities);
    }
    assert ShowsCount(lines[8], "- Direct web assignments: **", c.directWebAssignments) by {
      CountShown("- Direct web assignments: **", c.directWebAssignments);
    }
    assert ShowsCount(lines[9], "- Groups without owners: **", c.groupsWithoutOwner) by {
      CountShown("- Groups without owners: **", c.groupsWithoutOwner);
    }
    assert lines[10] == "- Anyone/Everyone at web/site: **True**" <==> c.anyoneOrEveryone by {
      if !c.anyoneOrEveryone {
        assert |lines[10]| == |"- Anyone/Everyone at web/site: **True**"| + 1;
      }
    }
    assert lines[11] == "- External Owner present: **True**" <==> c.externalOwner by {
      if !c.externalOwner {
        assert |lines[11]| == |"- External Owner present: **True**"| + 1;
      }
    }
  }

  function FindingLine(f: Finding): string {
    "- **" + LevelName(f.level) + "** \U{2014} " + f.message
  }

  function FindingLines(fs: seq<Finding>): seq<string> {
    seq(|fs|, i requires 0 <= i < |fs| => FindingLine(fs[i]))
  }

  lemma FindingLinesSnoc(fs: seq<Finding>, f: Finding)
    ensures FindingLines(fs + [f]) == FindingLines(fs) + [FindingLine(f)]
  {
    var l, r := FindingLines(fs + [f]), FindingLines(fs) + [FindingLine(f)];
    assert |l| == |r|;
    forall i | 0 <= i < |l| ensures l[i] == r[i] {
      if i < |fs| { assert (fs + [f])[i] == fs[i]; }
    }
  }

  function RiskRatingLines(fs: seq<Finding>): seq<string> {
    if |fs| == 0 then [NoRisksLine] else FindingLines(fs)
  }

  function ReportLines(c: Counts, fs: seq<Finding>, generated: string): seq<string> {
    HeaderLines(c, generated) + RiskRatingLines(fs) + FooterLines
  }

  /** `"\n".join(lines)`. */
  function Markdown(c: Counts, fs: seq<Finding>, generated: string): string {
    Join(ReportLines(c, fs, generated), '\n')
  }

  /** The lines of a section: from `from` up to the next blank line. */
  function SectionFrom(lines: seq<string>, from: nat): seq<string>
    requires from <= |lines|
    decreases |lines| - from
  {
    if from == |lines| || lines[from] == "" then [] else [lines[from]] + SectionFrom(lines, from + 1)
  }

  /** A section read back from the lines runs up to the first blank line. */
  lemma {:induction false} SectionFromStops(lines: seq<string>, from: nat, k: nat)
    requires from + k < |lines| && lines[from + k] == ""
    requires forall j :: from <= j < from + k ==> lines[j] != ""
    ensures SectionFrom(lines, from) == lines[from..from + k]
    decreases k
  {
    if k > 0 {
      SectionFromStops(lines, from + 1, k - 1);
      assert lines[from..from + k] == [lines[from]] + lines[from + 1..from + k];
    }
  }

  /** In the report's lines, the Risk Ratings heading is followed by a blank
      line and then a section, ended by the blank line that opens the
      footer, that holds the no-risks line alone when nothing fired and
      otherwise one line per finding, in order. */
  lemma RiskRatingsLayout(c: Counts, fs: seq<Finding>, generated: string)
    ensures var lines := ReportLines(c, fs, generated);
      && |lines| > 15 && lines[13] == RiskRatingsHeading && lines[14] == ""
      && (|fs| == 0 ==> SectionFrom(lines, 15) == [NoRisksLine])
      && (|fs| > 0 ==> |SectionFrom(lines, 15)| == |fs|)
      && (forall i :: 0 <= i < |fs| ==>
            SectionFrom(lines, 15)[i] == "- **" + LevelName(fs[i].level) + "** \U{2014} " + fs[i].message)
  {
    var lines := ReportLines(c, fs, generated);
    var header := HeaderLines(c, generated);
    var rr := RiskRatingLines(fs);
    assert lines == header + rr + FooterLines;
    forall j | 15 <= j < 15 + |rr| ensures lines[j] != "" {
      assert lines[j] == rr[j - 15];
      if |fs| > 0 {
        assert |rr[j - 15]| >= 4;
      }
    }
    assert lines[15 + |rr|] == FooterLines[0] == "";
    SectionFromStops(lines, 15, |rr|);
    assert lines[15..15 + |rr|] == rr;
  }

  // ---------------------------------------------------------------------------
  // The HTML page

  const Css := "body{font-family:system-ui,Segoe UI,Roboto,Helvetica,Arial,sans-serif;max-width:960px;margin:2rem auto;padding:0 1rem} h1{font-size:1.8rem} h2{font-size:1.3rem;margin-top:2rem} code,pre{background:#f6f8fa;border:1px solid #eaecef;border-radius:6px;padding:.2rem .4rem}"

  const PageHead := "<!doctype html><html><head><meta charset='utf-8'><title>SharePoint Audit</title><style>"
    + Css + "</style></head><body>"
  const PageTail := "</body></html>"

  /** The page around a body: the fixed head with the stylesheet, then the
      body, then the closing tags. */
  function HtmlPage(body: string): (page: string)
    ensures |page| == |PageHead| + |body| + |PageTail|
    ensures page[..|PageHead|] == PageHead && page[|page| - |PageTail|..] == PageTail
    ensures page[|PageHead|..|page| - |PageTail|] == body
  {
    PageHead + body + PageTail
  }

  /** `md.replace("&","&amp;").replace("<","&lt;")`. */
  function EscapeHtml(md: string): (r: string)
    ensures '<' !in r
  {
    ReplaceCharRemoves(Replace(md, "&", "&amp;"), '<', "&lt;");
    Replace(Replace(md, "&", "&amp;"), "<", "&lt;")
  }

  /** The body used when the `markdown` package cannot be imported: the only
      raw `<` in it are those of its two tags, and the text between them
      unescapes to the Markdown. */
  function FallbackBody(md: string): (b: string)
    ensures |b| >= 11 && b[..5] == "<pre>" && b[|b| - 6..] == "</pre>"
    ensures '<' !in b[5..|b| - 6]
    ensures UnescapeHtml(b[5..|b| - 6]) == md
  {
    EscapeHtmlRoundTrip(md);
    var e := EscapeHtml(md);
    assert ("<pre>" + e + "</pre>")[5..|e| + 5] == e;
    "<pre>" + e + "</pre>"
  }

  /** Undoes the escaping, `&lt;` first and `&amp;` last. */
  function UnescapeHtml(h: string): string {
    Replace(Replace(h, "&lt;", "<"), "&amp;", "&")
  }

  /** What the fallback escaping turns one character into. */
  function EscapeChar(c: char): string {
    if c == '&' then "&amp;" else if c == '<' then "&lt;" else [c]
  }

  /** The fallback escaping works character by character. */
  lemma EscapeHtmlCons(c: char, rest: string)
    ensures EscapeHtml([c] + rest) == EscapeChar(c) + EscapeHtml(rest)
  {
    assert "&" == ['&'] && "<" == ['<'];
    ReplaceCharAppend([c], rest, '&', "&amp;");
    var head := Replace([c], "&", "&amp;");
    var tail := Replace(rest, "&", "&amp;");
    ReplaceCharAppend(head, tail, '<', "&lt;");
    if c == '&' {
      assert head == "&amp;" + [];
      ReplaceSkips("&amp;", [], "<", "&lt;");
    } else {
      assert head == [c] + [];
      if c != '<' {
        ReplaceSkips([c], [], "<", "&lt;");
      }
    }
  }

  /** Undoing `&lt;` leaves the escape of one character as it was, except
      that `&lt;` becomes `<`. */
  lemma UnescapeLtCons(c: char, t: string)
    ensures Replace(EscapeChar(c) + t, "&lt;", "<")
      == (if c == '<' then "<" else EscapeChar(c)) + Replace(t, "&lt;", "<")
  {
    if c == '<' {
      ReplaceAtFront(t, "&lt;", "<");
    } else if c == '&' {
      UnescapeLtOfAmp(t);
    } else {
      ReplaceSkips([c], t, "&lt;", "<");
    }
  }

  lemma UnescapeLtOfAmp(t: string)
    ensures Replace("&amp;" + t, "&lt;", "<") == "&amp;" + Replace(t, "&lt;", "<")
  {
    var s := "&amp;" + t;
    assert s[0] == '&' && s[1] == 'a' && "&lt;"[1] == 'l';
    assert !("&lt;" <= s);
    assert s[1..] == "amp;" + t;
    ReplaceSkips("amp;", t, "&lt;", "<");
  }

  /** Undoing `&amp;` after `&lt;` gives back the character. */
  lemma UnescapeAmpCons(c: char, t: string)
    ensures Replace((if c == '<' then "<" else EscapeChar(c)) + t, "&amp;", "&")
      == [c] + Replace(t, "&amp;", "&")
  {
    if c == '&' {
      ReplaceAtFront(t, "&amp;", "&");
    } else {
      ReplaceSkips([c], t, "&amp;", "&");
    }
  }

  /** Un-escaping `&lt;` and then `&amp;` recovers the Markdown. */
  lemma {:induction false} EscapeHtmlRoundTrip(md: string)
    ensures UnescapeHtml(EscapeHtml(md)) == md
  {
    if md == [] {
      assert EscapeHtml(md) == [];
    } else {
      var c, rest := md[0], md[1..];
      assert md == [c] + rest;
      EscapeHtmlRoundTrip(rest);
      EscapeHtmlCons(c, rest);
      UnescapeLtCons(c, EscapeHtml(rest));
      UnescapeAmpCons(c, Replace(EscapeHtml(rest), "&lt;", "<"));
    }
  }

  /** The findings of the rules from position `from` of RuleOrder on. */
  function FindingsFrom(from: nat, c: Counts, t: Thresholds): seq<Finding>
    requires from <= |RuleOrder|
  {
    FindingsFor(FiredFrom(from, c, t), c)
  }

  lemma FindingsFromStep(from: nat, c: Counts, t: Thresholds)
    requires from < |RuleOrder|
    ensures var r := RuleOrder[from];
      FindingsFrom(from, c, t) == (if Fires(r, c, t) then [RuleFinding(r, c)] else []) + FindingsFrom(from + 1, c, t)
  {
    var r := RuleOrder[from];
    FindingsForAppend(if Fires(r, c, t) then [r] else [], FiredFrom(from + 1, c, t), c);
    assert FindingsFor([r], c) == [RuleFinding(r, c)];
  }

  /** What one `if` of the table appends. */
  function StepFindings(r: Rule, c: Counts, t: Thresholds): seq<Finding> {
    if Fires(r, c, t) then [RuleFinding(r, c)] else []
  }

  /** The findings of the rules from position `from` on are what the
      remaining `if`s append, one after another. */
  lemma {:induction false} FindingsFromBySteps(from: nat, c: Counts, t: Thresholds)
    requires from <= |RuleOrder|
    ensures FindingsFrom(from, c, t) == StepsFrom(from, c, t)
    decreases |RuleOrder| - from
  {
    if from < |RuleOrder| {
      FindingsFromStep(from, c, t);
      FindingsFromBySteps(from + 1, c, t);
    } else {
      assert FindingsFrom(from, c, t) == [];
    }
  }

  /** `StepFindings` of each rule from position `from` on, in table order. */
  function StepsFrom(from: nat, c: Counts, t: Thresholds): seq<Finding>
    requires from <= |RuleOrder|
    decreases |RuleOrder| - from
  {
    if from == |RuleOrder| then [] else StepFindings(RuleOrder[from], c, t) + StepsFrom(from + 1, c, t)
  }

  /** Regrouping six appended lists. Kept apart from ExpectedFindingsBySteps,
      where the same fact, stated inline, costs the verifier several times more. */
  lemma AppendRightToLeft(s0: seq<Finding>, s1: seq<Finding>, s2: seq<Finding>,
                          s3: seq<Finding>, s4: seq<Finding>, s5: seq<Finding>)
    ensures s0 + (s1 + (s2 + (s3 + (s4 + s5)))) == s0 + s1 + s2 + s3 + s4 + s5
  {
  }

  /** The expected findings are what the six `if`s append, one after another. */
  lemma ExpectedFindingsBySteps(c: Counts, t: Thresholds)
    ensures ExpectedFindings(c, t)
      == StepFindings(AnyoneOrEveryone, c, t) + StepFindings(ExternalOwner, c, t)
       + StepFindings(DirectWebPerms, c, t) + StepFindings(UniqueItems, c, t)
       + StepFindings(ExternalIdentities, c, t) + StepFindings(GroupsWithoutOwner, c, t)
  {
    FindingsFromBySteps(0, c, t);
    var s0, s1, s2 := StepFindings(AnyoneOrEveryone, c, t), StepFindings(ExternalOwner, c, t), StepFindings(DirectWebPerms, c, t);
    var s3, s4, s5 := StepFindings(UniqueItems, c, t), StepFindings(ExternalIdentities, c, t), StepFindings(GroupsWithoutOwner, c, t);
    assert StepsFrom(6, c, t) == [];
    assert StepsFrom(5, c, t) == s5 + [] == s5;
    assert StepsFrom(4, c, t) == s4 + s5;
    assert StepsFrom(3, c, t) == s3 + (s4 + s5);
    assert StepsFrom(2, c, t) == s2 + (s3 + (s4 + s5));
    assert StepsFrom(1, c, t) == s1 + (s2 + (s3 + (s4 + s5)));
    assert StepsFrom(0, c, t) == s0 + (s1 + (s2 + (s3 + (s4 + s5))));
    AppendRightToLeft(s0, s1, s2, s3, s4, s5);
  }

  lemma FindingsForAppend(a: seq<Rule>, b: seq<Rule>, c: Counts)
    ensures FindingsFor(a + b, c) == FindingsFor(a, c) + FindingsFor(b, c)
  {
    var l, r := FindingsFor(a + b, c), FindingsFor(a, c) + FindingsFor(b, c);
    assert |l| == |r|;
    forall i | 0 <= i < |l| ensures l[i] == r[i] {
      if i < |a| { assert (a + b)[i] == a[i]; } else { assert (a + b)[i] == b[i - |a|]; }
    }
  }

  // ---------------------------------------------------------------------------
  // analyze

  /** The six `if`s of `analyze` that build the list of findings. */
  method CollectFindings(counts: Counts, thresholds: Thresholds) returns (findings: seq<Finding>)
    ensures findings == ExpectedFindings(counts, thresholds)
  {
    findings := [];
    if thresholds.anyoneOrEveryone && counts.anyoneOrEveryone {
      findings := findings + [RuleFinding(AnyoneOrEveryone, counts)];
    }
    ghost var done := StepFindings(AnyoneOrEveryone, counts, thresholds);
    assert findings == done;
    if thresholds.externalOwner && counts.externalOwner {
      findings := findings + [RuleFinding(ExternalOwner, counts)];
    }
    done := done + StepFindings(ExternalOwner, counts, thresholds);
    assert findings == done;
    if thresholds.directWebPerms && counts.directWebAssignments != 0 {
      findings := findings + [RuleFinding(DirectWebPerms, counts)];
    }
    done := done + StepFindings(DirectWebPerms, counts, thresholds);
    assert findings == done;
    if counts.uniqueItems > thresholds.uniqueItemsGt {
      findings := findings + [RuleFinding(UniqueItems, counts)];
    }
    done := done + StepFindings(UniqueItems, counts, thresholds);
    assert findings == done;
    if counts.externalIdentities >= thresholds.externalItemIdentitiesGte {
      findings := findings + [RuleFinding(ExternalIdentities, counts)];
    }
    done := done + StepFindings(ExternalIdentities, counts, thresholds);
    assert findings == done;
    if thresholds.groupWithoutOwner && counts.groupsWithoutOwner != 0 {
      findings := findings + [RuleFinding(GroupsWithoutOwner, counts)];
    }
    done := done + StepFindings(GroupsWithoutOwner, counts, thresholds);
    assert findings == done;
    ExpectedFindingsBySteps(counts, thresholds);
  }

  /** The Risk Ratings part of `analyze`: one line per finding, appended in
      order, or the single no-risks line. */
  method AppendRiskRatings(lines: seq<string>, findings: seq<Finding>) returns (out: seq<string>)
    ensures out == lines + RiskRatingLines(findings)
  {
    out := lines;
    if |findings| > 0 {
      for i := 0 to |findings|
        invariant out == lines + FindingLines(findings[..i])
      {
        assert findings[..i + 1] == findings[..i] + [findings[i]];
        FindingLinesSnoc(findings[..i], findings[i]);
        out := out + [FindingLine(findings[i])];
      }
      assert findings[..|findings|] == findings;
    } else {
      out := out + [NoRisksLine];
    }
  }

  /** `analyze` on an already parsed document. `generated` stands for the
      clock reading and `libraryBody` for what the `markdown` package renders,
      None when it cannot be imported or fails. */
  method Analyze(data: AuditData, thresholds: Thresholds, generated: string, libraryBody: Option<string>)
    returns (md: string, html: string)
    ensures md == Markdown(CountsOf(data), ExpectedFindings(CountsOf(data), thresholds), generated)
    ensures html == HtmlPage(if libraryBody.Some? then libraryBody.value else FallbackBody(md))
    ensures libraryBody.None? ==> exists e ::
      html == PageHead + "<pre>" + e + "</pre>" + PageTail && '<' !in e && UnescapeHtml(e) == md
  {
    var counts := CountsOf(data);
    var findings := CollectFindings(counts, thresholds);
    var lines := HeaderLines(counts, generated);
    lines := AppendRiskRatings(lines, findings);
    lines := lines + FooterLines;
    md := Join(lines, '\n');
    html := RenderPage(md, libraryBody);
  }

  /** The HTML half of `analyze`: the library's rendering when there is one,
      otherwise the escaped Markdown inside `<pre>`, wrapped in the page. */
  method RenderPage(md: string, libraryBody: Option<string>) returns (html: string)
    ensures html == HtmlPage(if libraryBody.Some? then libraryBody.value else FallbackBody(md))
    ensures libraryBody.None? ==> exists e ::
      html == PageHead + "<pre>" + e + "</pre>" + PageTail && '<' !in e && UnescapeHtml(e) == md
  {
    match libraryBody
    case Some(body) =>
      html := HtmlPage(body);
    case None =>
      var e := EscapeHtml(md);
      EscapeHtmlRoundTrip(md);
      html := HtmlPage(FallbackBody(md));
      assert html == PageHead + "<pre>" + e + "</pre>" + PageTail;
  }
}
