/**
 * `buildFindings`: the scanner's fixed rule table from a page summary to an
 * ordered list of findings, and the `totalFindings` sum of the report. The
 * issue and recommendation texts are fixed per rule, so a finding records its
 * rule (and, for the count-based rules, the count its text interpolates).
 */
module Findings {
  import opened Wrappers

  datatype Category = Seo | GdprPrivacy | Accessibility
  datatype Severity = Low | Medium | High

  datatype Rule =
    | MissingTitle | TitleLength | MissingDescription | NoH1 | MultipleH1
    | MissingCanonical | IncompleteOpenGraph | ImagesMissingAlt | UnlabeledFields
    | UnlabeledButtons | MissingLang | NoPrivacyLink | NoCookieLink | NoTermsLink
    | NoConsentBanner

  datatype Finding = Finding(category: Category, severity: Severity, rule: Rule, count: Option<int>)

  datatype ScanSummary = ScanSummary(
    url: string,
    title: Option<string>,
    description: Option<string>,
    h1Count: int,
    canonical: Option<string>,
    hasRobotsMeta: bool,
    hasOgTitle: bool,
    hasOgDescription: bool,
    hasOgImage: bool,
    missingImageAltCount: int,
    unlabeledFormFieldCount: int,
    unlabeledButtonCount: int,
    hasPrivacyLink: bool,
    hasCookieLink: bool,
    hasTermsLink: bool,
    hasCookieBannerSignals: bool,
    hasLangAttribute: bool)

  datatype ScanPageResult = ScanPageResult(summary: ScanSummary, findings: seq<Finding>)

  /** JavaScript truthiness of a nullable string: present and non-empty. */
  predicate Present(s: Option<string>) {
    s.Some? && s.value != ""
  }

  /**
   * `String.prototype.length`: the number of UTF-16 code units, one for a
   * character of the Basic Multilingual Plane and two (a surrogate pair) for
   * any other.
   */
  function Utf16Length(s: string): (n: nat)
    ensures |s| <= n <= 2 * |s|
  {
    if s == [] then 0
    else Utf16Length(s[..|s| - 1]) + (if s[|s| - 1] as int < 0x1_0000 then 1 else 2)
  }

  /** The UTF-16 length counts characters exactly when every character lies in the Basic Multilingual Plane. */
  lemma {:induction false} Utf16LengthIff(s: string)
    ensures Utf16Length(s) == |s| <==> forall i :: 0 <= i < |s| ==> s[i] as int < 0x1_0000
  {
    if s != [] {
      var init := s[..|s| - 1];
      Utf16LengthIff(init);
      assert forall i :: 0 <= i < |init| ==> init[i] == s[i];
    }
  }

  /** A title of 13 letters and one emoji is 15 code units long: long enough. */
  lemma AstralTitleLength()
    ensures Utf16Length("abcdefghijklm\U{1F600}") == 15
  {
    var t := "abcdefghijklm\U{1F600}";
    assert t[..|t| - 1] == "abcdefghijklm";
    Utf16LengthIff("abcdefghijklm");
  }

  const MinTitleLength: int := 15
  const MaxTitleLength: int := 65

  // ---- the table, rule by rule -------------------------------------------

  /** Position of a rule in the table. */
  function RuleIndex(r: Rule): int {
    match r
    case MissingTitle => 0 case TitleLength => 1 case MissingDescription => 2
    case NoH1 => 3 case MultipleH1 => 4 case MissingCanonical => 5
    case IncompleteOpenGraph => 6 case ImagesMissingAlt => 7 case UnlabeledFields => 8
    case UnlabeledButtons => 9 case MissingLang => 10 case NoPrivacyLink => 11
    case NoCookieLink => 12 case NoTermsLink => 13 case NoConsentBanner => 14
  }

  function CategoryOf(r: Rule): Category {
    if RuleIndex(r) <= 6 then Seo
    else if RuleIndex(r) <= 10 then Accessibility
    else GdprPrivacy
  }

  function SeverityOf(r: Rule): Severity {
    match r
    case MissingTitle => High case UnlabeledFields => High case NoH1 => High case NoPrivacyLink => High
    case MultipleH1 => Low case MissingCanonical => Low case IncompleteOpenGraph => Low
    case MissingLang => Low case NoTermsLink => Low
    case _ => Medium
  }

  /** The count a rule's message reports, if it reports one. */
  function CountOf(s: ScanSummary, r: Rule): Option<int> {
    match r
    case ImagesMissingAlt => Some(s.missingImageAltCount)
    case UnlabeledFields => Some(s.unlabeledFormFieldCount)
    case UnlabeledButtons => Some(s.unlabeledButtonCount)
    case _ => None
  }

  /** When each rule fires. */
  predicate Fires(s: ScanSummary, r: Rule) {
    match r
    case MissingTitle => !Present(s.title)
    case TitleLength => Present(s.title) && !(MinTitleLength <= Utf16Length(s.title.value) <= MaxTitleLength)
    case MissingDescription => !Present(s.description)
    case NoH1 => s.h1Count == 0
    case MultipleH1 => s.h1Count > 1
    case MissingCanonical => !Present(s.canonical)
    case IncompleteOpenGraph => !(s.hasOgTitle && s.hasOgDescription && s.hasOgImage)
    case ImagesMissingAlt => s.missingImageAltCount > 0
    case UnlabeledFields => s.unlabeledFormFieldCount > 0
    case UnlabeledButtons => s.unlabeledButtonCount > 0
    case MissingLang => !s.hasLangAttribute
    case NoPrivacyLink => !s.hasPrivacyLink
    case NoCookieLink => !s.hasCookieLink
    case NoTermsLink => !s.hasTermsLink
    case NoConsentBanner => !s.hasCookieBannerSignals
  }

  function FindingFor(s: ScanSummary, r: Rule): Finding {
    Finding(CategoryOf(r), SeverityOf(r), r, CountOf(s, r))
  }

  /** The rule at a position of the table. */
  function RuleAt(i: int): (r: Rule)
    requires 0 <= i < RuleCount
    ensures RuleIndex(r) == i
  {
    match i
    case 0 => MissingTitle case 1 => TitleLength case 2 => MissingDescription
    case 3 => NoH1 case 4 => MultipleH1 case 5 => MissingCanonical
    case 6 => IncompleteOpenGraph case 7 => ImagesMissingAlt case 8 => UnlabeledFields
    case 9 => UnlabeledButtons case 10 => MissingLang case 11 => NoPrivacyLink
    case 12 => NoCookieLink case 13 => NoTermsLink case _ => NoConsentBanner
  }

  const RuleCount: int := 15

  /** The findings of the first `n` rules of the table that fire, in table order. */
  function Select(s: ScanSummary, n: nat): seq<Finding>
    requires n <= RuleCount
  {
    if n == 0 then []
    else Select(s, n - 1) + Emit(s, RuleAt(n - 1))
  }

  /** What a rule contributes: its table entry when it fires, nothing otherwise. */
  function Emit(s: ScanSummary, r: Rule): seq<Finding> {
    if Fires(s, r) then [FindingFor(s, r)] else []
  }

  /** The reference list: one finding per firing rule, in table order. */
  function Reference(s: ScanSummary): seq<Finding> {
    Select(s, RuleCount)
  }

  ghost predicate InRuleOrder(fs: seq<Finding>) {
    forall i, j :: 0 <= i < j < |fs| ==> RuleIndex(fs[i].rule) < RuleIndex(fs[j].rule)
  }

  /** `if (cond) findings.push(finding)` for a block that checks the rule `r`, the `n`-th of the table, alone. */
  method PushIf(s: ScanSummary, findings: seq<Finding>, ghost n: nat, ghost r: Rule, cond: bool, finding: Finding) returns (pushed: seq<Finding>)
    requires n < RuleCount && RuleIndex(r) == n && findings == Select(s, n)
    requires cond == Fires(s, r) && finding == FindingFor(s, r)
    ensures pushed == Select(s, n + 1)
    ensures |pushed| <= |findings| + 1
  {
    pushed := findings;
    if cond {
      pushed := pushed + [finding];
    }
  }

  /**
   * `buildFindings(summary)`: each `if` block pushes the findings of its rules
   * that fire, so the list is the reference list; at most one finding per
   * block gives at most 13. The thirteen blocks are grouped by category.
   */
  method BuildFindings(s: ScanSummary) returns (findings: seq<Finding>)
    ensures findings == Reference(s)
    ensures |findings| <= 13
  {
    findings := SeoFindings(s);
    findings := PushAccessibilityFindings(s, findings);
    findings := PushGdprFindings(s, findings);
  }

  /** The five SEO blocks: title, description, H1, canonical, Open Graph. */
  method SeoFindings(s: ScanSummary) returns (findings: seq<Finding>)
    ensures findings == Select(s, 7)
    ensures |findings| <= 5
  {
    findings := [];
    if !Present(s.title) {
      findings := findings + [Finding(Seo, High, MissingTitle, None)];
    } else if Utf16Length(s.title.value) < MinTitleLength || Utf16Length(s.title.value) > MaxTitleLength {
      findings := findings + [Finding(Seo, Medium, TitleLength, None)];
    }
    assert Select(s, 1) == Emit(s, MissingTitle);
    assert findings == Select(s, 2);

    findings := PushIf(s, findings, 2, MissingDescription, !Present(s.description), Finding(Seo, Medium, MissingDescription, None));

    ghost var before := findings;
    if s.h1Count == 0 {
      findings := findings + [Finding(Seo, High, NoH1, None)];
    } else if s.h1Count > 1 {
      findings := findings + [Finding(Seo, Low, MultipleH1, None)];
    }
    assert Select(s, 4) == before + Emit(s, NoH1);
    assert findings == Select(s, 5);

    findings := PushIf(s, findings, 5, MissingCanonical, !Present(s.canonical), Finding(Seo, Low, MissingCanonical, None));
    findings := PushIf(s, findings, 6, IncompleteOpenGraph, !s.hasOgTitle || !s.hasOgDescription || !s.hasOgImage, Finding(Seo, Low, IncompleteOpenGraph, None));
  }

  /** The four accessibility blocks: image alt text, form labels, button labels, `lang`. */
  method PushAccessibilityFindings(s: ScanSummary, findings: seq<Finding>) returns (pushed: seq<Finding>)
    requires findings == Select(s, 7)
    ensures pushed == Select(s, 11)
    ensures |pushed| <= |findings| + 4
  {
    pushed := PushIf(s, findings, 7, ImagesMissingAlt, s.missingImageAltCount > 0, Finding(Accessibility, Medium, ImagesMissingAlt, Some(s.missingImageAltCount)));
    pushed := PushIf(s, pushed, 8, UnlabeledFields, s.unlabeledFormFieldCount > 0, Finding(Accessibility, High, UnlabeledFields, Some(s.unlabeledFormFieldCount)));
    pushed := PushIf(s, pushed, 9, UnlabeledButtons, s.unlabeledButtonCount > 0, Finding(Accessibility, Medium, UnlabeledButtons, Some(s.unlabeledButtonCount)));
    pushed := PushIf(s, pushed, 10, MissingLang, !s.hasLangAttribute, Finding(Accessibility, Low, MissingLang, None));
  }

  /** The four GDPR blocks: privacy, cookie-policy and terms links, consent banner. */
  method PushGdprFindings(s: ScanSummary, findings: seq<Finding>) returns (pushed: seq<Finding>)
    requires findings == Select(s, 11)
    ensures pushed == Select(s, 15)
    ensures |pushed| <= |findings| + 4
  {
    pushed := PushIf(s, findings, 11, NoPrivacyLink, !s.hasPrivacyLink, Finding(GdprPrivacy, High, NoPrivacyLink, None));
    pushed := PushIf(s, pushed, 12, NoCookieLink, !s.hasCookieLink, Finding(GdprPrivacy, Medium, NoCookieLink, None));
    pushed := PushIf(s, pushed, 13, NoTermsLink, !s.hasTermsLink, Finding(GdprPrivacy, Low, NoTermsLink, None));
    pushed := PushIf(s, pushed, 14, NoConsentBanner, !s.hasCookieBannerSignals, Finding(GdprPrivacy, Medium, NoConsentBanner, None));
  }

  // ---- properties of the reference list ------------------------------------

  /** A rule's finding is selected exactly when the rule is among the first `n` and fires. */
  lemma {:induction false} SelectMembers(s: ScanSummary, n: nat, r: Rule)
    requires n <= RuleCount
    ensures FindingFor(s, r) in Select(s, n) <==> RuleIndex(r) < n && Fires(s, r)
  {
    if n > 0 {
      SelectMembers(s, n - 1, r);
    }
  }

  /** Whatever is selected is the table's finding of one of the first `n` rules, which fires. */
  lemma {:induction false} SelectSound(s: ScanSummary, n: nat, f: Finding)
    requires n <= RuleCount && f in Select(s, n)
    ensures RuleIndex(f.rule) < n && Fires(s, f.rule) && f == FindingFor(s, f.rule)
  {
    if f in Select(s, n - 1) {
      SelectSound(s, n - 1, f);
    }
  }

  /** Selected findings follow table order. */
  lemma {:induction false} SelectOrdered(s: ScanSummary, n: nat)
    requires n <= RuleCount
    ensures InRuleOrder(Select(s, n))
  {
    if n > 0 {
      SelectOrdered(s, n - 1);
      var a: seq<Finding> := Select(s, n - 1);
      var b: seq<Finding> := Emit(s, RuleAt(n - 1));
      forall i, j | 0 <= i < j < |a + b|
        ensures RuleIndex((a + b)[i].rule) < RuleIndex((a + b)[j].rule)
      {
        assert (a + b)[i] == a[i] && a[i] in a;
        if j >= |a| {
          assert (a + b)[j] == FindingFor(s, RuleAt(n - 1));
          SelectSound(s, n - 1, a[i]);
        } else {
          assert (a + b)[j] == a[j];
        }
      }
    }
  }

  /**
   * The list holds exactly the findings of the rules that fire, each with the
   * category, severity and count the table gives its rule, in strictly
   * increasing table order, so each of them once.
   */
  lemma ReferenceTable(s: ScanSummary, r: Rule)
    ensures FindingFor(s, r) in Reference(s) <==> Fires(s, r)
    ensures forall f :: f in Reference(s) ==> Fires(s, f.rule) && f == FindingFor(s, f.rule)
    ensures InRuleOrder(Reference(s))
  {
    SelectMembers(s, RuleCount, r);
    forall f | f in Reference(s)
      ensures Fires(s, f.rule) && f == FindingFor(s, f.rule)
    {
      SelectSound(s, RuleCount, f);
    }
    SelectOrdered(s, RuleCount);
  }

  /**
   * A missing or empty title gives one high SEO finding, a present title
   * outside 15..65 UTF-16 code units one medium finding, and never both; no H1 gives
   * a high finding, several a low one, exactly one neither.
   */
  lemma TitleAndHeadingRules(s: ScanSummary)
    ensures FindingFor(s, MissingTitle) in Reference(s) <==> s.title.None? || s.title.value == ""
    ensures FindingFor(s, TitleLength) in Reference(s) <==> s.title.Some? && s.title.value != "" && (Utf16Length(s.title.value) < 15 || Utf16Length(s.title.value) > 65)
    ensures FindingFor(s, MissingTitle) == Finding(Seo, High, MissingTitle, None)
    ensures FindingFor(s, TitleLength) == Finding(Seo, Medium, TitleLength, None)
    ensures FindingFor(s, NoH1) in Reference(s) <==> s.h1Count == 0
    ensures FindingFor(s, MultipleH1) in Reference(s) <==> s.h1Count > 1
    ensures FindingFor(s, NoH1) == Finding(Seo, High, NoH1, None)
    ensures FindingFor(s, MultipleH1) == Finding(Seo, Low, MultipleH1, None)
  {
    ReferenceTable(s, MissingTitle);
    ReferenceTable(s, TitleLength);
    ReferenceTable(s, NoH1);
    ReferenceTable(s, MultipleH1);
  }

  /**
   * Open Graph: one low SEO finding iff any of the three tags is missing. Each
   * accessibility count gives its finding iff it is positive, carrying the count.
   */
  lemma OpenGraphAndCountRules(s: ScanSummary)
    ensures FindingFor(s, IncompleteOpenGraph) in Reference(s) <==> !s.hasOgTitle || !s.hasOgDescription || !s.hasOgImage
    ensures FindingFor(s, IncompleteOpenGraph) == Finding(Seo, Low, IncompleteOpenGraph, None)
    ensures FindingFor(s, ImagesMissingAlt) in Reference(s) <==> s.missingImageAltCount > 0
    ensures FindingFor(s, UnlabeledFields) in Reference(s) <==> s.unlabeledFormFieldCount > 0
    ensures FindingFor(s, UnlabeledButtons) in Reference(s) <==> s.unlabeledButtonCount > 0
    ensures FindingFor(s, ImagesMissingAlt) == Finding(Accessibility, Medium, ImagesMissingAlt, Some(s.missingImageAltCount))
    ensures FindingFor(s, UnlabeledFields) == Finding(Accessibility, High, UnlabeledFields, Some(s.unlabeledFormFieldCount))
    ensures FindingFor(s, UnlabeledButtons) == Finding(Accessibility, Medium, UnlabeledButtons, Some(s.unlabeledButtonCount))
  {
    ReferenceTable(s, IncompleteOpenGraph);
    ReferenceTable(s, ImagesMissingAlt);
    ReferenceTable(s, UnlabeledFields);
    ReferenceTable(s, UnlabeledButtons);
  }

  /** Missing privacy, cookie-policy, terms and consent-banner signals give high, medium, low and medium GDPR findings. */
  lemma GdprRules(s: ScanSummary)
    ensures FindingFor(s, NoPrivacyLink) in Reference(s) <==> !s.hasPrivacyLink
    ensures FindingFor(s, NoCookieLink) in Reference(s) <==> !s.hasCookieLink
    ensures FindingFor(s, NoTermsLink) in Reference(s) <==> !s.hasTermsLink
    ensures FindingFor(s, NoConsentBanner) in Reference(s) <==> !s.hasCookieBannerSignals
    ensures FindingFor(s, NoPrivacyLink) == Finding(GdprPrivacy, High, NoPrivacyLink, None)
    ensures FindingFor(s, NoCookieLink) == Finding(GdprPrivacy, Medium, NoCookieLink, None)
    ensures FindingFor(s, NoTermsLink) == Finding(GdprPrivacy, Low, NoTermsLink, None)
    ensures FindingFor(s, NoConsentBanner) == Finding(GdprPrivacy, Medium, NoConsentBanner, None)
  {
    ReferenceTable(s, NoPrivacyLink);
    ReferenceTable(s, NoCookieLink);
    ReferenceTable(s, NoTermsLink);
    ReferenceTable(s, NoConsentBanner);
  }

  /** `pages.reduce((sum, page) => sum + page.findings.length, 0)`. */
  function TotalFindings(pages: seq<ScanPageResult>): nat {
    if pages == [] then 0 else TotalFindings(pages[..|pages| - 1]) + |pages[|pages| - 1].findings|
  }

  /** The total of a report made of two parts is the sum of their totals. */
  lemma {:induction false} TotalFindingsAppend(a: seq<ScanPageResult>, b: seq<ScanPageResult>)
    ensures TotalFindings(a + b) == TotalFindings(a) + TotalFindings(b)
    decreases |b|
  {
    if b != [] {
      assert (a + b)[..|a + b| - 1] == a + b[..|b| - 1];
      TotalFindingsAppend(a, b[..|b| - 1]);
    } else {
      assert a + b == a;
    }
  }

  /** Pages whose lists come from `BuildFindings` (at most 13 each) give at most 13 per page. */
  lemma {:induction false} TotalFindingsBound(pages: seq<ScanPageResult>)
    requires forall i :: 0 <= i < |pages| ==> |pages[i].findings| <= 13
    ensures TotalFindings(pages) <= 13 * |pages|
  {
    if pages != [] {
      TotalFindingsBound(pages[..|pages| - 1]);
    }
  }
}
