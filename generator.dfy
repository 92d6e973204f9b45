/** The scan report and the generator that accumulates it during a scan
    and renders its human-readable summary. */
module Report {
  import opened Models
  import Text

  /** The scan's start time, held in the RFC 3339 text form the summary
      prints. */
  type Instant = string

  /** A scanned package with at least one matching vulnerability. */
  datatype Finding = Finding(
    PackageName: string,
    CurrentVersion: string,
    Vulnerabilities: seq<Vulnerability>)

  datatype ScanReport = ScanReport(
    ImageName: string,
    ScanTime: Instant,
    TotalPackages: int,
    VulnerablePackages: int,
    Findings: seq<Finding>)

  /** Every finding lists at least one vulnerability. */
  predicate FindingsNonEmpty(fs: seq<Finding>) {
    forall i :: 0 <= i < |fs| ==> fs[i].Vulnerabilities != []
  }

  /** The `%s` rendering of a severity. */
  function SeverityText(s: Severity): string {
    match s
    case Low => "Low"
    case Medium => "Medium"
    case High => "High"
    case Critical => "Critical"
  }

  /** `"%s (%s)\n"` of a vulnerability's identifier and severity. */
  function IdLine(v: Vulnerability): string {
    v.ID + " (" + SeverityText(v.Severity) + ")\n"
  }

  /** `"Description: %s\n"` of a vulnerability. */
  function DescriptionLine(v: Vulnerability): string {
    "Description: " + v.Description + "\n"
  }

  /** `"Fixed in: %s\n"` of a vulnerability. */
  function FixedInLine(v: Vulnerability): string {
    "Fixed in: " + v.FixedIn + "\n"
  }

  /** The three summary lines of one vulnerability. */
  function VulnText(v: Vulnerability): string {
    IdLine(v) + DescriptionLine(v) + FixedInLine(v)
  }

  /** The lines of a list of vulnerabilities, in list order. */
  function VulnsText(vs: seq<Vulnerability>): string {
    Text.Concat(vs, VulnText)
  }

  /** The line that opens the block of one finding. */
  function FindingHeading(f: Finding): string {
    "\n " + f.PackageName + " (version " + f.CurrentVersion + ")\n"
  }

  /** The block of one finding: its heading, then its vulnerabilities. */
  function FindingText(f: Finding): string {
    FindingHeading(f) + VulnsText(f.Vulnerabilities)
  }

  /** The blocks of a list of findings, in list order. */
  function FindingsText(fs: seq<Finding>): string {
    Text.Concat(fs, FindingText)
  }

  /** The four header lines: image, scan time and the two counts. */
  function SummaryHeader(r: ScanReport): string {
    ("\nScan Summary fir " + r.ImageName + "\n")
    + ("Scan completed at: " + r.ScanTime + "\n")
    + ("Total packages found: " + Text.IntText(r.TotalPackages) + "\n")
    + ("Vulnerable packages found: " + Text.IntText(r.VulnerablePackages) + "\n\n")
  }

  const NoVulnerabilitiesLine := "No vulnerabilities dound!\n"
  const VulnerablePackagesLine := "Vulnerable Packages:\n"

  /** The summary text of a report. */
  function Summary(r: ScanReport): string {
    if |r.Findings| > 0 then SummaryHeader(r) + VulnerablePackagesLine + FindingsText(r.Findings)
    else SummaryHeader(r) + NoVulnerabilitiesLine
  }

  /** The blocks of two lists of findings one after the other are the
      blocks of the first followed by those of the second: the summary
      lists findings in order, one block each. */
  lemma FindingsTextAppend(a: seq<Finding>, b: seq<Finding>)
    ensures FindingsText(a + b) == FindingsText(a) + FindingsText(b)
  {
    Text.ConcatAppend(a, b, FindingText);
  }

  /** A report without findings has a summary that ends in the "no
      vulnerabilities" line. */
  lemma SummaryWithoutFindings(r: ScanReport)
    requires r.Findings == []
    ensures |Summary(r)| >= |NoVulnerabilitiesLine|
    ensures Summary(r)[|Summary(r)| - |NoVulnerabilitiesLine|..] == NoVulnerabilitiesLine
  {
  }

  /** A report with findings has a summary that, after the header, holds
      the "Vulnerable Packages" line and then the block of the first
      finding followed by the blocks of the others. */
  lemma SummaryWithFindings(r: ScanReport)
    requires r.Findings != []
    ensures Summary(r) == SummaryHeader(r) + VulnerablePackagesLine
                          + FindingText(r.Findings[0]) + FindingsText(r.Findings[1..])
  {
    FindingsTextAppend([r.Findings[0]], r.Findings[1..]);
    assert [r.Findings[0]] + r.Findings[1..] == r.Findings;
    assert [r.Findings[0]][..0] == [];
    assert FindingsText([r.Findings[0]]) == FindingsText([]) + FindingText(r.Findings[0]);
  }

  /** Adding one more finding to a report that already has findings (and
      leaving the counts alone) extends its summary by exactly that
      finding's block. */
  lemma SummaryAfterAddFinding(r: ScanReport, f: Finding)
    requires r.Findings != []
    ensures Summary(r.(Findings := r.Findings + [f])) == Summary(r) + FindingText(f)
  {
    var r' := r.(Findings := r.Findings + [f]);
    assert r'.Findings[..|r'.Findings| - 1] == r.Findings;
    assert SummaryHeader(r') == SummaryHeader(r);
  }

  /** The accumulator of one scan's report. */
  class ReportGenerator {
    var report: ScanReport

    /** The object invariant: no stored finding is empty. */
    predicate Valid()
      reads this
    {
      FindingsNonEmpty(report.Findings)
    }

    /** A generator for the named image, started at `now`, with no
        findings and both counts zero. */
    constructor (imageName: string, now: Instant)
      ensures report == ScanReport(imageName, now, 0, 0, [])
      ensures Valid()
    {
      report := ScanReport(imageName, now, 0, 0, []);
    }

    /** Records a finding for the package, only when it has vulnerabilities;
        earlier findings, the name, the time and the counts stay as they were. */
    method AddFinding(pkgName: string, version: string, vulns: seq<Vulnerability>)
      modifies this
      ensures vulns == [] ==> report == old(report)
      ensures vulns != [] ==>
        report == old(report).(Findings := old(report.Findings) + [Finding(pkgName, version, vulns)])
      ensures old(Valid()) ==> Valid()
    {
      if |vulns| > 0 {
        report := report.(Findings := report.Findings + [Finding(pkgName, version, vulns)]);
      }
    }

    /** Sets the total count and makes the vulnerable count the number of
        findings; nothing else changes. */
    method SetPackageCounts(total: int)
      modifies this
      ensures report == old(report).(TotalPackages := total, VulnerablePackages := |old(report.Findings)|)
      ensures report.VulnerablePackages == |report.Findings|
      ensures Valid() == old(Valid())
    {
      report := report.(TotalPackages := total);
      report := report.(VulnerablePackages := |report.Findings|);
    }

    /** Renders the report without changing it: the header, then either the
        block of every finding in order or the "no vulnerabilities" line. */
    method GetSummary() returns (summary: string)
      ensures summary == Summary(report)
    {
      summary := "\nScan Summary fir " + report.ImageName + "\n";
      summary := summary + ("Scan completed at: " + report.ScanTime + "\n");
      summary := summary + ("Total packages found: " + Text.IntText(report.TotalPackages) + "\n");
      summary := summary + ("Vulnerable packages found: " + Text.IntText(report.VulnerablePackages) + "\n\n");
      assert summary == SummaryHeader(report);

      if |report.Findings| > 0 {
        summary := summary + "Vulnerable Packages:\n";
        summary := AppendFindings(summary, report.Findings);
      } else {
        summary := summary + "No vulnerabilities dound!\n";
      }
    }
  }

  /** The outer loop of the summary: appends the block of every finding,
      in order, each block being the finding's heading followed by its
      vulnerabilities' lines. */
  method AppendFindings(text: string, findings: seq<Finding>) returns (summary: string)
    ensures summary == text + FindingsText(findings)
  {
    summary := text;
    for i := 0 to |findings|
      invariant summary == text + FindingsText(findings[..i])
    {
      var finding := findings[i];
      ghost var before := summary;
      summary := summary + FindingHeading(finding);
      summary := AppendVulnerabilities(summary, finding.Vulnerabilities);
      Text.AppendAssoc(before, FindingHeading(finding), VulnsText(finding.Vulnerabilities));
      assert findings[..i + 1][..i] == findings[..i];
      Text.AppendAssoc(text, FindingsText(findings[..i]), FindingText(finding));
    }
    assert findings[..|findings|] == findings;
  }

  /** The inner loop of the summary: appends the three lines of every
      vulnerability, in order. */
  method AppendVulnerabilities(text: string, vulns: seq<Vulnerability>) returns (summary: string)
    ensures summary == text + VulnsText(vulns)
  {
    summary := text;
    for j := 0 to |vulns|
      invariant summary == text + VulnsText(vulns[..j])
    {
      var vuln := vulns[j];
      ghost var done := summary;
      summary := summary + IdLine(vuln);
      summary := summary + DescriptionLine(vuln);
      summary := summary + FixedInLine(vuln);
      Text.AppendAssoc(done, IdLine(vuln), DescriptionLine(vuln));
      Text.AppendAssoc(done, IdLine(vuln) + DescriptionLine(vuln), FixedInLine(vuln));
      assert vulns[..j + 1][..j] == vulns[..j];
      Text.AppendAssoc(text, VulnsText(vulns[..j]), VulnText(vuln));
    }
    assert vulns[..|vulns|] == vulns;
  }
}
