/** The scan itself: every listed package string is parsed, looked up in
    the vulnerability database and, when vulnerable, recorded as a finding;
    finally the counts are set. */
module Scanner {
  import opened Models
  import opened Text
  import Analyzer
  import opened Report

  /** Reading the second field of a line that has only one: Go's index out
      of range (index 1 in a slice of length 1), which stops the program. */
  datatype ParseError = IndexOutOfRange(index: nat, length: nat)

  /** `name` and `version` are the first two space-separated fields of `s`:
      `s` starts with the name, one space and the version, and whatever
      follows begins with a space. */
  predicate FirstTwoFields(s: string, name: string, version: string) {
    && ' ' !in name && ' ' !in version
    && |name| + 1 + |version| <= |s|
    && s[..|name| + 1 + |version|] == name + " " + version
    && (|name| + 1 + |version| == |s| || s[|name| + 1 + |version|] == ' ')
  }

  /** Splits a package line on single spaces and takes fields 0 and 1. A
      line without a space has only one field, so reading field 1 fails. */
  function ParsePackageString(pkgStr: string): (r: Result<Package, ParseError>)
    ensures r.Ok? <==> ' ' in pkgStr
    ensures r.Err? ==> r.error == IndexOutOfRange(1, 1)
  {
    var parts := Split(pkgStr, ' ');
    SplitCount(pkgStr, ' ');
    assert ' ' in pkgStr <==> multiset(pkgStr)[' '] > 0;
    if |parts| >= 2 then Ok(Package(parts[0], parts[1]))
    else Err(IndexOutOfRange(1, |parts|))
  }

  /** A parsed line's name and version are its first two fields. */
  lemma ParseFirstTwo(pkgStr: string)
    requires ' ' in pkgStr
    ensures var pkg := ParsePackageString(pkgStr).value;
            FirstTwoFields(pkgStr, pkg.Name, pkg.Version)
  {
    SplitCount(pkgStr, ' ');
    assert multiset(pkgStr)[' '] > 0;
    SplitPiecesFree(pkgStr, ' ');
    SplitFirstTwo(pkgStr, ' ');
  }

  /** A line made of a name, a space, a version and then nothing or more
      space-separated text parses to exactly that name and version. */
  lemma ParseFirstTwoFields(name: string, version: string, rest: string)
    requires ' ' !in name && ' ' !in version
    requires rest == [] || rest[0] == ' '
    ensures ParsePackageString(name + " " + version + rest) == Ok(Package(name, version))
  {
    SplitLeadingPieces(name, version, rest, ' ');
  }

  /** Two spaces in a row make an empty second field, so the version is
      empty, whatever follows. */
  lemma ParseEmptyVersion(name: string, more: string)
    requires ' ' !in name
    ensures ParsePackageString(name + "  " + more) == Ok(Package(name, ""))
  {
    ParseFirstTwoFields(name, "", " " + more);
    assert name + "  " + more == name + " " + "" + (" " + more);
  }

  /** Every line has a space, so every line parses. */
  predicate AllParse(lines: seq<string>) {
    forall i :: 0 <= i < |lines| ==> ' ' in lines[i]
  }

  /** What one looked-up package contributes: nothing when the lookup
      failed or found nothing, otherwise one finding with the package's
      name, version and the vulnerabilities found. */
  function PackageFindings(pkg: Package, lookup: Package -> Lookup): seq<Finding> {
    match lookup(pkg)
    case Err(_) => []
    case Ok(vulns) => if |vulns| > 0 then [Finding(pkg.Name, pkg.Version, vulns)] else []
  }

  /** What one package string contributes once it has been parsed. A string
      that does not parse stops the scan before this is reached, so the
      empty answer for it is never used. */
  function LineFindings(lookup: Package -> Lookup): string -> seq<Finding> {
    line => if ' ' in line then PackageFindings(ParsePackageString(line).value, lookup) else []
  }

  /** The findings a scan of `lines` records, in line order. */
  function ScanFindings(lines: seq<string>, lookup: Package -> Lookup): seq<Finding> {
    Concat(lines, LineFindings(lookup))
  }

  /** The findings of a non-empty list of lines: those of all lines but the
      last, then those of the last. */
  lemma ScanFindingsLast(lines: seq<string>, lookup: Package -> Lookup)
    requires lines != []
    ensures ScanFindings(lines, lookup)
         == ScanFindings(lines[..|lines| - 1], lookup) + LineFindings(lookup)(lines[|lines| - 1])
  {
  }

  /** At most one finding per line, and no finding without
      vulnerabilities. */
  lemma {:induction false} ScanFindingsShape(lines: seq<string>, lookup: Package -> Lookup)
    ensures |ScanFindings(lines, lookup)| <= |lines|
    ensures FindingsNonEmpty(ScanFindings(lines, lookup))
  {
    if lines != [] {
      var init := lines[..|lines| - 1];
      ScanFindingsShape(init, lookup);
      ScanFindingsLast(lines, lookup);
      var earlier := ScanFindings(init, lookup);
      var last := LineFindings(lookup)(lines[|lines| - 1]);
      var findings := ScanFindings(lines, lookup);
      forall k | 0 <= k < |findings| ensures findings[k].Vulnerabilities != [] {
        if k < |earlier| {
          assert findings[k] == earlier[k];
        } else {
          assert findings[k] == last[0];
        }
      }
    }
  }

  /** Packages are visited in listing order: the findings of two blocks of
      lines are those of the first followed by those of the second. */
  lemma ScanFindingsAppend(a: seq<string>, b: seq<string>, lookup: Package -> Lookup)
    ensures ScanFindings(a + b, lookup) == ScanFindings(a, lookup) + ScanFindings(b, lookup)
  {
    ConcatAppend(a, b, LineFindings(lookup));
  }

  /** One line: a failed lookup or an empty answer adds nothing; a
      non-empty answer adds one finding for the parsed name and version. */
  lemma ScanFindingsOne(line: string, lookup: Package -> Lookup)
    requires ' ' in line
    ensures var pkg := ParsePackageString(line).value;
            && (lookup(pkg).Err? ==> ScanFindings([line], lookup) == [])
            && (lookup(pkg) == Ok([]) ==> ScanFindings([line], lookup) == [])
            && (lookup(pkg).Ok? && lookup(pkg).value != [] ==>
                  ScanFindings([line], lookup) == [Finding(pkg.Name, pkg.Version, lookup(pkg).value)])
  {
    ScanFindingsLast([line], lookup);
    assert [line][..0] == [];
  }

  /** The lookup with every failure replaced by "no vulnerabilities". */
  function ErrorsAsEmpty(lookup: Package -> Lookup): Package -> Lookup {
    (p: Package) => if lookup(p).Err? then Ok([]) else lookup(p)
  }

  /** A failed lookup is skipped: it has exactly the effect of a lookup
      that found nothing, and the other packages are unaffected. */
  lemma {:induction false} ScanSkipsFailedLookups(lines: seq<string>, lookup: Package -> Lookup)
    ensures ScanFindings(lines, lookup) == ScanFindings(lines, ErrorsAsEmpty(lookup))
  {
    if lines != [] {
      var init := lines[..|lines| - 1];
      var line := lines[|lines| - 1];
      ScanSkipsFailedLookups(init, lookup);
      ScanFindingsLast(lines, lookup);
      ScanFindingsLast(lines, ErrorsAsEmpty(lookup));
      if ' ' in line {
        var pkg := ParsePackageString(line).value;
        assert PackageFindings(pkg, lookup) == PackageFindings(pkg, ErrorsAsEmpty(lookup));
      }
    }
  }

  /** The scan of the first i + 1 strings, when string i parses: the
      earlier ones still parse, and the findings are those of the first i
      followed by those of string i. */
  lemma ScanStep(packages: seq<string>, i: nat, lookup: Package -> Lookup)
    requires i < |packages| && AllParse(packages[..i]) && ' ' in packages[i]
    ensures AllParse(packages[..i + 1])
    ensures ScanFindings(packages[..i + 1], lookup)
         == ScanFindings(packages[..i], lookup) + PackageFindings(ParsePackageString(packages[i]).value, lookup)
  {
    var p := packages[..i + 1];
    assert p[..|p| - 1] == packages[..i];
    ScanFindingsLast(p, lookup);
    forall j | 0 <= j < |p| ensures ' ' in p[j] {
      if j < i {
        assert p[j] == packages[..i][j];
      }
    }
  }

  /** The scan loop: parses each package string in order, looks it up,
      skips it when the lookup fails, records a finding when vulnerabilities
      were found, and finally sets the total to the number of listed
      strings (duplicates included) and the vulnerable count to the number
      of findings. A string without a space stops the scan where it stands
      (`panicked`), with the findings of the strings before it recorded and
      the counts not set. */
  method ScanPackages(packages: seq<string>, lookup: Package -> Lookup, gen: ReportGenerator)
    returns (panicked: bool)
    modifies gen
    ensures !panicked ==> AllParse(packages)
    ensures !panicked ==>
      gen.report == old(gen.report).(Findings := old(gen.report.Findings) + ScanFindings(packages, lookup),
                                     TotalPackages := |packages|,
                                     VulnerablePackages := |old(gen.report.Findings)| + |ScanFindings(packages, lookup)|)
    ensures !panicked && old(gen.report.Findings) == [] ==>
      gen.report.VulnerablePackages == |gen.report.Findings| <= gen.report.TotalPackages
    ensures panicked ==>
      exists k :: 0 <= k < |packages| && ' ' !in packages[k] && AllParse(packages[..k])
                  && gen.report == old(gen.report).(Findings := old(gen.report.Findings) + ScanFindings(packages[..k], lookup))
    ensures old(gen.Valid()) ==> gen.Valid()
  {
    for i := 0 to |packages|
      invariant AllParse(packages[..i])
      invariant gen.report == old(gen.report).(Findings := old(gen.report.Findings) + ScanFindings(packages[..i], lookup))
      invariant old(gen.Valid()) ==> gen.Valid()
    {
      var parsed := ParsePackageString(packages[i]);
      if parsed.Err? {
        return true;
      }
      var pkg := parsed.value;
      ScanStep(packages, i, lookup);
      var vulns := lookup(pkg);
      if vulns.Err? {
        continue;
      }
      if |vulns.value| > 0 {
        gen.AddFinding(pkg.Name, pkg.Version, vulns.value);
      }
    }
    assert packages[..|packages|] == packages;
    ScanFindingsShape(packages, lookup);
    gen.SetPackageCounts(|packages|);
    return false;
  }

  /** One well-formed line scanned against any table: a finding for the
      line's name and version exactly when the table lists vulnerabilities
      for the name. */
  lemma ScanTableLine(db: Analyzer.SimpleVulnDB, name: string, version: string)
    requires ' ' !in name && ' ' !in version
    ensures ' ' in name + " " + version
    ensures name in db.vulns && db.vulns[name] != [] ==>
              LineFindings(db.CheckPackage)(name + " " + version) == [Finding(name, version, db.vulns[name])]
    ensures (name !in db.vulns || db.vulns[name] == []) ==>
              LineFindings(db.CheckPackage)(name + " " + version) == []
  {
    ParseFirstTwoFields(name, version, "");
    assert name + " " + version + "" == name + " " + version;
  }

  /** Three well-formed lines scanned against a table holding the first
      two names but not the third: findings for the first two, in order. */
  lemma ThreeLineScan(db: Analyzer.SimpleVulnDB, lines: seq<string>,
                      n1: string, v1: string, n2: string, v2: string, n3: string, v3: string)
    requires lines == [n1 + " " + v1, n2 + " " + v2, n3 + " " + v3]
    requires ' ' !in n1 && ' ' !in n2 && ' ' !in n3
    requires ' ' !in v1 && ' ' !in v2 && ' ' !in v3
    requires n1 in db.vulns && db.vulns[n1] != []
    requires n2 in db.vulns && db.vulns[n2] != []
    requires n3 !in db.vulns
    ensures AllParse(lines)
    ensures ScanFindings(lines, db.CheckPackage)
         == [Finding(n1, v1, db.vulns[n1]), Finding(n2, v2, db.vulns[n2])]
  {
    ScanTableLine(db, n1, v1);
    ScanTableLine(db, n2, v2);
    ScanTableLine(db, n3, v3);
    AllParseThree(lines[0], lines[1], lines[2]);
    ConcatThree(lines[0], lines[1], lines[2], LineFindings(db.CheckPackage));
    Pair(Finding(n1, v1, db.vulns[n1]), Finding(n2, v2, db.vulns[n2]));
  }

  /** Proof helper, local to ThreeLineScan: three lines that each hold a
      space all parse. It keeps that quantifier out of the larger proof. */
  lemma AllParseThree(x: string, y: string, z: string)
    requires ' ' in x && ' ' in y && ' ' in z
    ensures AllParse([x, y, z])
  {
  }

  /** Proof helper, local to ThreeLineScan: a sequence identity, stated
      generically so that it is cheap to prove. */
  lemma Pair<T>(x: T, y: T)
    ensures [x] + [y] + [] == [x, y]
  {
  }

  /** A whole scan against a freshly seeded database: openssl, bash and
      coreutils at any versions give three packages in total, two of them
      vulnerable, with findings for openssl and bash in that order, and no
      panic. */
  method ExampleScan(v1: string, v2: string, v3: string) returns (total: int, vulnerable: int, names: seq<string>)
    requires ' ' !in v1 && ' ' !in v2 && ' ' !in v3
    ensures total == 3 && vulnerable == 2
    ensures names == ["openssl", "bash"]
  {
    var db := Analyzer.NewSimpleVulnDB();
    var gen := new ReportGenerator("example:latest", "2024-01-01T00:00:00Z");
    var n1, n2, n3 := "openssl", "bash", "coreutils";
    var inventory := [n1 + " " + v1, n2 + " " + v2, n3 + " " + v3];
    assert |db.vulns[n1]| == 1 && |db.vulns[n2]| == 1;
    assert n3 !in db.vulns;
    ThreeLineScan(db, inventory, n1, v1, n2, v2, n3, v3);
    var panicked := ScanPackages(inventory, db.CheckPackage, gen);
    assert !panicked;
    total := gen.report.TotalPackages;
    vulnerable := gen.report.VulnerablePackages;
    names := [gen.report.Findings[0].PackageName, gen.report.Findings[1].PackageName];
  }
}
