/** The in-memory vulnerability database (`SimpleVulnDB`): a table from
    package name to the vulnerability records known for that name. */
module Analyzer {
  import opened Models

  /** The table is never changed after it has been seeded, so the database
      is a value; its `CheckPackage` is the lookup capability the scan uses. */
  datatype SimpleVulnDB = SimpleVulnDB(vulns: map<string, seq<Vulnerability>>) {

    /** Exact, case-sensitive lookup by package name; the version plays no
        part. A known name gives its stored records, an unknown one gives
        no records, and neither is an error. */
    function CheckPackage(pkg: Package): (r: Lookup)
      ensures r.Ok?
      ensures pkg.Name in vulns ==> r.value == vulns[pkg.Name]
      ensures pkg.Name !in vulns ==> r.value == []
    {
      if pkg.Name in vulns then Ok(vulns[pkg.Name]) else Ok([])
    }

    /** Refreshing the corpus does nothing and never fails. */
    function UpdateDatabase(): (err: Option<string>)
      ensures err.None?
    {
      None
    }
  }

  /** Builds the database and seeds it with one sample record for each of
      "openssl", "apt" and "bash". The "bash" record names "apt" as its
      affected package. */
  method NewSimpleVulnDB() returns (db: SimpleVulnDB)
    ensures db.vulns.Keys == {"openssl", "apt", "bash"}
    ensures forall name :: name in db.vulns ==> |db.vulns[name]| == 1
    ensures db.vulns["openssl"][0].ID == "CVE-2023-0001"
    ensures db.vulns["openssl"][0].Package == "openssl"
    ensures db.vulns["openssl"][0].FixedIn == "1.1.2"
    ensures db.vulns["openssl"][0].Severity == High
    ensures db.vulns["apt"][0].ID == "CVE-2023-5678"
    ensures db.vulns["apt"][0].Package == "apt"
    ensures db.vulns["apt"][0].FixedIn == "2.7.15"
    ensures db.vulns["apt"][0].Severity == Medium
    ensures db.vulns["bash"][0].ID == "CVE-2023-9012"
    ensures db.vulns["bash"][0].Package == "apt"
    ensures db.vulns["bash"][0].FixedIn == "5.2.22"
    ensures db.vulns["bash"][0].Severity == Critical
  {
    var vulns: map<string, seq<Vulnerability>> := map[];
    vulns := vulns["openssl" := [
      Vulnerability(
        "CVE-2023-0001", "openssl", "1.1.1", "1.1.2", High,
        "Sample Open SSL vulnerability",
        ["https://cve.mitre.org/cve-2023-0001"])]];
    vulns := vulns["apt" := [
      Vulnerability(
        "CVE-2023-5678", "apt", "2.7.14", "2.7.15", Medium,
        "Potential package verification bypass in apt",
        ["https://cve.mitre.org/cve-2023-5678"])]];
    vulns := vulns["bash" := [
      Vulnerability(
        "CVE-2023-9012", "apt", "5.2.21", "5.2.22", Critical,
        "Command injection vulnerability in bash",
        ["https://cve.mitre.org/cve-2023-9012"])]];
    db := SimpleVulnDB(vulns);
  }

  /** The table holds exactly the three seeded names. */
  predicate IsSeeded(db: SimpleVulnDB) {
    db.vulns.Keys == {"openssl", "apt", "bash"}
  }

  /** Two packages with the same name get the same answer, whatever their
      versions. */
  lemma CheckPackageIgnoresVersion(db: SimpleVulnDB, p: Package, q: Package)
    requires p.Name == q.Name
    ensures db.CheckPackage(p) == db.CheckPackage(q)
  {
  }

  /** Matching is exact: a differently-cased name finds nothing in the
      seeded table. */
  lemma SeededLookupIsCaseSensitive(db: SimpleVulnDB, version: string)
    requires IsSeeded(db)
    ensures db.CheckPackage(Package("OpenSSL", version)) == Ok([])
    ensures db.CheckPackage(Package("BASH", version)) == Ok([])
  {
  }
}
