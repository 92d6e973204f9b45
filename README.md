# container-scanner core, modelled in Dafny

container-scanner pulls a container image, lists the packages installed in
it, looks each package up in a vulnerability database and prints a summary
report. This project models the sequential, in-memory part of that pipeline
and proves what it promises:

- **Analyzer** (`database.dfy`): the in-memory `SimpleVulnDB`. It is a
  table from package name to vulnerability records, seeded with three
  entries. Lookup is exact, by name only, and never fails. `UpdateDatabase`
  does nothing.
- **Report** (`generator.dfy`): the `ReportGenerator` class. Its one field is
  the `ScanReport` that `AddFinding` appends to and `SetPackageCounts`
  overwrites. `GetSummary` renders the report with two nested loops and is
  proved against the specification function `Summary`. The outer loop,
  `AppendFindings`, is proved against `FindingsText`, and the inner loop,
  `AppendVulnerabilities`, against `VulnsText`.
- **Scanner** (`scanner.dfy`): `parsePackageString` and the scan loop of
  the command's `main`. A package line with no space makes Go index past the
  end of a one-element slice. The model makes that an explicit `Err`, and the
  scan loop reports it as `panicked` and stops at that line.
- **Docker** (`client.dfy`): the text tail of `ListPackages`. It splits the
  captured output on line feeds, trims each line and keeps the non-blank
  ones.
- **Text** (`text.dfy`): the pieces of Go's `strings` and `fmt` that these
  use. `strings.Split` is modelled for a one-character separator, with its
  inverse `Join`. `strings.TrimSpace` is modelled over ASCII white space.
  `%d` rendering has a round-trip lemma.
- **Models** (`models.dfy`): `Package`, `Vulnerability`, `Severity` and the
  `Result`/`Option` wrappers. The `pkg/models` package is not part of this
  model. Its records are rebuilt from the fields used in
  `internal/analyzer/database.go`.

The database is passed to the scan loop as a lookup function
`Package -> Result<seq<Vulnerability>, string>`. This keeps the error branch
of the loop reachable; the seeded table's `CheckPackage` is one such
function.

Where the code and its documentation differ, the model follows the code:

- The summary prints "Scan Summary fir" and "No vulnerabilities dound!".
- The vulnerable count equals the number of findings only right after
  `SetPackageCounts`.
- Duplicate package lines are looked up and counted twice.
- A single-token line (the shape `rpm -qa` prints) stops the scan.
- The seeded "bash" record names "apt" as its package.

## Model

| member | source | states |
|---|---|---|
| Analyzer.SimpleVulnDB.CheckPackage | internal/analyzer/database.go:67-72 | The lookup never fails. A name in the table gives exactly its stored records. An absent name gives an empty list, not an error. |
| Analyzer.SimpleVulnDB.UpdateDatabase | internal/analyzer/database.go:75-77 | Refreshing always reports no error; the table is a value, so it is left unchanged. |
| Analyzer.NewSimpleVulnDB | internal/analyzer/database.go:24-64 | The new table has exactly the keys openssl, apt and bash, with one record each. The ID, package, fixed-in version and severity of each record are as seeded, including bash's record naming "apt". |
| Analyzer.CheckPackageIgnoresVersion | internal/analyzer/database.go:68 | Two packages with the same name get the same answer, whatever their versions. |
| Analyzer.SeededLookupIsCaseSensitive | internal/analyzer/database.go:68 | In the seeded table "OpenSSL" and "BASH" find nothing: matching is exact. |
| Report.ReportGenerator.constructor | internal/report/generator.go:30-37 | A new generator stores the image name and start time, has no findings and both counts zero, and satisfies the invariant that no finding is empty. |
| Report.ReportGenerator.AddFinding | internal/report/generator.go:40-48 | An empty vulnerability list leaves the report unchanged. A non-empty one appends exactly one finding (name, version, list) after the existing ones and changes nothing else. The no-empty-finding invariant is preserved. |
| Report.ReportGenerator.SetPackageCounts | internal/report/generator.go:50-53 | The total becomes the argument and the vulnerable count becomes the number of findings. Findings, name and time are unchanged, and the invariant is unaffected. |
| Report.ReportGenerator.GetSummary | internal/report/generator.go:64-85 | The returned text is `Summary` of the report, and the report is not modified. |
| Report.AppendFindings | internal/report/generator.go:72-79 | The outer loop appends the block of every finding in order: its heading line, then its vulnerabilities. |
| Report.AppendVulnerabilities | internal/report/generator.go:74-78 | The inner loop appends the identifier/severity, description and fixed-in lines of every vulnerability, in order. |
| Report.FindingsTextAppend | internal/report/generator.go:72-79 | The blocks of two lists of findings are the first list's blocks followed by the second's: nothing is dropped, merged or reordered. |
| Report.SummaryWithoutFindings | internal/report/generator.go:80-82 | With no findings, the summary ends with "No vulnerabilities dound!\n". |
| Report.SummaryWithFindings | internal/report/generator.go:70-79 | With findings, the header is followed by "Vulnerable Packages:\n", then the first finding's block, then the blocks of the rest. |
| Report.SummaryAfterAddFinding | internal/report/generator.go:40-48 | Adding a finding to a report that already has findings extends its summary by exactly that finding's block. |
| Scanner.ParsePackageString | cmd/scanner/main.go:18-30 | Parsing succeeds exactly when the line contains a space. Otherwise it fails with index 1 out of range for a one-element slice. |
| Scanner.ParseFirstTwo | cmd/scanner/main.go:19-24 | A parsed name and version contain no space. The line starts with the name, a space and the version, and anything after them starts with a space. |
| Scanner.ParseFirstTwoFields | cmd/scanner/main.go:19-24 | Conversely, name + " " + version, followed by nothing or by space-led text, parses to exactly that name and version. So "a b c" gives version "b". |
| Scanner.ParseEmptyVersion | cmd/scanner/main.go:19-24 | Two spaces in a row give an empty version. |
| Scanner.ScanFindingsShape | cmd/scanner/main.go:79-89 | A scan records at most one finding per line, and no finding without vulnerabilities. |
| Scanner.ScanFindingsAppend | cmd/scanner/main.go:79-89 | Packages are visited in listing order: the findings of two blocks of lines are the first block's followed by the second's. |
| Scanner.ScanFindingsOne | cmd/scanner/main.go:80-88 | For one line, a failed lookup or an empty answer adds nothing. A non-empty answer adds one finding with the parsed name, the parsed version and the answer. |
| Scanner.ScanSkipsFailedLookups | cmd/scanner/main.go:82-85 | A failed lookup is skipped: the scan records exactly what it would record if that lookup had found nothing. |
| Scanner.ScanPackages | cmd/scanner/main.go:79-92 | If every line parses, the scan appends `ScanFindings` to the report, sets the total to the number of lines (duplicates counted) and sets the vulnerable count to the number of findings held. When the report started without findings, as the fresh generator `main` passes in does, that count is at most the total. If some line does not parse, the scan stops at the first such line, having recorded the findings of the lines before it and set no counts. The no-empty-finding invariant is preserved. |
| Scanner.ScanTableLine | internal/analyzer/database.go:67-72 | A well-formed line scanned against a table yields a finding exactly when the table lists vulnerabilities for its name. |
| Scanner.ThreeLineScan | cmd/scanner/main.go:79-89 | Three lines whose first two names are in the table and whose third is not yield findings for the first two, in order. |
| Scanner.ExampleScan | cmd/scanner/main.go:69-92 | Scanning openssl, bash and coreutils (at any versions) against a freshly seeded table gives three packages, two vulnerable, with findings for openssl and then bash. |
| Docker.PackagesFromOutput | internal/docker/client.go:108-115 | The loop returns `NonBlankLines` of the output's lines. No entry is empty, starts or ends with white space (a TTY carriage return included) or holds a line feed. There are at most one more entries than line feeds, and output that is all white space gives no entries. |
| Docker.NonBlankLinesLength | internal/docker/client.go:110-113 | At most one entry per line. |
| Docker.NonBlankLinesTrimmed | internal/docker/client.go:111 | Every entry is non-empty and has no white space at either end. |
| Docker.NonBlankLinesBlank | internal/docker/client.go:111 | Blank lines give no entries. |
| Docker.NonBlankLinesAppend | internal/docker/client.go:110-113 | The entries of two blocks of lines are the first block's followed by the second's: order is kept and nothing is merged. |
| Docker.NonBlankLinesOne | internal/docker/client.go:111-112 | One line gives exactly its trimmed text when that is not blank, and nothing when it is. |
| Docker.NonBlankLinesAvoid | internal/docker/client.go:110-111 | A character that is in no line is in no entry. |
| Docker.EntriesHaveNoLineFeed | internal/docker/client.go:110 | No entry of the split output holds a line feed. |
| Docker.BlankOutputHasNoEntries | internal/docker/client.go:109-115 | Output that is empty or all white space gives an empty list. |
| Text.Split | cmd/scanner/main.go:19 | `strings.Split` always gives at least one piece. |
| Text.SplitCount | internal/docker/client.go:110 | There is one more piece than there are separators. |
| Text.SplitPiecesFree | internal/docker/client.go:110 | No piece holds the separator. |
| Text.JoinSplit | cmd/scanner/main.go:19 | Joining the pieces with the separator gives back the input. |
| Text.SplitJoin | cmd/scanner/main.go:19 | Splitting a join of separator-free pieces gives back the pieces. |
| Text.SplitNoSeparator | cmd/scanner/main.go:19 | A string without the separator splits into itself alone. |
| Text.SplitAfterPiece | cmd/scanner/main.go:19 | A separator-free prefix followed by the separator is the first piece. |
| Text.SplitFirstTwo | cmd/scanner/main.go:19-23 | With two or more pieces, the input starts with piece 0, the separator and piece 1, and anything after them starts with the separator. |
| Text.SplitLeadingPieces | cmd/scanner/main.go:19-23 | Two separator-free pieces joined by the separator, then nothing or separator-led text, are pieces 0 and 1. |
| Text.SplitPiecesDrawFrom | internal/docker/client.go:110 | Every character of every piece comes from the input. |
| Text.ConcatAppend | internal/report/generator.go:72-79 | Rendering two lists one after the other equals rendering the first and then the second. |
| Text.TrimLeft | internal/docker/client.go:111 | The result is a suffix of the input, everything removed is white space, and it does not start with white space. |
| Text.TrimRight | internal/docker/client.go:111 | The result is a prefix of the input, everything removed is white space, and it does not end with white space. |
| Text.TrimSpace | internal/docker/client.go:111 | The result is empty exactly when the input is all white space. Otherwise it starts and ends with a non-space. |
| Text.TrimSpaceInfix | internal/docker/client.go:111 | The result is a contiguous part of the input with only white space outside it. |
| Text.TrimSpaceDrawsFrom | internal/docker/client.go:111 | Trimming keeps only characters of the input. |
| Text.TrimSpaceFixesTrimmed | internal/docker/client.go:111 | A string with no white space at either end is its own trim, so trimming twice equals trimming once. |
| Text.TrimSpaceDropsCarriageReturn | internal/docker/client.go:111 | A trimmed line followed by a TTY carriage return trims back to the line. |
| Text.NatTextRoundTrip | internal/report/generator.go:67-68 | `%d` of a natural number is a non-empty digit string without a leading zero that reads back as the number. |

## Left out

- The Docker SDK calls are not modelled: `NewDockerClient`, `PullImage`, `GetImageInfo`, and the create, start, wait, logs and remove steps of `ListPackages` (internal/docker/client.go:23-106). They are daemon and network I/O through a library that is not part of this model. `PackagesFromOutput` takes the captured output as a parameter.
- The channel `select` that waits for the container, and the deferred container removal, are concurrency and cleanup with no sequential content.
- `SaveJSON` is JSON marshalling plus a file write. The `jsin` struct-tag typo only affects the JSON key.
- `time.Now()` becomes the constructor's `now` parameter. `ScanTime` is held as its RFC 3339 text and the formatting itself is not modelled.
- Process-level code in `main` is not modelled: argument handling, `log.Fatalf` exits, console printing and the floating-point image-size line.
- `Scanner.ScanPackages`: the log line written for a failed lookup inside the scan loop (cmd/scanner/main.go:83) is not modelled. Only its effect, skipping that package, is.
- The `VulnerabilityDatabase` interface is not a type here. The scan takes any lookup function, and the seeded table's `CheckPackage` is one; the `context.Context` argument is dropped.
- `Text.TrimSpace`: Go trims Unicode white space. The model covers only the ASCII set (space, tab, line feed, vertical tab, form feed, carriage return), so characters such as U+0085 or U+00A0 at a line's ends are kept.
- `Report.SeverityText`: `pkg/models` is not part of this model. Severity is assumed to print as Low, Medium, High or Critical.
- Go's nil slice and empty slice are both the empty sequence. An absent name's `nil` answer and the initial `make([]Finding, 0)` are therefore indistinguishable in the model.
- `Scanner.ScanPackages`: a Go panic ends the process. The model instead returns `panicked = true` with the report as it stood, and the rest of `main` is not run.
- `Text.IntText`: only natural numbers carry a round-trip lemma. The counts passed in by the scan are never negative.
