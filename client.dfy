/** The text-processing tail of listing an image's packages: the captured
    output of the inventory command becomes one package string per
    non-blank line. Everything before it talks to the container runtime. */
module Docker {
  import opened Text

  /** A string that is non-empty and has no white space at either end. */
  predicate IsTrimmedEntry(p: string) {
    p != [] && !IsSpace(p[0]) && !IsSpace(p[|p| - 1])
  }

  /** Every line is blank. */
  predicate AllBlank(lines: seq<string>) {
    forall i :: 0 <= i < |lines| ==> AllSpace(lines[i])
  }

  /** Every entry is non-empty with no white space at either end. */
  predicate AllTrimmedEntries(packages: seq<string>) {
    forall k :: 0 <= k < |packages| ==> IsTrimmedEntry(packages[k])
  }

  /** The entry one line contributes: its trimmed text, unless blank. */
  function LineEntry(line: string): seq<string> {
    var entry := TrimSpace(line);
    if entry != [] then [entry] else []
  }

  /** The trimmed lines that are not blank, in line order. */
  function NonBlankLines(lines: seq<string>): seq<string> {
    Concat(lines, LineEntry)
  }

  /** The entries of a non-empty list of lines: those of all lines but
      the last, then the entry of the last. */
  lemma NonBlankLinesLast(lines: seq<string>)
    requires lines != []
    ensures NonBlankLines(lines) == NonBlankLines(lines[..|lines| - 1]) + LineEntry(lines[|lines| - 1])
  {
  }

  /** At most one entry per line. */
  lemma {:induction false} NonBlankLinesLength(lines: seq<string>)
    ensures |NonBlankLines(lines)| <= |lines|
  {
    if lines != [] {
      NonBlankLinesLast(lines);
      NonBlankLinesLength(lines[..|lines| - 1]);
    }
  }

  /** Every entry is non-empty with no white space at either end. */
  lemma {:induction false} NonBlankLinesTrimmed(lines: seq<string>)
    ensures AllTrimmedEntries(NonBlankLines(lines))
  {
    if lines != [] {
      var init := lines[..|lines| - 1];
      var last := lines[|lines| - 1];
      NonBlankLinesTrimmed(init);
      NonBlankLinesLast(lines);
      var earlier := NonBlankLines(init);
      var packages := NonBlankLines(lines);
      forall k | 0 <= k < |packages| ensures IsTrimmedEntry(packages[k]) {
        if k < |earlier| {
          assert packages[k] == earlier[k];
        } else {
          assert packages[k] == TrimSpace(last);
        }
      }
    }
  }

  /** Blank lines give no entries. */
  lemma {:induction false} NonBlankLinesBlank(lines: seq<string>)
    requires AllBlank(lines)
    ensures NonBlankLines(lines) == []
  {
    if lines != [] {
      var init := lines[..|lines| - 1];
      assert AllSpace(lines[|lines| - 1]);
      assert AllBlank(init) by {
        forall i | 0 <= i < |init| ensures AllSpace(init[i]) {
          assert init[i] == lines[i];
        }
      }
      NonBlankLinesBlank(init);
      NonBlankLinesLast(lines);
    }
  }

  /** The entries of the first i + 1 lines: those of the first i, then
      the entry of line i. */
  lemma NonBlankLinesPrefix(lines: seq<string>, i: nat)
    requires i < |lines|
    ensures NonBlankLines(lines[..i + 1]) == NonBlankLines(lines[..i]) + LineEntry(lines[i])
  {
    var p := lines[..i + 1];
    assert p[..|p| - 1] == lines[..i];
  }

  /** Lines are handled one at a time, in order: the entries of two blocks
      of lines are the entries of the first followed by those of the second,
      so nothing is merged, dropped or reordered across lines. */
  lemma NonBlankLinesAppend(a: seq<string>, b: seq<string>)
    ensures NonBlankLines(a + b) == NonBlankLines(a) + NonBlankLines(b)
  {
    ConcatAppend(a, b, LineEntry);
  }

  /** One line gives exactly its trimmed text when that is not blank, and
      nothing when it is. */
  lemma NonBlankLinesOne(line: string)
    ensures !AllSpace(line) ==> NonBlankLines([line]) == [TrimSpace(line)]
    ensures AllSpace(line) ==> NonBlankLines([line]) == []
  {
    NonBlankLinesLast([line]);
    assert [line][..0] == [];
  }

  /** A character that no line holds is in no entry. */
  lemma {:induction false} NonBlankLinesAvoid(lines: seq<string>, c: char)
    requires forall i :: 0 <= i < |lines| ==> c !in lines[i]
    ensures forall k :: 0 <= k < |NonBlankLines(lines)| ==> c !in NonBlankLines(lines)[k]
  {
    if lines != [] {
      var last := lines[|lines| - 1];
      NonBlankLinesAvoid(lines[..|lines| - 1], c);
      NonBlankLinesLast(lines);
      if c in TrimSpace(last) {
        TrimSpaceDrawsFrom(last, c);
      }
    }
  }

  /** No entry of a split on line feeds holds a line feed. */
  lemma EntriesHaveNoLineFeed(logs: string)
    ensures forall k :: 0 <= k < |NonBlankLines(Split(logs, '\n'))| ==> '\n' !in NonBlankLines(Split(logs, '\n'))[k]
  {
    SplitPiecesFree(logs, '\n');
    NonBlankLinesAvoid(Split(logs, '\n'), '\n');
  }

  /** Output that is all white space has only blank lines, so no entries. */
  lemma BlankOutputHasNoEntries(logs: string)
    requires AllSpace(logs)
    ensures NonBlankLines(Split(logs, '\n')) == []
  {
    var lines := Split(logs, '\n');
    SplitPiecesDrawFrom(logs, '\n');
    assert AllBlank(lines) by {
      forall i | 0 <= i < |lines| ensures AllSpace(lines[i]) {
        forall k | 0 <= k < |lines[i]| ensures IsSpace(lines[i][k]) {
          assert lines[i][k] in logs;
        }
      }
    }
    NonBlankLinesBlank(lines);
  }

  /** Splits the command's output on line feeds, trims every line and keeps
      the non-blank ones, in order. No entry is empty, none starts or ends
      with white space (a TTY carriage return included), none holds a line
      feed; there are at most as many entries as lines; an output that is
      all white space gives no entries. */
  method PackagesFromOutput(logs: string) returns (packages: seq<string>)
    ensures packages == NonBlankLines(Split(logs, '\n'))
    ensures AllTrimmedEntries(packages)
    ensures forall k :: 0 <= k < |packages| ==> '\n' !in packages[k]
    ensures |packages| <= multiset(logs)['\n'] + 1
    ensures AllSpace(logs) ==> packages == []
  {
    packages := [];
    var lines := Split(logs, '\n');
    for i := 0 to |lines|
      invariant packages == NonBlankLines(lines[..i])
    {
      var line := TrimSpace(lines[i]);
      if line != "" {
        packages := packages + [line];
      }
      NonBlankLinesPrefix(lines, i);
    }
    assert lines[..|lines|] == lines;
    NonBlankLinesLength(lines);
    NonBlankLinesTrimmed(lines);
    SplitCount(logs, '\n');
    EntriesHaveNoLineFeed(logs);
    if AllSpace(logs) {
      BlankOutputHasNoEntries(logs);
    }
  }
}
