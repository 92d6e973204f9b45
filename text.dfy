/** The pieces of Go's `strings` and `fmt` packages that the scanner relies
    on: splitting on a one-character separator, trimming white space and
    rendering an integer in decimal. */
module Text {

  /** The ASCII white-space characters: space, tab, line feed, vertical
      tab, form feed and carriage return. */
  predicate IsSpace(c: char) {
    c == ' ' || c == '\t' || c == '\n' || c == '\U{0B}' || c == '\U{0C}' || c == '\r'
  }

  predicate AllSpace(s: string) {
    forall k :: 0 <= k < |s| ==> IsSpace(s[k])
  }

  /** `strings.Split(s, sep)` for a one-character separator: the maximal
      separator-free pieces between separators, always at least one (the
      empty string splits into one empty piece). */
  function Split(s: string, sep: char): (parts: seq<string>)
    ensures |parts| >= 1
  {
    if s == [] then [[]]
    else
      var rest := Split(s[1..], sep);
      if s[0] == sep then [[]] + rest
      else [[s[0]] + rest[0]] + rest[1..]
  }

  /** One more piece than there are separators. */
  lemma {:induction false} SplitCount(s: string, sep: char)
    ensures |Split(s, sep)| == multiset(s)[sep] + 1
  {
    if s != [] {
      SplitCount(s[1..], sep);
      assert s == [s[0]] + s[1..];
    }
  }

  /** No piece holds the separator. */
  lemma {:induction false} SplitPiecesFree(s: string, sep: char)
    ensures forall i :: 0 <= i < |Split(s, sep)| ==> sep !in Split(s, sep)[i]
  {
    if s != [] {
      SplitPiecesFree(s[1..], sep);
      var rest := Split(s[1..], sep);
      var parts := Split(s, sep);
      forall i | 0 <= i < |parts| ensures sep !in parts[i] {
        if s[0] == sep {
          if i > 0 {
            assert parts[i] == rest[i - 1];
          }
        } else if i == 0 {
          assert parts[0] == [s[0]] + rest[0];
        } else {
          assert parts[i] == rest[i];
        }
      }
    }
  }

  /** `strings.Join(parts, sep)`: the pieces with one separator between
      neighbours. */
  function Join(parts: seq<string>, sep: char): string
    requires |parts| >= 1
  {
    if |parts| == 1 then parts[0] else parts[0] + [sep] + Join(parts[1..], sep)
  }

  /** Joining the pieces of a split gives back the input. */
  lemma {:induction false} JoinSplit(s: string, sep: char)
    ensures Join(Split(s, sep), sep) == s
  {
    if s != [] {
      JoinSplit(s[1..], sep);
      var rest := Split(s[1..], sep);
      if s[0] == sep {
        assert Split(s, sep) == [[]] + rest;
        assert ([[]] + rest)[1..] == rest;
      } else {
        var parts := Split(s, sep);
        assert parts == [[s[0]] + rest[0]] + rest[1..];
        if |rest| > 1 {
          assert parts[1..] == rest[1..];
        }
      }
      assert s == [s[0]] + s[1..];
    }
  }

  /** A separator-free string splits into itself alone. */
  lemma {:induction false} SplitNoSeparator(a: string, sep: char)
    requires sep !in a
    ensures Split(a, sep) == [a]
  {
    if a != [] {
      SplitNoSeparator(a[1..], sep);
      assert [a[0]] + a[1..] == a;
    }
  }

  /** A separator-free prefix followed by a separator is the first piece. */
  lemma {:induction false} SplitAfterPiece(a: string, rest: string, sep: char)
    requires sep !in a
    ensures Split(a + [sep] + rest, sep) == [a] + Split(rest, sep)
  {
    var s := a + [sep] + rest;
    if a == [] {
      assert s[0] == sep && s[1..] == rest;
    } else {
      assert s[0] == a[0] && s[1..] == a[1..] + [sep] + rest;
      SplitAfterPiece(a[1..], rest, sep);
      assert [a[0]] + a[1..] == a;
    }
  }

  /** Splitting a join of separator-free pieces gives back the pieces. */
  lemma {:induction false} SplitJoin(parts: seq<string>, sep: char)
    requires |parts| >= 1
    requires forall i :: 0 <= i < |parts| ==> sep !in parts[i]
    ensures Split(Join(parts, sep), sep) == parts
  {
    if |parts| == 1 {
      SplitNoSeparator(parts[0], sep);
    } else {
      SplitJoin(parts[1..], sep);
      assert Join(parts, sep) == parts[0] + [sep] + Join(parts[1..], sep);
      SplitAfterPiece(parts[0], Join(parts[1..], sep), sep);
      assert [parts[0]] + parts[1..] == parts;
    }
  }

  /** The first two pieces of a split with at least two pieces: the input
      starts with the first piece, a separator and the second piece, and
      what follows (if anything) starts with a separator. */
  lemma SplitFirstTwo(s: string, sep: char)
    requires |Split(s, sep)| >= 2
    ensures var parts := Split(s, sep);
            var n := |parts[0]| + 1 + |parts[1]|;
            && n <= |s|
            && s[..n] == parts[0] + [sep] + parts[1]
            && (n == |s| || s[n] == sep)
  {
    var parts := Split(s, sep);
    JoinSplit(s, sep);
    assert s == parts[0] + [sep] + Join(parts[1..], sep);
    var n := |parts[0]| + 1 + |parts[1]|;
    if |parts| == 2 {
      assert s == parts[0] + [sep] + parts[1];
    } else {
      assert parts[1..][1..] == parts[2..];
      assert Join(parts[1..], sep) == parts[1] + [sep] + Join(parts[2..], sep);
      assert s == (parts[0] + [sep] + parts[1]) + ([sep] + Join(parts[2..], sep));
    }
  }

  /** Two separator-free pieces joined by a separator, followed by nothing
      or by text that starts with a separator, are the first two pieces. */
  lemma SplitLeadingPieces(a: string, b: string, rest: string, sep: char)
    requires sep !in a && sep !in b
    requires rest == [] || rest[0] == sep
    ensures |Split(a + [sep] + b + rest, sep)| >= 2
    ensures Split(a + [sep] + b + rest, sep)[0] == a
    ensures Split(a + [sep] + b + rest, sep)[1] == b
  {
    if rest == [] {
      assert a + [sep] + b + rest == a + [sep] + b;
      SplitAfterPiece(a, b, sep);
      SplitNoSeparator(b, sep);
    } else {
      var tail := rest[1..];
      assert rest == [sep] + tail;
      assert a + [sep] + b + rest == a + [sep] + (b + [sep] + tail);
      SplitAfterPiece(a, b + [sep] + tail, sep);
      SplitAfterPiece(b, tail, sep);
    }
  }

  /** Every character of every piece comes from the input. */
  lemma {:induction false} SplitPiecesDrawFrom(s: string, sep: char)
    ensures forall i, c :: 0 <= i < |Split(s, sep)| && c in Split(s, sep)[i] ==> c in s
  {
    if s != [] {
      SplitPiecesDrawFrom(s[1..], sep);
      var rest := Split(s[1..], sep);
      var parts := Split(s, sep);
      assert s == [s[0]] + s[1..];
      forall i, c | 0 <= i < |parts| && c in parts[i] ensures c in s {
        if s[0] == sep {
          assert i > 0 && parts[i] == rest[i - 1];
        } else if i == 0 {
          assert parts[0] == [s[0]] + rest[0];
          assert c == s[0] || c in rest[0];
        } else {
          assert parts[i] == rest[i];
        }
      }
    }
  }

  /** The renderings of the elements, one after the other, in order. */
  function Concat<T, U>(xs: seq<T>, render: T -> seq<U>): seq<U> {
    if xs == [] then [] else Concat(xs[..|xs| - 1], render) + render(xs[|xs| - 1])
  }

  /** Rendering two lists one after the other is rendering the first and
      then the second: nothing is dropped, merged or reordered. */
  lemma {:induction false} ConcatAppend<T, U>(a: seq<T>, b: seq<T>, render: T -> seq<U>)
    ensures Concat(a + b, render) == Concat(a, render) + Concat(b, render)
    decreases |b|
  {
    if b == [] {
      assert a + b == a;
    } else {
      var b' := b[..|b| - 1];
      assert (a + b)[..|a + b| - 1] == a + b' && (a + b)[|a + b| - 1] == b[|b| - 1];
      ConcatAppend(a, b', render);
    }
  }

  /** The rendering of three elements. */
  lemma ConcatThree<T, U>(x: T, y: T, z: T, render: T -> seq<U>)
    ensures Concat([x, y, z], render) == render(x) + render(y) + render(z)
  {
    assert [x, y, z][..2] == [x, y];
    assert [x, y][..1] == [x];
    assert [x][..0] == [];
    assert Concat([x], render) == [] + render(x) == render(x);
    assert Concat([x, y], render) == render(x) + render(y);
  }

  /** Proof helper for the summary loops: concatenation regroups
      freely. It states no property of the scanner. */
  lemma AppendAssoc(a: string, b: string, c: string)
    ensures a + b + c == a + (b + c)
  {
  }

  /** Leading white space removed. */
  function TrimLeft(s: string): (r: string)
    ensures |r| <= |s| && r == s[|s| - |r|..]
    ensures AllSpace(s[..|s| - |r|])
    ensures r == [] || !IsSpace(r[0])
  {
    if s != [] && IsSpace(s[0]) then TrimLeft(s[1..]) else s
  }

  /** Trailing white space removed. */
  function TrimRight(s: string): (r: string)
    ensures |r| <= |s| && r == s[..|r|]
    ensures AllSpace(s[|r|..])
    ensures r == [] || !IsSpace(r[|r| - 1])
  {
    if s != [] && IsSpace(s[|s| - 1]) then TrimRight(s[..|s| - 1]) else s
  }

  /** `strings.TrimSpace` over the ASCII white-space set: the result is the
      input with its leading and trailing white space removed. It is empty
      exactly when the input is all white space, and otherwise starts and
      ends with a non-space. */
  function TrimSpace(s: string): (r: string)
    ensures r == [] || (!IsSpace(r[0]) && !IsSpace(r[|r| - 1]))
    ensures r == [] <==> AllSpace(s)
  {
    var t := TrimLeft(s);
    var r := TrimRight(t);
    assert r != [] ==> r[0] == t[0];
    assert AllSpace(s) ==> t == [];
    assert r == [] ==> AllSpace(s) by {
      if r == [] {
        assert t[|r|..] == t;
        AllSpaceAppend(s[..|s| - |t|], t);
        assert s == s[..|s| - |t|] + t;
      }
    }
    r
  }

  lemma AllSpaceAppend(a: string, b: string)
    requires AllSpace(a) && AllSpace(b)
    ensures AllSpace(a + b)
  {
    forall k | 0 <= k < |a + b| ensures IsSpace((a + b)[k]) {
      if k >= |a| {
        assert (a + b)[k] == b[k - |a|];
      }
    }
  }

  /** `r` is the part of `s` from index `i` on, with only white space
      before and after it. */
  predicate StripsTo(s: string, r: string, i: int) {
    0 <= i && i + |r| <= |s| && r == s[i..i + |r|]
    && AllSpace(s[..i]) && AllSpace(s[i + |r|..])
  }

  /** TrimSpace removes white space at the two ends and nothing else: the
      result is a contiguous part of the input, and everything outside it
      is white space. */
  lemma TrimSpaceInfix(s: string)
    ensures exists i :: StripsTo(s, TrimSpace(s), i)
  {
    var t := TrimLeft(s);
    var r := TrimRight(t);
    var i := |s| - |t|;
    assert r == TrimSpace(s);
    assert r == s[i..i + |r|];
    assert s[i + |r|..] == t[|r|..];
    assert StripsTo(s, r, i);
  }

  /** Trimming keeps only characters of the input. */
  lemma TrimSpaceDrawsFrom(s: string, c: char)
    requires c in TrimSpace(s)
    ensures c in s
  {
    var r := TrimSpace(s);
    var i := |s| - |TrimLeft(s)|;
    assert r == s[i..i + |r|];
    var k :| 0 <= k < |r| && r[k] == c;
    assert s[i + k] == c;
  }

  /** A string with no white space at either end is its own trim; in
      particular trimming twice is trimming once. */
  lemma TrimSpaceFixesTrimmed(s: string)
    requires s == [] || (!IsSpace(s[0]) && !IsSpace(s[|s| - 1]))
    ensures TrimSpace(s) == s
  {
  }

  /** A TTY line ending: one carriage return after a trimmed line is
      dropped by TrimSpace. */
  lemma TrimSpaceDropsCarriageReturn(line: string)
    requires line != [] && !IsSpace(line[0]) && !IsSpace(line[|line| - 1])
    ensures TrimSpace(line + "\r") == line
  {
    var s := line + "\r";
    assert TrimLeft(s) == s;
    assert s[..|s| - 1] == line;
  }

  /** The decimal digit character for 0 <= d < 10. */
  function DigitChar(d: int): char
    requires 0 <= d < 10
  {
    ('0' as int + d) as char
  }

  /** The numeric value of a string of decimal digits. */
  function DigitsValue(t: string): nat
    requires forall k :: 0 <= k < |t| ==> '0' <= t[k] <= '9'
  {
    if t == [] then 0
    else DigitsValue(t[..|t| - 1]) * 10 + (t[|t| - 1] as int - '0' as int)
  }

  /** `%d` of a natural number: its decimal digits, most significant first. */
  function NatText(n: nat): string {
    if n < 10 then [DigitChar(n)] else NatText(n / 10) + [DigitChar(n % 10)]
  }

  /** The rendering of a natural number is a non-empty string of decimal
      digits without a leading zero, and reading it back gives the number. */
  lemma {:induction false} NatTextRoundTrip(n: nat)
    ensures var t := NatText(n);
            && |t| >= 1
            && (forall k :: 0 <= k < |t| ==> '0' <= t[k] <= '9')
            && (|t| > 1 ==> t[0] != '0')
            && DigitsValue(t) == n
  {
    if n >= 10 {
      NatTextRoundTrip(n / 10);
      var p := NatText(n / 10);
      var t := p + [DigitChar(n % 10)];
      assert t[..|t| - 1] == p;
    }
  }

  /** `%d` of an integer: a minus sign before the digits of a negative one. */
  function IntText(n: int): string
  {
    if n < 0 then "-" + NatText(-n) else NatText(n)
  }
}
