// Derivation of a pairwise-alignment job result from the two aligned strings
// the aligner produced: the CIGAR string and the match/mismatch/gap statistics
// (api/jobs/tasks.py, _generate_cigar and _calculate_alignment_stats).
module Alignment {
  import opened PyStr
  import opened Errors

  /** M = match or mismatch, I = gap in the second string, D = gap in the first. */
  datatype CigarOp = M | I | D

  function OpChar(op: CigarOp): char {
    match op
    case M => 'M'
    case I => 'I'
    case D => 'D'
  }

  /** The operation of one aligned column; a gap in the first string wins. */
  function OpOf(b1: char, b2: char): CigarOp {
    if b1 == '-' then D else if b2 == '-' then I else M
  }

  /** One operation per column of zip(a, b), which stops at the shorter string. */
  function Ops(a: string, b: string): seq<CigarOp> {
    seq(Min(|a|, |b|), i requires 0 <= i < Min(|a|, |b|) => OpOf(a[i], b[i]))
  }

  /** A run of `count` consecutive columns with the same operation. */
  datatype Run = Run(count: nat, op: CigarOp)

  /** Adds one column to an encoding: the last run grows if it has the same operation. */
  function Extend(runs: seq<Run>, op: CigarOp): seq<Run> {
    if runs != [] && runs[|runs| - 1].op == op
    then runs[..|runs| - 1] + [Run(runs[|runs| - 1].count + 1, op)]
    else runs + [Run(1, op)]
  }

  /** The run-length encoding, built column by column. */
  function Encode(ops: seq<CigarOp>): seq<Run>
    decreases |ops|
  {
    if ops == [] then [] else Extend(Encode(ops[..|ops| - 1]), ops[|ops| - 1])
  }

  function Repeat(n: nat, op: CigarOp): (r: seq<CigarOp>)
    ensures |r| == n && forall k :: 0 <= k < n ==> r[k] == op
  {
    seq(n, _ => op)
  }

  /** The columns an encoding stands for. */
  function Expand(runs: seq<Run>): seq<CigarOp>
    decreases |runs|
  {
    if runs == [] then [] else Expand(runs[..|runs| - 1]) + Repeat(runs[|runs| - 1].count, runs[|runs| - 1].op)
  }

  /** Every run is non-empty and neighbouring runs differ in operation. */
  predicate Canonical(runs: seq<Run>) {
    (forall k :: 0 <= k < |runs| ==> runs[k].count >= 1)
    && (forall k :: 0 < k < |runs| ==> runs[k - 1].op != runs[k].op)
  }

  /** The sum of the run lengths. */
  function Columns(runs: seq<Run>): nat
    decreases |runs|
  {
    if runs == [] then 0 else Columns(runs[..|runs| - 1]) + runs[|runs| - 1].count
  }

  /** The sum of the lengths of the runs with operation `op`. */
  function Total(runs: seq<Run>, op: CigarOp): nat
    decreases |runs|
  {
    if runs == [] then 0
    else Total(runs[..|runs| - 1], op) + (if runs[|runs| - 1].op == op then runs[|runs| - 1].count else 0)
  }

  /** How many elements of s equal x. */
  function Count<T(==)>(s: seq<T>, x: T): nat
    decreases |s|
  {
    if s == [] then 0 else Count(s[..|s| - 1], x) + (if s[|s| - 1] == x then 1 else 0)
  }

  lemma {:induction false} CountAppend<T>(a: seq<T>, b: seq<T>, x: T)
    ensures Count(a + b, x) == Count(a, x) + Count(b, x)
    decreases |b|
  {
    if b == [] {
      assert a + b == a;
    } else {
      assert (a + b)[..|a + b| - 1] == a + b[..|b| - 1];
      CountAppend(a, b[..|b| - 1], x);
    }
  }

  lemma {:induction false} CountRepeat(n: nat, op: CigarOp, x: CigarOp)
    ensures Count(Repeat(n, op), x) == if op == x then n else 0
  {
    if n > 0 {
      assert Repeat(n, op)[..n - 1] == Repeat(n - 1, op);
      CountRepeat(n - 1, op, x);
    }
  }

  // ---------------------------------------------------------------------------
  // The encoding is a run-length encoding, and the only canonical one.

  lemma ExpandExtend(runs: seq<Run>, op: CigarOp)
    ensures Expand(Extend(runs, op)) == Expand(runs) + [op]
  {
    if runs != [] && runs[|runs| - 1].op == op {
      var last := runs[|runs| - 1];
      var e := Extend(runs, op);
      assert e[..|e| - 1] == runs[..|runs| - 1];
      assert Repeat(last.count + 1, op) == Repeat(last.count, op) + [op];
    } else {
      var e := Extend(runs, op);
      assert e[..|e| - 1] == runs;
      assert Repeat(1, op) == [op];
    }
  }

  /** Expanding the encoding of a column sequence gives the columns back. */
  lemma {:induction false} EncodeExpand(ops: seq<CigarOp>)
    ensures Expand(Encode(ops)) == ops
    decreases |ops|
  {
    if ops != [] {
      var init := ops[..|ops| - 1];
      EncodeExpand(init);
      ExpandExtend(Encode(init), ops[|ops| - 1]);
      assert init + [ops[|ops| - 1]] == ops;
    }
  }

  lemma ExtendCanonical(runs: seq<Run>, op: CigarOp)
    requires Canonical(runs)
    ensures Canonical(Extend(runs, op))
    ensures Extend(runs, op) != [] && Extend(runs, op)[|Extend(runs, op)| - 1].op == op
  {
  }

  /** The encoding never has an empty run or two neighbouring runs with the same operation. */
  lemma {:induction false} EncodeCanonical(ops: seq<CigarOp>)
    ensures Canonical(Encode(ops))
    decreases |ops|
  {
    if ops != [] {
      EncodeCanonical(ops[..|ops| - 1]);
      ExtendCanonical(Encode(ops[..|ops| - 1]), ops[|ops| - 1]);
    }
  }

  lemma {:induction false} EncodeLastOp(ops: seq<CigarOp>)
    requires ops != []
    ensures Encode(ops) != [] && Encode(ops)[|Encode(ops)| - 1].op == ops[|ops| - 1]
  {
    EncodeCanonical(ops[..|ops| - 1]);
    ExtendCanonical(Encode(ops[..|ops| - 1]), ops[|ops| - 1]);
  }

  lemma ExtendGrows(p: seq<Run>, k: nat, op: CigarOp)
    ensures Extend(p + [Run(k, op)], op) == p + [Run(k + 1, op)]
  {
    var q := p + [Run(k, op)];
    assert q[..|q| - 1] == p;
  }

  /** Encoding one more column: the encoding of the rest extended by that column. */
  lemma EncodeLast(ys: seq<CigarOp>)
    requires ys != []
    ensures Encode(ys) == Extend(Encode(ys[..|ys| - 1]), ys[|ys| - 1])
  {
  }

  lemma EncodeRepeatOne(xs: seq<CigarOp>, op: CigarOp)
    requires Encode(xs) == [] || Encode(xs)[|Encode(xs)| - 1].op != op
    ensures Encode(xs + Repeat(1, op)) == Encode(xs) + [Run(1, op)]
  {
    var ys := xs + Repeat(1, op);
    EncodeLast(ys);
    assert ys[..|ys| - 1] == xs && ys[|ys| - 1] == op;
  }

  lemma RepeatSnoc(n: nat, op: CigarOp)
    requires n >= 1
    ensures Repeat(n, op) == Repeat(n - 1, op) + [op]
  {
  }

  /** One more column of the same operation lengthens the last run. */
  lemma EncodeRepeatStep(xs: seq<CigarOp>, n: nat, op: CigarOp, e: seq<Run>)
    requires n >= 2
    requires Encode(xs + Repeat(n - 1, op)) == e + [Run(n - 1, op)]
    ensures Encode(xs + Repeat(n, op)) == e + [Run(n, op)]
  {
    var ys := xs + Repeat(n, op);
    RepeatSnoc(n, op);
    assert ys == (xs + Repeat(n - 1, op)) + [op];
    EncodeLast(ys);
    assert ys[..|ys| - 1] == xs + Repeat(n - 1, op);
    ExtendGrows(e, n - 1, op);
  }

  lemma {:induction false} EncodeRepeat(xs: seq<CigarOp>, n: nat, op: CigarOp)
    requires n >= 1
    requires Encode(xs) == [] || Encode(xs)[|Encode(xs)| - 1].op != op
    ensures Encode(xs + Repeat(n, op)) == Encode(xs) + [Run(n, op)]
    decreases n
  {
    if n == 1 {
      EncodeRepeatOne(xs, op);
    } else {
      EncodeRepeat(xs, n - 1, op);
      EncodeRepeatStep(xs, n, op, Encode(xs));
    }
  }

  lemma CanonicalPrefix(runs: seq<Run>)
    requires Canonical(runs) && runs != []
    ensures Canonical(runs[..|runs| - 1])
  {
    var init := runs[..|runs| - 1];
    forall k | 0 < k < |init| ensures init[k - 1].op != init[k].op {
      assert init[k - 1] == runs[k - 1] && init[k] == runs[k];
    }
  }

  /** A canonical encoding is the encoding of what it expands to: the encoding is unique. */
  lemma {:induction false} EncodeUnique(runs: seq<Run>)
    requires Canonical(runs)
    ensures Encode(Expand(runs)) == runs
    decreases |runs|
  {
    if runs != [] {
      var init := runs[..|runs| - 1];
      var last := runs[|runs| - 1];
      CanonicalPrefix(runs);
      EncodeUnique(init);
      assert last.count >= 1;
      assert init != [] ==> init[|init| - 1].op != last.op by {
        if init != [] {
          assert init[|init| - 1] == runs[|runs| - 2];
        }
      }
      EncodeRepeat(Expand(init), last.count, last.op);
      assert Expand(runs) == Expand(init) + Repeat(last.count, last.op);
      assert init + [last] == runs;
    }
  }

  /** The run lengths add up to the number of columns. */
  lemma {:induction false} ColumnsOfExpand(runs: seq<Run>)
    ensures |Expand(runs)| == Columns(runs)
    decreases |runs|
  {
    if runs != [] {
      ColumnsOfExpand(runs[..|runs| - 1]);
    }
  }

  /** The runs of one operation add up to that operation's number of columns. */
  lemma {:induction false} TotalOfExpand(runs: seq<Run>, op: CigarOp)
    ensures Count(Expand(runs), op) == Total(runs, op)
    decreases |runs|
  {
    if runs != [] {
      var init := runs[..|runs| - 1];
      var last := runs[|runs| - 1];
      TotalOfExpand(init, op);
      CountAppend(Expand(init), Repeat(last.count, last.op), op);
      CountRepeat(last.count, last.op, op);
    }
  }

  // ---------------------------------------------------------------------------
  // Rendering: "".join(f"{count}{op}" for each run).

  function Token(r: Run): string {
    NatToString(r.count) + [OpChar(r.op)]
  }

  function Render(runs: seq<Run>): string
    decreases |runs|
  {
    if runs == [] then "" else Token(runs[0]) + Render(runs[1..])
  }

  lemma RenderSnoc(runs: seq<Run>, r: Run)
    ensures Render(runs + [r]) == Render(runs) + Token(r)
    decreases |runs|
  {
    if runs == [] {
      assert runs + [r] == [r];
    } else {
      assert (runs + [r])[1..] == runs[1..] + [r];
      RenderSnoc(runs[1..], r);
    }
  }

  /**
   * The CIGAR string of two aligned strings: it reads back as a canonical run list
   * whose expansion is the column operations of the zipped pairs.
   */
  function Cigar(a: string, b: string): (r: string)
    ensures ParseCigar(r).Some? && Canonical(ParseCigar(r).value) && Expand(ParseCigar(r).value) == Ops(a, b)
  {
    var runs := Encode(Ops(a, b));
    ParseRender(runs);
    CigarIsRunLength(a, b);
    Render(runs)
  }

  /** Encoding one more column: the prefix's encoding extended by that column. */
  lemma EncodeSnoc(ops: seq<CigarOp>, i: nat)
    requires i < |ops|
    ensures Encode(ops[..i + 1]) == Extend(Encode(ops[..i]), ops[i])
  {
    assert ops[..i + 1][..i] == ops[..i];
  }

  /** The column continues the open run. */
  lemma GrowRun(ops: seq<CigarOp>, i: nat, done: seq<Run>, count: nat)
    requires i < |ops| && done + [Run(count, ops[i])] == Encode(ops[..i])
    ensures done + [Run(count + 1, ops[i])] == Encode(ops[..i + 1])
  {
    EncodeSnoc(ops, i);
    var p := done + [Run(count, ops[i])];
    assert p[..|p| - 1] == done;
  }

  /** The column closes the open run and opens a new one. */
  lemma OpenRun(ops: seq<CigarOp>, i: nat, done: seq<Run>, count: nat, op: CigarOp)
    requires i < |ops| && op != ops[i] && done + [Run(count, op)] == Encode(ops[..i])
    ensures (done + [Run(count, op)]) + [Run(1, ops[i])] == Encode(ops[..i + 1])
  {
    EncodeSnoc(ops, i);
  }

  /** The first column opens the first run. */
  lemma FirstRun(ops: seq<CigarOp>)
    requires 0 < |ops|
    ensures [Run(1, ops[0])] == Encode(ops[..1])
  {
    EncodeSnoc(ops, 0);
    assert ops[..0] == [];
  }

  /** The loop of _generate_cigar: open a new run whenever the operation changes. */
  method GenerateCigar(a: string, b: string) returns (cigar: string)
    ensures cigar == Cigar(a, b)
  {
    ghost var ops := Ops(a, b);
    ghost var done: seq<Run> := [];
    var n := Min(|a|, |b|);
    var current: Option<CigarOp> := None;
    var count: nat := 0;
    cigar := "";
    var i := 0;
    while i < n
      invariant 0 <= i <= n && |ops| == n
      invariant current.None? <==> i == 0
      invariant current.Some? ==> done + [Run(count, current.value)] == Encode(ops[..i])
      invariant current.None? ==> done == []
      invariant cigar == Render(done)
    {
      var op;
      if a[i] == '-' {
        op := D;
      } else if b[i] == '-' {
        op := I;
      } else {
        op := M;
      }
      assert op == ops[i];
      if current == Some(op) {
        GrowRun(ops, i, done, count);
        count := count + 1;
      } else {
        if current.Some? {
          OpenRun(ops, i, done, count, current.value);
          RenderSnoc(done, Run(count, current.value));
          cigar := cigar + Token(Run(count, current.value));
          done := done + [Run(count, current.value)];
        } else {
          FirstRun(ops);
        }
        current := Some(op);
        count := 1;
      }
      i := i + 1;
    }
    assert ops[..i] == ops;
    cigar := CloseLast(ops, done, current, count, cigar);
  }

  /** After the loop: the open run, if any, is rendered last. */
  method CloseLast(ghost ops: seq<CigarOp>, ghost done: seq<Run>, current: Option<CigarOp>, count: nat, cigar: string)
    returns (r: string)
    requires current.None? <==> ops == []
    requires current.Some? ==> done + [Run(count, current.value)] == Encode(ops)
    requires current.None? ==> done == []
    requires cigar == Render(done)
    ensures r == Render(Encode(ops))
  {
    r := cigar;
    if current.Some? {
      RenderSnoc(done, Run(count, current.value));
      r := cigar + Token(Run(count, current.value));
    }
  }

  /**
   * The CIGAR string is a run-length encoding of the zipped columns: one run per
   * maximal block of equal operations, lengths adding up to the column count.
   */
  lemma CigarIsRunLength(a: string, b: string)
    ensures Canonical(Encode(Ops(a, b)))
    ensures Expand(Encode(Ops(a, b))) == Ops(a, b)
    ensures Columns(Encode(Ops(a, b))) == Min(|a|, |b|)
  {
    EncodeCanonical(Ops(a, b));
    EncodeExpand(Ops(a, b));
    ColumnsOfExpand(Encode(Ops(a, b)));
  }

  lemma CigarEmpty(a: string, b: string)
    requires a == [] || b == []
    ensures Cigar(a, b) == ""
  {
    assert Ops(a, b) == [];
  }

  // ---------------------------------------------------------------------------
  // Reading a CIGAR string back: rendering loses nothing.

  function CharOp(c: char): Option<CigarOp> {
    if c == 'M' then Some(M) else if c == 'I' then Some(I) else if c == 'D' then Some(D) else None
  }

  /** The leading decimal digits of s. */
  function DigitPrefix(s: string): (d: string)
    ensures |d| <= |s| && d == s[..|d|]
    ensures forall i :: 0 <= i < |d| ==> IsDigit(d[i])
  {
    if s != [] && IsDigit(s[0]) then [s[0]] + DigitPrefix(s[1..]) else []
  }

  lemma {:induction false} DigitPrefixOf(d: string, rest: string)
    requires forall i :: 0 <= i < |d| ==> IsDigit(d[i])
    requires rest != [] && !IsDigit(rest[0])
    ensures DigitPrefix(d + rest) == d
  {
    if d != [] {
      assert (d + rest)[1..] == d[1..] + rest;
      DigitPrefixOf(d[1..], rest);
    }
  }

  /** Parses "<digits><op>" tokens until the end of the string. */
  function ParseCigar(s: string): Option<seq<Run>>
    decreases |s|
  {
    if s == [] then Some([])
    else
      var d := DigitPrefix(s);
      if d == [] || |d| == |s| || CharOp(s[|d|]).None? then None
      else
        match ParseCigar(s[|d| + 1..])
        case None => None
        case Some(rest) => Some([Run(DigitsValue(d), CharOp(s[|d|]).value)] + rest)
  }

  /** A CIGAR string determines its runs. */
  lemma {:induction false} ParseRender(runs: seq<Run>)
    ensures ParseCigar(Render(runs)) == Some(runs)
    decreases |runs|
  {
    if runs != [] {
      var r := runs[0];
      var s := Render(runs);
      var digits := NatToString(r.count);
      var tail := [OpChar(r.op)] + Render(runs[1..]);
      assert s == digits + tail;
      DigitPrefixOf(digits, tail);
      assert DigitPrefix(s) == digits;
      NatToStringValue(r.count);
      assert s[|digits|] == OpChar(r.op);
      assert CharOp(OpChar(r.op)) == Some(r.op) by { match r.op case M => case I => case D => }
      assert s[|digits| + 1..] == Render(runs[1..]);
      ParseRender(runs[1..]);
      assert [r] + runs[1..] == runs;
    }
  }

  // ---------------------------------------------------------------------------
  // Worked examples of the CIGAR encoding.

  lemma ExampleCigar(a: string, b: string, runs: seq<Run>)
    requires Canonical(runs) && Ops(a, b) == Expand(runs)
    ensures Cigar(a, b) == Render(runs)
  {
    EncodeUnique(runs);
  }

  lemma ExpandSnoc(runs: seq<Run>, r: Run)
    ensures Expand(runs + [r]) == Expand(runs) + Repeat(r.count, r.op)
  {
    assert (runs + [r])[..|runs|] == runs;
  }

  lemma RenderThree(r1: Run, r2: Run, r3: Run)
    ensures Render([r1, r2, r3]) == Token(r1) + Token(r2) + Token(r3)
  {
    assert [r1, r2, r3][1..] == [r2, r3] && [r2, r3][1..] == [r3] && [r3][1..] == [];
    assert Render([r3]) == Token(r3);
    assert Render([r2, r3]) == Token(r2) + Token(r3);
  }

  lemma RenderFour(r1: Run, r2: Run, r3: Run, r4: Run)
    ensures Render([r1, r2, r3, r4]) == Token(r1) + (Token(r2) + Token(r3) + Token(r4))
  {
    assert [r1, r2, r3, r4][1..] == [r2, r3, r4];
    RenderThree(r2, r3, r4);
  }

  lemma ExpandOne(r: Run)
    ensures Expand([r]) == Repeat(r.count, r.op)
  {
    assert [r][..0] == [];
  }

  lemma ExpandThree(r1: Run, r2: Run, r3: Run)
    ensures Expand([r1, r2, r3]) == Repeat(r1.count, r1.op) + Repeat(r2.count, r2.op) + Repeat(r3.count, r3.op)
  {
    ExpandOne(r1);
    ExpandSnoc([r1], r2);
    assert [r1] + [r2] == [r1, r2];
    ExpandSnoc([r1, r2], r3);
    assert [r1, r2] + [r3] == [r1, r2, r3];
  }

  lemma ExpandFour(r1: Run, r2: Run, r3: Run, r4: Run)
    ensures Expand([r1, r2, r3, r4]) == Expand([r1, r2, r3]) + Repeat(r4.count, r4.op)
  {
    ExpandSnoc([r1, r2, r3], r4);
    assert [r1, r2, r3] + [r4] == [r1, r2, r3, r4];
  }

  /** The token of a single-digit run. */
  lemma SmallToken(n: nat, op: CigarOp)
    requires 1 <= n < 10
    ensures Token(Run(n, op)) == [DigitChar(n), OpChar(op)]
  {
  }

  lemma SmallRepeats()
    ensures Repeat(1, M) == [M] && Repeat(2, M) == [M, M] && Repeat(4, M) == [M, M, M, M]
    ensures Repeat(2, I) == [I, I] && Repeat(2, D) == [D, D]
  {
  }

  lemma CigarAllMatches()
    ensures Cigar("ATGC", "ATGC") == "4M"
  {
    ExpandOne(Run(4, M));
    SmallRepeats();
    assert Ops("ATGC", "ATGC") == [M, M, M, M];
    ExampleCigar("ATGC", "ATGC", [Run(4, M)]);
    SmallToken(4, M);
  }

  lemma InsertionRuns()
    ensures Ops("ATGC", "A--C") == Expand([Run(1, M), Run(2, I), Run(1, M)])
  {
    ExpandThree(Run(1, M), Run(2, I), Run(1, M));
    SmallRepeats();
    assert Ops("ATGC", "A--C") == [M, I, I, M];
  }

  lemma InsertionRender()
    ensures Render([Run(1, M), Run(2, I), Run(1, M)]) == "1M2I1M"
  {
    RenderThree(Run(1, M), Run(2, I), Run(1, M));
    SmallToken(1, M);
    SmallToken(2, I);
  }

  lemma CigarInsertions()
    ensures Cigar("ATGC", "A--C") == "1M2I1M"
  {
    InsertionRuns();
    ExampleCigar("ATGC", "A--C", [Run(1, M), Run(2, I), Run(1, M)]);
    InsertionRender();
  }

  lemma DeletionRuns()
    ensures Ops("A--C", "ATGC") == Expand([Run(1, M), Run(2, D), Run(1, M)])
  {
    ExpandThree(Run(1, M), Run(2, D), Run(1, M));
    SmallRepeats();
    assert Ops("A--C", "ATGC") == [M, D, D, M];
  }

  lemma DeletionRender()
    ensures Render([Run(1, M), Run(2, D), Run(1, M)]) == "1M2D1M"
  {
    RenderThree(Run(1, M), Run(2, D), Run(1, M));
    SmallToken(1, M);
    SmallToken(2, D);
  }

  lemma CigarDeletions()
    ensures Cigar("A--C", "ATGC") == "1M2D1M"
  {
    DeletionRuns();
    ExampleCigar("A--C", "ATGC", [Run(1, M), Run(2, D), Run(1, M)]);
    DeletionRender();
  }

  lemma MixedRuns()
    ensures Ops("ATGC--ATGC", "AT--GGATGC") == Expand([Run(2, M), Run(2, I), Run(2, D), Run(4, M)])
  {
    ExpandFour(Run(2, M), Run(2, I), Run(2, D), Run(4, M));
    ExpandThree(Run(2, M), Run(2, I), Run(2, D));
    SmallRepeats();
    assert Ops("ATGC--ATGC", "AT--GGATGC") == [M, M, I, I, D, D, M, M, M, M];
  }

  lemma MixedRender()
    ensures Render([Run(2, M), Run(2, I), Run(2, D), Run(4, M)]) == "2M2I2D4M"
  {
    RenderFour(Run(2, M), Run(2, I), Run(2, D), Run(4, M));
    SmallToken(2, M);
    SmallToken(2, I);
    SmallToken(2, D);
    SmallToken(4, M);
  }

  lemma CigarMixed()
    ensures Cigar("ATGC--ATGC", "AT--GGATGC") == "2M2I2D4M"
  {
    MixedRuns();
    ExampleCigar("ATGC--ATGC", "AT--GGATGC", [Run(2, M), Run(2, I), Run(2, D), Run(4, M)]);
    MixedRender();
  }

  /** Identical gap-free strings give the single run "{n}M". */
  lemma IdenticalSequences(s: string)
    requires s != [] && '-' !in s
    ensures Cigar(s, s) == NatToString(|s|) + "M"
  {
    var runs := [Run(|s|, M)];
    assert runs[..0] == [];
    assert Ops(s, s) == Expand(runs);
    ExampleCigar(s, s, runs);
  }

  // ---------------------------------------------------------------------------
  // Alignment statistics.

  /** How _calculate_alignment_stats classifies one column. */
  datatype Column = Gap | Match | Mismatch

  function ColumnOf(b1: char, b2: char): Column {
    if b1 == '-' || b2 == '-' then Gap else if b1 == b2 then Match else Mismatch
  }

  function Classify(a: string, b: string): seq<Column> {
    seq(Min(|a|, |b|), i requires 0 <= i < Min(|a|, |b|) => ColumnOf(a[i], b[i]))
  }

  /** A percentage held exactly as num / den (den > 0) instead of a rounded float. */
  datatype Ratio = Ratio(num: nat, den: nat)

  datatype Stats = Stats(alignmentLength: nat, matches: nat, mismatches: nat, gaps: nat, identity: Ratio)

  /** What _calculate_alignment_stats promises about the rows a and b. */
  predicate StatsOf(st: Stats, a: string, b: string) {
    var cs := Classify(a, b);
    st.alignmentLength == |a|
    && st.matches == Count(cs, Match)
    && st.mismatches == Count(cs, Mismatch)
    && st.gaps == Count(cs, Gap)
    && st.identity == (if |a| - st.gaps > 0 then Ratio(100 * st.matches, |a| - st.gaps) else Ratio(0, 1))
  }

  lemma {:induction false} ClassCountsSum(cs: seq<Column>)
    ensures Count(cs, Gap) + Count(cs, Match) + Count(cs, Mismatch) == |cs|
    decreases |cs|
  {
    if cs != [] {
      var init := cs[..|cs| - 1];
      ClassCountsSum(init);
      assert Count(cs, Gap) == Count(init, Gap) + (if cs[|cs| - 1] == Gap then 1 else 0);
      assert Count(cs, Match) == Count(init, Match) + (if cs[|cs| - 1] == Match then 1 else 0);
      assert Count(cs, Mismatch) == Count(init, Mismatch) + (if cs[|cs| - 1] == Mismatch then 1 else 0);
    }
  }

  /**
   * The loop of _calculate_alignment_stats. The alignment length is the length of
   * the first string, while the counts cover only the zipped columns.
   */
  method CalculateAlignmentStats(a: string, b: string) returns (st: Stats)
    ensures st.alignmentLength == |a|
    ensures st.matches == Count(Classify(a, b), Match)
    ensures st.mismatches == Count(Classify(a, b), Mismatch)
    ensures st.gaps == Count(Classify(a, b), Gap)
    ensures st.matches + st.mismatches + st.gaps == Min(|a|, |b|)
    ensures st.identity.den > 0 && st.identity.num <= 100 * st.identity.den
    ensures |a| - st.gaps > 0 ==> st.identity == Ratio(100 * st.matches, |a| - st.gaps)
    ensures |a| - st.gaps <= 0 ==> st.identity == Ratio(0, 1)
    ensures StatsOf(st, a, b)
  {
    ghost var cs := Classify(a, b);
    var matches, mismatches, gaps := 0, 0, 0;
    var n := Min(|a|, |b|);
    var i := 0;
    while i < n
      invariant 0 <= i <= n && |cs| == n
      invariant matches == Count(cs[..i], Match)
      invariant mismatches == Count(cs[..i], Mismatch)
      invariant gaps == Count(cs[..i], Gap)
    {
      assert cs[..i + 1][..i] == cs[..i];
      if a[i] == '-' || b[i] == '-' {
        gaps := gaps + 1;
      } else if a[i] == b[i] {
        matches := matches + 1;
      } else {
        mismatches := mismatches + 1;
      }
      i := i + 1;
    }
    assert cs[..i] == cs;
    ClassCountsSum(cs);
    var nonGap := |a| - gaps;
    var identity := if nonGap > 0 then Ratio(100 * matches, nonGap) else Ratio(0, 1);
    st := Stats(|a|, matches, mismatches, gaps, identity);
  }

  /** The CIGAR and the statistics agree: M columns are the non-gap ones, I and D the gaps. */
  lemma {:induction false} OpsAgreeWithColumns(a: string, b: string, n: nat)
    requires n <= Min(|a|, |b|)
    ensures Count(Ops(a, b)[..n], M) == Count(Classify(a, b)[..n], Match) + Count(Classify(a, b)[..n], Mismatch)
    ensures Count(Ops(a, b)[..n], I) + Count(Ops(a, b)[..n], D) == Count(Classify(a, b)[..n], Gap)
  {
    if n > 0 {
      OpsAgreeWithColumns(a, b, n - 1);
      assert Ops(a, b)[..n][..n - 1] == Ops(a, b)[..n - 1];
      assert Classify(a, b)[..n][..n - 1] == Classify(a, b)[..n - 1];
    }
  }

  lemma CigarMatchesStats(a: string, b: string)
    ensures Total(Encode(Ops(a, b)), M) == Count(Classify(a, b), Match) + Count(Classify(a, b), Mismatch)
    ensures Total(Encode(Ops(a, b)), I) + Total(Encode(Ops(a, b)), D) == Count(Classify(a, b), Gap)
  {
    var ops := Ops(a, b);
    EncodeExpand(ops);
    TotalOfExpand(Encode(ops), M);
    TotalOfExpand(Encode(ops), I);
    TotalOfExpand(Encode(ops), D);
    OpsAgreeWithColumns(a, b, Min(|a|, |b|));
    assert ops[..Min(|a|, |b|)] == ops;
    assert Classify(a, b)[..Min(|a|, |b|)] == Classify(a, b);
  }

  /**
   * "ATGC--" against "AT--GC": two matches and four gaps, so the identity is
   * 100 * 2 / (6 - 4), that is 100 percent.
   */
  lemma StatsWithGaps()
    ensures Classify("ATGC--", "AT--GC") == [Match, Match, Gap, Gap, Gap, Gap]
    ensures Count(Classify("ATGC--", "AT--GC"), Match) == 2
    ensures Count(Classify("ATGC--", "AT--GC"), Mismatch) == 0
    ensures Count(Classify("ATGC--", "AT--GC"), Gap) == 4
    ensures forall st :: StatsOf(st, "ATGC--", "AT--GC") ==>
              st.identity == Ratio(200, 2) && st.identity.num == 100 * st.identity.den
  {
    var cs := Classify("ATGC--", "AT--GC");
    var p2 := [Match, Match];
    var p3 := p2 + [Gap];
    var p4 := p3 + [Gap];
    var p5 := p4 + [Gap];
    assert cs == p5 + [Gap];
    assert cs[..5] == p5 && p5[..4] == p4 && p4[..3] == p3 && p3[..2] == p2;
    assert p2[..1] == [Match] && [Match][..0] == [];
    forall x: Column ensures Count(cs, x) == Count(p2, x) + 4 * (if x == Gap then 1 else 0) {
      assert Count(p3, x) == Count(p2, x) + (if x == Gap then 1 else 0);
      assert Count(p4, x) == Count(p3, x) + (if x == Gap then 1 else 0);
      assert Count(p5, x) == Count(p4, x) + (if x == Gap then 1 else 0);
    }
  }
}
