// The FASTA parser (api/sequences/fasta_parser.py). The content is stripped and
// split on "\n", and the lines are numbered from 1 in that stripped content. A
// header line ">name description" opens a record. The whitespace-free text of
// the data lines that follow it becomes the record's sequence data.
module Fasta {
  import opened Errors
  import opened PyStr

  /** FastaSequence: the name (first token of the header), the data and the optional description. */
  datatype FastaRecord = FastaRecord(header: string, sequenceData: string, description: Option<string>)

  /** A parsed header line. */
  datatype Header = Header(name: string, description: Option<string>)

  /** file_content.strip().split("\n"): always at least one line. */
  function FastaLines(content: string): (r: seq<string>)
    ensures |r| >= 1
  {
    Split(Strip(content), '\n')
  }

  predicate NameOk(name: string) {
    name != [] && forall i :: 0 <= i < |name| ==> !IsSpace(name[i])
  }

  predicate DescriptionOk(description: Option<string>) {
    description.Some? ==> description.value != [] && !IsSpace(description.value[0])
  }

  /**
   * The header after '>': None when it is blank; otherwise its first
   * whitespace-delimited token is the name and the rest, if any, the description.
   */
  function ParseHeader(text: string): (r: Option<Header>)
    ensures r.None? <==> AllSpace(text)
    ensures r.Some? ==> NameOk(r.value.name) && DescriptionOk(r.value.description)
    ensures r.Some? ==> r.value.name == Token(Strip(text))
    ensures r.Some? ==>
              var rest := LStrip(Strip(text)[|r.value.name|..]);
              r.value.description == if rest == [] then None else Some(rest)
  {
    var h := Strip(text);
    if h == [] then None
    else
      assert !IsSpace(h[0]);
      var parts := SplitOnce(h);
      Some(Header(parts[0], if |parts| > 1 then Some(parts[1]) else None))
  }

  /** How the loop reads one line once it is stripped. */
  datatype Line = BlankLine | HeaderLine(header: Option<Header>) | DataLine(text: string)

  /**
   * A line is blank iff it is all whitespace. Otherwise it is a header iff its
   * first non-space character is '>'. A data line's text is the line with its
   * whitespace removed, and is never empty.
   */
  function Classify(line: string): (c: Line)
    ensures c.BlankLine? <==> AllSpace(line)
    ensures c.HeaderLine? <==> !AllSpace(line) && Strip(line)[0] == '>'
    ensures c.HeaderLine? ==> c.header == ParseHeader(Strip(line)[1..])
    ensures c.DataLine? ==> c.text == RemoveSpace(line) && c.text != []
  {
    var l := Strip(line);
    if l == [] then BlankLine
    else if l[0] == '>' then HeaderLine(ParseHeader(l[1..]))
    else
      StripRemoveSpace(line);
      DataLine(RemoveSpace(l))
  }

  /** Stripping only removes whitespace, so it does not change the whitespace-free text. */
  lemma StripRemoveSpace(s: string)
    ensures RemoveSpace(Strip(s)) == RemoveSpace(s)
    ensures Strip(s) != [] ==> RemoveSpace(s) != []
  {
    LStripRemoveSpace(s);
    RStripRemoveSpace(LStrip(s));
    var t := Strip(s);
    if t != [] {
      assert RemoveSpace(t) == [t[0]] + RemoveSpace(t[1..]);
    }
  }

  lemma {:induction false} LStripRemoveSpace(s: string)
    ensures RemoveSpace(LStrip(s)) == RemoveSpace(s)
  {
    if |s| > 0 && IsSpace(s[0]) {
      LStripRemoveSpace(s[1..]);
    }
  }

  lemma {:induction false} RStripRemoveSpace(s: string)
    ensures RemoveSpace(RStrip(s)) == RemoveSpace(s)
  {
    if |s| > 0 && IsSpace(s[|s| - 1]) {
      var init := s[..|s| - 1];
      RStripRemoveSpace(init);
      assert s == init + [s[|s| - 1]];
      RemoveSpaceAppend(init, [s[|s| - 1]]);
      assert RemoveSpace([s[|s| - 1]]) == [];
    }
  }


  /** The classified lines of the content. */
  function ClassifyAll(lines: seq<string>): (ls: seq<Line>)
    ensures |ls| == |lines|
  {
    if lines == [] then [] else [Classify(lines[0])] + ClassifyAll(lines[1..])
  }

  lemma {:induction false} ClassifyAt(lines: seq<string>, k: nat)
    requires k < |lines|
    ensures ClassifyAll(lines)[k] == Classify(lines[k])
  {
    if k > 0 {
      ClassifyAt(lines[1..], k - 1);
    }
  }

  /** Some line is non-blank iff some classified line is. */
  lemma AnyNonBlankLine(lines: seq<string>)
    ensures AnyNonBlank(ClassifyAll(lines)) <==> HasNonBlank(lines)
  {
    var ls := ClassifyAll(lines);
    if AnyNonBlank(ls) {
      var k :| 0 <= k < |ls| && !ls[k].BlankLine?;
      ClassifyAt(lines, k);
    }
    if exists k :: 0 <= k < |lines| && Strip(lines[k]) != [] {
      var k :| 0 <= k < |lines| && Strip(lines[k]) != [];
      ClassifyAt(lines, k);
      assert !ls[k].BlankLine?;
    }
  }

  /** "".join(parts) */
  function Concat(parts: seq<string>): string {
    if parts == [] then [] else Concat(parts[..|parts| - 1]) + parts[|parts| - 1]
  }

  // ---------------------------------------------------------------------------
  // The parser as a fold over the classified lines.

  /** The loop state: finished records, the open header, and its data lines so far. */
  datatype Scan = Scan(records: seq<FastaRecord>, current: Option<Header>, pending: seq<string>)

  const Start: Scan := Scan([], None, [])

  /** The records with the open header's record appended. */
  function Close(st: Scan): seq<FastaRecord>
    requires st.current.Some?
  {
    st.records + [FastaRecord(st.current.value.name, Concat(st.pending), st.current.value.description)]
  }

  /** One iteration of the loop, on the line numbered lineNo. */
  function Step(st: Scan, line: Line, lineNo: nat): Result<Scan> {
    match line
    case BlankLine => Success(st)
    case HeaderLine(header) =>
      if st.current.Some? && st.pending == [] then
        Failure(Validation(NoSequenceData(st.current.value.name)))
      else
        var records := if st.current.Some? then Close(st) else st.records;
        if header.None? then Failure(Validation(EmptyHeader(lineNo)))
        else Success(Scan(records, header, []))
    case DataLine(text) =>
      if st.current.None? then Failure(Validation(DataBeforeHeader(lineNo)))
      else if text == [] then Success(st)
      else Success(st.(pending := st.pending + [text]))
  }

  /** The loop from line index i on. */
  function ScanFrom(ls: seq<Line>, i: nat, st: Scan): Result<Scan>
    requires i <= |ls|
    decreases |ls| - i
  {
    if i == |ls| then Success(st)
    else
      match Step(st, ls[i], i + 1)
      case Failure(e) => Failure(e)
      case Success(next) => ScanFrom(ls, i + 1, next)
  }

  /** After the loop: close the open record and reject an empty result. */
  function Finish(st: Scan): Result<seq<FastaRecord>> {
    if st.current.Some? && st.pending == [] then
      Failure(Validation(NoSequenceData(st.current.value.name)))
    else
      var records := if st.current.Some? then Close(st) else st.records;
      if records == [] then Failure(Validation(NoValidSequences)) else Success(records)
  }

  predicate AnyNonBlank(ls: seq<Line>) {
    exists k :: 0 <= k < |ls| && !ls[k].BlankLine?
  }

  /** The error the loop raised, or the records once the last one is saved. */
  function Outcome(scanned: Result<Scan>): Result<seq<FastaRecord>> {
    match scanned
    case Failure(e) => Failure(e)
    case Success(st) => Finish(st)
  }

  /** parse_fasta as a function of the classified lines. */
  function ParseLines(ls: seq<Line>): Result<seq<FastaRecord>> {
    if !AnyNonBlank(ls) then Failure(Validation(FastaEmpty)) else Outcome(ScanFrom(ls, 0, Start))
  }

  /** parse_fasta as a function of the file content. */
  function Parse(content: string): Result<seq<FastaRecord>> {
    ParseLines(ClassifyAll(FastaLines(content)))
  }

  /** The scan state's view of the method's current_header / current_description pair. */
  function OpenHeader(name: Option<string>, description: Option<string>): Option<Header> {
    if name.Some? then Some(Header(name.value, description)) else None
  }

  /** any(line.strip() for line in lines) */
  predicate HasNonBlank(lines: seq<string>) {
    exists k :: 0 <= k < |lines| && Strip(lines[k]) != []
  }

  /** parse_fasta: the emptiness check, then the loop over the lines. */
  method ParseFasta(fileContent: string) returns (r: Result<seq<FastaRecord>>)
    ensures r == Parse(fileContent)
  {
    var lines := FastaLines(fileContent);
    AnyNonBlankLine(lines);
    if !HasNonBlank(lines) {
      return Failure(Validation(FastaEmpty));
    }
    r := ReadRecords(lines);
  }

  /** The loop of parse_fasta, with its mutable state, and the saving of the last record. */
  method ReadRecords(lines: seq<string>) returns (r: Result<seq<FastaRecord>>)
    ensures r == Outcome(ScanFrom(ClassifyAll(lines), 0, Start))
  {
    var sequences: seq<FastaRecord> := [];
    var currentHeader: Option<string> := None;
    var currentDescription: Option<string> := None;
    var currentSequenceLines: seq<string> := [];
    ghost var ls := ClassifyAll(lines);

    for i := 0 to |lines|
      invariant currentHeader.None? ==> sequences == [] && currentSequenceLines == []
      invariant ScanFrom(ls, 0, Start)
                == ScanFrom(ls, i, Scan(sequences, OpenHeader(currentHeader, currentDescription), currentSequenceLines))
    {
      var failure;
      failure, sequences, currentHeader, currentDescription, currentSequenceLines :=
        ReadLineAt(lines, ls, i, sequences, currentHeader, currentDescription, currentSequenceLines);
      if failure.Some? {
        return Failure(failure.value);
      }
    }

    r := SaveLast(sequences, currentHeader, currentDescription, currentSequenceLines);
  }

  /** One pass of the loop, stated as one step of the scan over the classified lines. */
  method ReadLineAt(lines: seq<string>, ghost ls: seq<Line>, i: nat, sequences: seq<FastaRecord>,
                    currentHeader: Option<string>, currentDescription: Option<string>, currentSequenceLines: seq<string>)
    returns (failure: Option<Error>, sequences': seq<FastaRecord>, currentHeader': Option<string>,
             currentDescription': Option<string>, currentSequenceLines': seq<string>)
    requires ls == ClassifyAll(lines) && i < |lines|
    requires currentHeader.None? ==> sequences == [] && currentSequenceLines == []
    ensures currentHeader'.None? ==> sequences' == [] && currentSequenceLines' == []
    ensures failure.Some? ==>
              ScanFrom(ls, i, Scan(sequences, OpenHeader(currentHeader, currentDescription), currentSequenceLines))
              == Failure(failure.value)
    ensures failure.None? ==>
              ScanFrom(ls, i, Scan(sequences, OpenHeader(currentHeader, currentDescription), currentSequenceLines))
              == ScanFrom(ls, i + 1, Scan(sequences', OpenHeader(currentHeader', currentDescription'), currentSequenceLines'))
  {
    ghost var st := Scan(sequences, OpenHeader(currentHeader, currentDescription), currentSequenceLines);
    ClassifyAt(lines, i);
    failure, sequences', currentHeader', currentDescription', currentSequenceLines' :=
      ReadLine(lines[i], ls[i], i + 1, sequences, currentHeader, currentDescription, currentSequenceLines);
    ScanFromStep(ls, i, st, Step(st, ls[i], i + 1));
  }

  /** The loop goes on from the next line, or stops with the error of this one. */
  lemma ScanFromStep(ls: seq<Line>, i: nat, st: Scan, step: Result<Scan>)
    requires i < |ls| && step == Step(st, ls[i], i + 1)
    ensures step.Failure? ==> ScanFrom(ls, i, st) == Failure(step.error)
    ensures step.Success? ==> ScanFrom(ls, i, st) == ScanFrom(ls, i + 1, step.value)
  {
  }

  /** The body of the loop of parse_fasta on one line: a raised error, or the updated loop variables. */
  method ReadLine(rawLine: string, ghost c: Line, lineNum: nat, sequences: seq<FastaRecord>, currentHeader: Option<string>,
                  currentDescription: Option<string>, currentSequenceLines: seq<string>)
    returns (failure: Option<Error>, sequences': seq<FastaRecord>, currentHeader': Option<string>,
             currentDescription': Option<string>, currentSequenceLines': seq<string>)
    requires c == Classify(rawLine)
    requires currentHeader.None? ==> sequences == [] && currentSequenceLines == []
    ensures currentHeader'.None? ==> sequences' == [] && currentSequenceLines' == []
    ensures var step := Step(Scan(sequences, OpenHeader(currentHeader, currentDescription), currentSequenceLines),
                             c, lineNum);
            if failure.Some? then step == Failure(failure.value)
            else step == Success(Scan(sequences', OpenHeader(currentHeader', currentDescription'), currentSequenceLines'))
  {
    failure, sequences', currentHeader', currentDescription', currentSequenceLines' :=
      None, sequences, currentHeader, currentDescription, currentSequenceLines;
    var line := Strip(rawLine);
    if line == [] {
      return;
    }
    if line[0] == '>' {
      if currentHeader.Some? {
        if currentSequenceLines == [] {
          failure := Some(Validation(NoSequenceData(currentHeader.value)));
          return;
        }
        sequences' := sequences + [FastaRecord(currentHeader.value, Concat(currentSequenceLines), currentDescription)];
      }
      var headerLine := Strip(line[1..]);
      if headerLine == [] {
        failure := Some(Validation(EmptyHeader(lineNum)));
        return;
      }
      assert !IsSpace(headerLine[0]);
      var parts := SplitOnce(headerLine);
      currentHeader' := Some(parts[0]);
      currentDescription' := if |parts| > 1 then Some(parts[1]) else None;
      currentSequenceLines' := [];
    } else {
      if currentHeader.None? {
        failure := Some(Validation(DataBeforeHeader(lineNum)));
        return;
      }
      var sequenceLine := RemoveSpace(line);
      StripRemoveSpace(rawLine);
      if sequenceLine != [] {
        currentSequenceLines' := currentSequenceLines + [sequenceLine];
      }
    }
  }

  /** After the loop of parse_fasta: the last record is saved, and an empty result is refused. */
  method SaveLast(sequences: seq<FastaRecord>, currentHeader: Option<string>, currentDescription: Option<string>,
                  currentSequenceLines: seq<string>) returns (r: Result<seq<FastaRecord>>)
    ensures r == Finish(Scan(sequences, OpenHeader(currentHeader, currentDescription), currentSequenceLines))
  {
    var records := sequences;
    if currentHeader.Some? {
      if currentSequenceLines == [] {
        return Failure(Validation(NoSequenceData(currentHeader.value)));
      }
      records := records + [FastaRecord(currentHeader.value, Concat(currentSequenceLines), currentDescription)];
    }
    if records == [] {
      return Failure(Validation(NoValidSequences));
    }
    return Success(records);
  }

  // ---------------------------------------------------------------------------
  // What the lines determine: the header names and the data text, in file order.

  /** The names of the header lines, in order ("" for an empty header, which the parser rejects). */
  function HeaderNames(ls: seq<Line>): seq<string> {
    if ls == [] then []
    else
      var last := ls[|ls| - 1];
      HeaderNames(ls[..|ls| - 1])
      + (if last.HeaderLine? then [if last.header.Some? then last.header.value.name else ""] else [])
  }

  /** The text of the data lines, whitespace removed, concatenated in order. */
  function DataText(ls: seq<Line>): string {
    if ls == [] then []
    else
      var last := ls[|ls| - 1];
      DataText(ls[..|ls| - 1]) + (if last.DataLine? then last.text else [])
  }

  /** A header line's record before any data is read: its name, its description and no data. */
  function Opened(h: Option<Header>): FastaRecord {
    if h.Some? then FastaRecord(h.value.name, [], h.value.description) else FastaRecord("", [], None)
  }

  /**
   * One line of the grouping: a header opens a record, a data line's text is
   * appended to the record opened last, and a blank line changes nothing.
   */
  function GroupStep(groups: seq<FastaRecord>, line: Line): seq<FastaRecord> {
    match line
    case BlankLine => groups
    case HeaderLine(h) => groups + [Opened(h)]
    case DataLine(text) =>
      if groups == [] then []
      else
        var last := groups[|groups| - 1];
        groups[..|groups| - 1] + [last.(sequenceData := last.sequenceData + text)]
  }

  /**
   * The records the header lines delimit, read without the parser's checks:
   * record k has the name and description of the k-th header line and, as its
   * data, the text of the data lines between that header and the next one.
   */
  function Groups(ls: seq<Line>): seq<FastaRecord> {
    if ls == [] then [] else GroupStep(Groups(ls[..|ls| - 1]), ls[|ls| - 1])
  }

  function Names(records: seq<FastaRecord>): seq<string> {
    if records == [] then [] else Names(records[..|records| - 1]) + [records[|records| - 1].header]
  }

  function AllData(records: seq<FastaRecord>): string {
    if records == [] then [] else AllData(records[..|records| - 1]) + records[|records| - 1].sequenceData
  }

  predicate RecordOk(r: FastaRecord) {
    NameOk(r.header) && DescriptionOk(r.description) && r.sequenceData != []
  }

  /** Every record has a non-empty, space-free name, a well-formed description and non-empty data. */
  predicate RecordsOk(records: seq<FastaRecord>) {
    forall k :: 0 <= k < |records| ==> RecordOk(records[k])
  }

  predicate LineOk(line: Line) {
    (line.HeaderLine? && line.header.Some? ==> NameOk(line.header.value.name) && DescriptionOk(line.header.value.description))
    && (line.DataLine? ==> line.text != [])
  }

  predicate LinesOk(ls: seq<Line>) {
    forall k :: 0 <= k < |ls| ==> LineOk(ls[k])
  }

  /** The records so far with the open one closed as it stands. */
  function Partial(st: Scan): seq<FastaRecord> {
    if st.current.Some? then Close(st) else st.records
  }

  function OpenNames(st: Scan): seq<string> {
    if st.current.Some? then [st.current.value.name] else []
  }

  predicate PendingOk(pending: seq<string>) {
    forall k :: 0 <= k < |pending| ==> pending[k] != []
  }

  /** What holds of the loop state after the first i lines. */
  predicate Inv(ls: seq<Line>, i: nat, st: Scan) {
    i <= |ls|
    && Names(st.records) + OpenNames(st) == HeaderNames(ls[..i])
    && AllData(st.records) + Concat(st.pending) == DataText(ls[..i])
    && Partial(st) == Groups(ls[..i])
    && (st.current.None? ==> st.records == [] && st.pending == [])
    && (AnyNonBlank(ls[..i]) ==> st.current.Some?)
    && RecordsOk(st.records)
    && PendingOk(st.pending)
    && (st.current.Some? ==> NameOk(st.current.value.name) && DescriptionOk(st.current.value.description))
  }

  /** The errors a scan can raise, each with the line that causes it. */
  predicate Explained(ls: seq<Line>, e: Error) {
    e.Validation? &&
    match e.reason
    case DataBeforeHeader(n) => 1 <= n <= |ls| && ls[n - 1].DataLine? && HeaderNames(ls[..n - 1]) == []
    case EmptyHeader(n) => 1 <= n <= |ls| && ls[n - 1] == HeaderLine(None)
    case NoSequenceData(h) => h in HeaderNames(ls)
    case _ => false
  }

  lemma HeaderNamesPrefix(ls: seq<Line>, i: nat)
    requires i <= |ls|
    ensures HeaderNames(ls[..i]) <= HeaderNames(ls)
    decreases |ls|
  {
    if i < |ls| {
      var init := ls[..|ls| - 1];
      assert init[..i] == ls[..i];
      HeaderNamesPrefix(init, i);
    } else {
      assert ls[..i] == ls;
    }
  }

  lemma ConcatSnoc(parts: seq<string>, d: string)
    ensures Concat(parts + [d]) == Concat(parts) + d
  {
    assert (parts + [d])[..|parts|] == parts;
  }

  lemma CloseFacts(st: Scan)
    requires st.current.Some?
    ensures Names(Close(st)) == Names(st.records) + [st.current.value.name]
    ensures AllData(Close(st)) == AllData(st.records) + Concat(st.pending)
  {
    assert Close(st)[..|st.records|] == st.records;
  }

  lemma RecordsOkSnoc(records: seq<FastaRecord>, r: FastaRecord)
    requires RecordsOk(records) && RecordOk(r)
    ensures RecordsOk(records + [r])
  {
    forall k | 0 <= k < |records| + 1 ensures RecordOk((records + [r])[k]) {
      if k < |records| {
        assert (records + [r])[k] == records[k];
      }
    }
  }

  /** Closing a record with data yields well-formed records. */
  lemma CloseOk(st: Scan)
    requires st.current.Some? && NameOk(st.current.value.name) && DescriptionOk(st.current.value.description)
    requires RecordsOk(st.records) && PendingOk(st.pending) && st.pending != []
    ensures RecordsOk(Close(st))
  {
    assert st.pending[|st.pending| - 1] != [];
    var last := FastaRecord(st.current.value.name, Concat(st.pending), st.current.value.description);
    assert RecordOk(last);
    RecordsOkSnoc(st.records, last);
  }

  /** Extending the lines read by one. */
  lemma PrefixStep(ls: seq<Line>, i: nat)
    requires i < |ls|
    ensures HeaderNames(ls[..i + 1]) == HeaderNames(ls[..i])
              + (if ls[i].HeaderLine? then [if ls[i].header.Some? then ls[i].header.value.name else ""] else [])
    ensures DataText(ls[..i + 1]) == DataText(ls[..i]) + (if ls[i].DataLine? then ls[i].text else [])
    ensures Groups(ls[..i + 1]) == GroupStep(Groups(ls[..i]), ls[i])
    ensures AnyNonBlank(ls[..i + 1]) ==> AnyNonBlank(ls[..i]) || !ls[i].BlankLine?
  {
    var pre := ls[..i + 1];
    assert pre[..i] == ls[..i] && pre[i] == ls[i];
    if AnyNonBlank(pre) {
      var k :| 0 <= k < |pre| && !pre[k].BlankLine?;
      if k < i {
        assert ls[..i][k] == pre[k];
      }
    }
  }

  lemma StepFacts(ls: seq<Line>, i: nat, st: Scan)
    requires i < |ls| && Inv(ls, i, st) && LineOk(ls[i])
    ensures Step(st, ls[i], i + 1).Success? ==> Inv(ls, i + 1, Step(st, ls[i], i + 1).value)
    ensures Step(st, ls[i], i + 1).Failure? ==> Explained(ls, Step(st, ls[i], i + 1).error)
  {
    PrefixStep(ls, i);
    match ls[i]
    case BlankLine =>
      assert Step(st, ls[i], i + 1) == Success(st);
    case HeaderLine(header) =>
      HeaderStepFacts(ls, i, st);
    case DataLine(text) =>
      DataStepFacts(ls, i, st);
  }

  lemma HeaderStepFacts(ls: seq<Line>, i: nat, st: Scan)
    requires i < |ls| && ls[i].HeaderLine? && Inv(ls, i, st) && LineOk(ls[i])
    requires HeaderNames(ls[..i + 1]) == HeaderNames(ls[..i])
               + [if ls[i].header.Some? then ls[i].header.value.name else ""]
    requires DataText(ls[..i + 1]) == DataText(ls[..i])
    requires Groups(ls[..i + 1]) == GroupStep(Groups(ls[..i]), ls[i])
    ensures Step(st, ls[i], i + 1).Success? ==> Inv(ls, i + 1, Step(st, ls[i], i + 1).value)
    ensures Step(st, ls[i], i + 1).Failure? ==> Explained(ls, Step(st, ls[i], i + 1).error)
  {
    if st.current.Some? && st.pending == [] {
      HeaderNamesPrefix(ls, i);
      assert st.current.value.name in Names(st.records) + OpenNames(st);
    } else if st.current.Some? {
      CloseFacts(st);
      CloseOk(st);
    }
  }

  lemma DataStepFacts(ls: seq<Line>, i: nat, st: Scan)
    requires i < |ls| && ls[i].DataLine? && Inv(ls, i, st) && LineOk(ls[i])
    requires HeaderNames(ls[..i + 1]) == HeaderNames(ls[..i])
    requires DataText(ls[..i + 1]) == DataText(ls[..i]) + ls[i].text
    requires Groups(ls[..i + 1]) == GroupStep(Groups(ls[..i]), ls[i])
    ensures Step(st, ls[i], i + 1).Success? ==> Inv(ls, i + 1, Step(st, ls[i], i + 1).value)
    ensures Step(st, ls[i], i + 1).Failure? ==> Explained(ls, Step(st, ls[i], i + 1).error)
  {
    if st.current.Some? {
      ConcatSnoc(st.pending, ls[i].text);
      assert Close(st)[..|st.records|] == st.records;
    }
  }

  lemma {:induction false} ScanFacts(ls: seq<Line>, i: nat, st: Scan)
    requires i <= |ls| && Inv(ls, i, st) && LinesOk(ls)
    ensures ScanFrom(ls, i, st).Success? ==> Inv(ls, |ls|, ScanFrom(ls, i, st).value)
    ensures ScanFrom(ls, i, st).Failure? ==> Explained(ls, ScanFrom(ls, i, st).error)
    decreases |ls| - i
  {
    if i < |ls| {
      StepFacts(ls, i, st);
      match Step(st, ls[i], i + 1)
      case Failure(e) =>
      case Success(next) => ScanFacts(ls, i + 1, next);
    }
  }

  /**
   * Parsing classified lines: "FASTA file is empty" exactly when every line is
   * blank; on success at least one well-formed record, with the header names in
   * order and the data text in order; every other failure is one of the three
   * format errors, located at a line that causes it.
   */
  lemma ParseLinesFacts(ls: seq<Line>)
    requires LinesOk(ls)
    ensures ParseLines(ls) == Failure(Validation(FastaEmpty)) <==> !AnyNonBlank(ls)
    ensures ParseLines(ls).Success? ==>
              var records := ParseLines(ls).value;
              |records| >= 1 && RecordsOk(records)
              && Names(records) == HeaderNames(ls) && AllData(records) == DataText(ls)
              && records == Groups(ls)
    ensures ParseLines(ls).Failure? && AnyNonBlank(ls) ==> Explained(ls, ParseLines(ls).error)
  {
    assert ls[..0] == [] && ls[..|ls|] == ls;
    ScanFacts(ls, 0, Start);
    if AnyNonBlank(ls) && ScanFrom(ls, 0, Start).Success? {
      var st := ScanFrom(ls, 0, Start).value;
      if st.pending != [] {
        CloseFacts(st);
        CloseOk(st);
      }
    }
  }

  // ---------------------------------------------------------------------------
  // Properties of parse_fasta.

  lemma ClassifiedOk(lines: seq<string>)
    ensures LinesOk(ClassifyAll(lines))
  {
    forall k | 0 <= k < |lines| ensures LineOk(ClassifyAll(lines)[k]) {
      ClassifyAt(lines, k);
    }
  }

  /** The content has a non-blank line iff it is not all whitespace. */
  lemma NonBlankContent(content: string)
    ensures AnyNonBlank(ClassifyAll(FastaLines(content))) <==> !AllSpace(content)
  {
    if AllSpace(content) {
      BlankContent(content);
    } else {
      var t := Strip(content);
      assert !IsSpace(t[0]);
      var lines := Split(t, '\n');
      assert lines[0][0] == t[0];
      assert !AllSpace(lines[0]);
      ClassifyAt(lines, 0);
      assert !ClassifyAll(lines)[0].BlankLine?;
    }
  }

  lemma BlankContent(content: string)
    requires AllSpace(content)
    ensures FastaLines(content) == [""]
    ensures !AnyNonBlank(ClassifyAll(FastaLines(content)))
  {
    assert Strip(content) == [];
    assert AllSpace("");
    ClassifyAt([""], 0);
  }

  /** "FASTA file is empty" is raised exactly for empty or whitespace-only content. */
  lemma EmptyContent(content: string)
    ensures Parse(content) == Failure(Validation(FastaEmpty)) <==> AllSpace(content)
  {
    ClassifiedOk(FastaLines(content));
    ParseLinesFacts(ClassifyAll(FastaLines(content)));
    NonBlankContent(content);
  }

  /**
   * A successful parse has at least one record; each has a valid name, a valid
   * description and non-empty data; the names are those of the header lines in
   * file order, and the data, read in order, is the whitespace-free text of the
   * data lines.
   */
  lemma ParsedRecords(content: string)
    requires Parse(content).Success?
    ensures var records := Parse(content).value;
            var ls := ClassifyAll(FastaLines(content));
            |records| >= 1 && RecordsOk(records)
            && Names(records) == HeaderNames(ls) && AllData(records) == DataText(ls)
            && records == Groups(ls)
  {
    ClassifiedOk(FastaLines(content));
    ParseLinesFacts(ClassifyAll(FastaLines(content)));
  }

  /**
   * Every other failure is one of the three format errors, located at a line
   * that causes it; "No valid sequences found" is never raised.
   */
  lemma ParseErrors(content: string)
    requires Parse(content).Failure? && !AllSpace(content)
    ensures Explained(ClassifyAll(FastaLines(content)), Parse(content).error)
  {
    ClassifiedOk(FastaLines(content));
    ParseLinesFacts(ClassifyAll(FastaLines(content)));
    NonBlankContent(content);
  }
}
