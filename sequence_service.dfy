// The sequence service (api/sequences/service.py): the derived GC content and
// molecular weight, where a sequence's residues are read from, the blob store,
// the sequences table with its unique (user, name) index, and the FASTA upload
// with its size limits, storage routing and clean-up on failure.
module SequenceService {
  import opened Enums
  import opened Errors
  import opened PyStr
  import opened SequenceUtils
  import opened Fasta
  import opened Projects

  // ---------------------------------------------------------------------------
  // calculate_gc_content

  /** A GC fraction held exactly, gcCount / length, instead of a float. */
  datatype GcContent = GcContent(gcCount: nat, length: nat)

  predicate IsGc(c: char) {
    UpperChar(c) == 'C' || UpperChar(c) == 'G'
  }

  /** len([base for base in s.upper() if base in "CG"]) */
  function GcCount(s: string): nat
    decreases |s|
  {
    if s == [] then 0 else GcCount(s[..|s| - 1]) + (if IsGc(s[|s| - 1]) then 1 else 0)
  }

  /** The positions of s holding a G or a C, in either case. */
  function GcPositions(s: string): set<nat> {
    set i: nat | i < |s| && IsGc(s[i])
  }

  lemma {:induction false} GcCountPositions(s: string)
    ensures GcCount(s) == |GcPositions(s)|
    decreases |s|
  {
    if s != [] {
      var init := s[..|s| - 1];
      GcCountPositions(init);
      var last: set<nat> := if IsGc(s[|s| - 1]) then {|s| - 1} else {};
      assert GcPositions(s) == GcPositions(init) + last by {
        forall i: nat | i < |s| - 1 ensures s[i] == init[i] { }
      }
      assert GcPositions(init) !! last;
    }
  }

  lemma {:induction false} GcCountBelow(s: string)
    ensures GcCount(s) <= |s|
    decreases |s|
  {
    if s != [] {
      GcCountBelow(s[..|s| - 1]);
    }
  }

  /**
   * calculate_gc_content: None for protein; 0 for empty data; otherwise the
   * share of positions holding G or C, upper or lower case.
   */
  function CalculateGcContent(data: string, t: SequenceType): (r: Option<GcContent>)
    ensures r.None? <==> t.PROTEIN?
    ensures r.Some? && data == [] ==> r.value == GcContent(0, 1)
    ensures r.Some? && data != [] ==> r.value.length == |data|
    ensures r.Some? ==> r.value.length > 0 && r.value.gcCount <= r.value.length
  {
    if !t.DNA? && !t.RNA? then None
    else if |data| == 0 then Some(GcContent(0, 1))
    else
      GcCountBelow(data);
      Some(GcContent(GcCount(data), |data|))
  }

  /** For nucleotide data the count is the number of positions holding a G or a C. */
  lemma GcContentCountsPositions(data: string, t: SequenceType)
    requires !t.PROTEIN? && data != []
    ensures CalculateGcContent(data, t).Some?
    ensures CalculateGcContent(data, t).value.gcCount == |GcPositions(data)|
  {
    GcCountPositions(data);
  }

  // ---------------------------------------------------------------------------
  // calculate_molecular_weight

  /**
   * A molecular weight. The float sum over the residue weights is not computed:
   * the value records the upper-cased residues it is the sum over.
   */
  datatype Weight = NoResidues | ResidueWeights(residues: string)

  /** The first character outside the weight table, if there is one. */
  function FirstUnknown(s: string): (r: Option<char>)
    ensures r.None? <==> forall i :: 0 <= i < |s| ==> s[i] in PROTEIN_CHARS
    ensures r.Some? ==> r.value !in PROTEIN_CHARS && r.value in s
  {
    if s == [] then None
    else if s[0] !in PROTEIN_CHARS then Some(s[0])
    else
      var rest := FirstUnknown(s[1..]);
      assert forall i :: 1 <= i < |s| ==> s[i] == s[1..][i - 1];
      rest
  }

  /**
   * calculate_molecular_weight: None unless protein; 0.0 for empty data;
   * otherwise the sum of the table's weights, where a residue missing from the
   * table raises KeyError.
   */
  function CalculateMolecularWeight(data: string, t: SequenceType): (r: Result<Option<Weight>>)
    ensures t != PROTEIN ==> r == Success(None)
    ensures t == PROTEIN && data == [] ==> r == Success(Some(NoResidues))
    ensures t == PROTEIN && data != [] ==> (r.Success? <==> Within(data, PROTEIN_CHARS))
    ensures t == PROTEIN && data != [] && r.Success? ==> r.value == Some(ResidueWeights(Upper(data)))
    ensures r.Failure? ==> r.error.KeyError? && |r.error.key| == 1 && r.error.key[0] !in PROTEIN_CHARS
  {
    if t != PROTEIN then Success(None)
    else if |data| == 0 then Success(Some(NoResidues))
    else
      var upper := Upper(data);
      match FirstUnknown(upper)
      case Some(c) => Failure(KeyError([c]))
      case None => Success(Some(ResidueWeights(upper)))
  }

  /** Data that validated as protein never raises KeyError: the table covers its alphabet. */
  lemma ValidatedProteinHasWeight(data: string, name: Option<string>, expected: Option<SequenceType>)
    requires ValidateSequenceData(data, name, expected) == Success(PROTEIN)
    ensures CalculateMolecularWeight(data, PROTEIN).Success?
  {
  }

  // ---------------------------------------------------------------------------
  // The blob store.

  /** A stored blob's path, "{uuid}_{filename}"; the uuid is a counter value. */
  datatype Path = Path(uid: nat, filename: string)

  /**
   * Blobs under paths. Save attempts are numbered by the uid they draw, and the
   * attempts numbered in `failing` raise; deleting one of `undeletable` raises.
   */
  class Storage {
    var blobs: map<Path, string>
    var nextUid: nat
    var failing: set<nat>
    var undeletable: set<Path>

    ghost predicate Valid()
      reads this
    {
      forall p :: p in blobs ==> p.uid < nextUid
    }

    constructor(failing: set<nat>, undeletable: set<Path>)
      ensures Valid() && blobs == map[] && nextUid == 0
      ensures this.failing == failing && this.undeletable == undeletable
    {
      blobs := map[];
      nextUid := 0;
      this.failing := failing;
      this.undeletable := undeletable;
    }

    /** save: a fresh path for the content, or StorageFailure with nothing written. */
    method Save(content: string, filename: string) returns (r: Result<Path>)
      requires Valid()
      modifies this
      ensures Valid()
      ensures nextUid == old(nextUid) + 1 && failing == old(failing) && undeletable == old(undeletable)
      ensures r.Success? <==> old(nextUid) !in failing
      ensures r.Failure? ==> r.error == StorageFailure && blobs == old(blobs)
      ensures r.Success? ==> r.value.filename == filename && r.value !in old(blobs) && blobs == old(blobs)[r.value := content]
    {
      var uid := nextUid;
      nextUid := nextUid + 1;
      if uid in failing {
        return Failure(StorageFailure);
      }
      var p := Path(uid, filename);
      blobs := blobs[p := content];
      r := Success(p);
    }

    /** delete: removes the blob if it exists; fails on an undeletable path. */
    method Delete(p: Path) returns (ok: bool)
      requires Valid()
      modifies this
      ensures Valid()
      ensures ok <==> p !in undeletable
      ensures blobs == if ok then old(blobs) - {p} else old(blobs)
      ensures nextUid == old(nextUid) && failing == old(failing) && undeletable == old(undeletable)
    {
      if p in undeletable {
        return false;
      }
      blobs := blobs - {p};
      ok := true;
    }
  }

  /** read: the stored content, or FileNotFoundError. */
  function ReadBlob(blobs: map<Path, string>, p: Path): (r: Result<string>)
    ensures r.Success? <==> p in blobs
    ensures r.Success? ==> r.value == blobs[p]
    ensures r.Failure? ==> r.error == FileMissing
  {
    if p in blobs then Success(blobs[p]) else Failure(FileMissing)
  }

  // ---------------------------------------------------------------------------
  // The sequences table.

  /** The columns the upload writes. */
  datatype Values = Values(
    name: string, owner: int, projectId: nat, sequenceType: SequenceType,
    sequenceData: Option<string>, filePath: Option<Path>, length: nat,
    gc: Option<GcContent>, weight: Option<Weight>, description: Option<string>)

  datatype SequenceRow = SequenceRow(id: nat, values: Values)

  function Key(v: Values): (int, string) {
    (v.owner, v.name)
  }

  /** Rows by id, and the unique index on (user_id, name). */
  datatype Table = Table(rows: map<nat, SequenceRow>, byName: map<(int, string), nat>, nextId: nat)

  ghost predicate TableOk(t: Table) {
    (forall id :: id in t.rows ==> t.rows[id].id == id && id < t.nextId
                                   && Key(t.rows[id].values) in t.byName && t.byName[Key(t.rows[id].values)] == id)
    && (forall k :: k in t.byName ==> t.byName[k] in t.rows && Key(t.rows[t.byName[k]].values) == k)
  }

  /**
   * get_sequence_data: the DB data when it is not null, otherwise the blob at
   * the file path, otherwise ValueError.
   */
  function GetSequenceData(row: SequenceRow, blobs: map<Path, string>): (r: Result<string>)
    ensures row.values.sequenceData.Some? ==> r == Success(row.values.sequenceData.value)
    ensures row.values.sequenceData.None? && row.values.filePath.Some? ==> r == ReadBlob(blobs, row.values.filePath.value)
    ensures row.values.sequenceData.None? && row.values.filePath.None? ==> r == Failure(MissingData(row.id))
  {
    if row.values.sequenceData.Some? then Success(row.values.sequenceData.value)
    else if row.values.filePath.Some? then ReadBlob(blobs, row.values.filePath.value)
    else Failure(MissingData(row.id))
  }

  /** get_sequence_internal: a row by id, without an ownership check. */
  function GetSequenceInternal(t: Table, id: nat): (r: Result<SequenceRow>)
    ensures r.Success? <==> id in t.rows
    ensures r.Success? ==> r.value == t.rows[id]
    ensures r.Failure? ==> r.error == NotFound("Sequence", id)
  {
    if id in t.rows then Success(t.rows[id]) else Failure(NotFound("Sequence", id))
  }

  predicate DistinctKeys(values: seq<Values>) {
    forall i, j :: 0 <= i < j < |values| ==> Key(values[i]) != Key(values[j])
  }

  function KeysOf(values: seq<Values>): set<(int, string)> {
    set k | 0 <= k < |values| :: Key(values[k])
  }

  /** One row of INSERT ... ON CONFLICT (user_id, name) DO UPDATE. */
  function UpsertOne(t: Table, v: Values): (r: Table)
    requires TableOk(t)
    ensures TableOk(r)
    ensures Key(v) in r.byName && r.rows[r.byName[Key(v)]].values == v
    ensures r.byName.Keys == t.byName.Keys + {Key(v)}
    ensures forall k :: k in t.byName ==> r.byName[k] == t.byName[k]
    ensures forall k :: k in t.byName && k != Key(v) ==> r.rows[r.byName[k]] == t.rows[t.byName[k]]
    ensures t.nextId <= r.nextId
  {
    if Key(v) in t.byName then
      var id := t.byName[Key(v)];
      Table(t.rows[id := SequenceRow(id, v)], t.byName, t.nextId)
    else
      Table(t.rows[t.nextId := SequenceRow(t.nextId, v)], t.byName[Key(v) := t.nextId], t.nextId + 1)
  }

  /** The upserts one value after the other: the keys are the old ones and those of the values. */
  function UpsertAll(t: Table, values: seq<Values>): (r: Table)
    requires TableOk(t)
    ensures TableOk(r)
    ensures r.byName.Keys == t.byName.Keys + KeysOf(values)
    decreases |values|
  {
    if values == [] then
      assert KeysOf(values) == {};
      t
    else
      KeysOfCons(values);
      UpsertAll(UpsertOne(t, values[0]), values[1..])
  }

  /**
   * The batch upsert of upload_fasta. PostgreSQL refuses a statement that
   * would update one row twice, so two values with the same (user, name) make
   * it fail; otherwise every value ends up in the row of its key, existing
   * rows keep their ids and rows of other keys are untouched.
   */
  function Upsert(t: Table, values: seq<Values>): (r: Result<Table>)
    requires TableOk(t)
    ensures r.Success? <==> DistinctKeys(values)
    ensures r.Failure? ==> r.error == DatabaseFailure
    ensures r.Success? ==> TableOk(r.value)
    ensures r.Success? ==> forall k :: 0 <= k < |values| ==>
              Key(values[k]) in r.value.byName && r.value.rows[r.value.byName[Key(values[k])]].values == values[k]
    ensures r.Success? ==> r.value.byName.Keys == t.byName.Keys + KeysOf(values)
    ensures r.Success? ==> forall k :: k in t.byName ==> r.value.byName[k] == t.byName[k]
    ensures r.Success? ==> forall k :: k in t.byName && k !in KeysOf(values) ==>
              r.value.rows[r.value.byName[k]] == t.rows[t.byName[k]]
  {
    if DistinctKeys(values) then
      UpsertAllKeepsIds(t, values);
      UpsertAllOthers(t, values);
      UpsertAllValues(t, values);
      Success(UpsertAll(t, values))
    else Failure(DatabaseFailure)
  }

  lemma KeysOfCons(values: seq<Values>)
    requires values != []
    ensures KeysOf(values) == {Key(values[0])} + KeysOf(values[1..])
  {
    var rest := values[1..];
    forall x | x in KeysOf(values) ensures x in {Key(values[0])} + KeysOf(rest) {
      var k :| 0 <= k < |values| && Key(values[k]) == x;
      if k > 0 {
        assert Key(rest[k - 1]) == x;
      }
    }
    forall x | x in KeysOf(rest) ensures x in KeysOf(values) {
      var k :| 0 <= k < |rest| && Key(rest[k]) == x;
      assert Key(values[k + 1]) == x;
    }
  }

  lemma DistinctRest(values: seq<Values>)
    requires values != [] && DistinctKeys(values)
    ensures DistinctKeys(values[1..])
    ensures Key(values[0]) !in KeysOf(values[1..])
  {
    var rest := values[1..];
    forall i, j | 0 <= i < j < |rest| ensures Key(rest[i]) != Key(rest[j]) {
      assert rest[i] == values[i + 1] && rest[j] == values[j + 1];
    }
    forall j | 0 <= j < |rest| ensures Key(rest[j]) != Key(values[0]) {
      assert rest[j] == values[j + 1];
    }
  }

  /** An existing key keeps its row id. */
  lemma {:induction false} UpsertAllKeepsIds(t: Table, values: seq<Values>)
    requires TableOk(t)
    ensures forall k :: k in t.byName ==> UpsertAll(t, values).byName[k] == t.byName[k]
    decreases |values|
  {
    if values != [] {
      UpsertAllKeepsIds(UpsertOne(t, values[0]), values[1..]);
    }
  }

  /** The row of a key no value has is untouched. */
  lemma {:induction false} UpsertAllOthers(t: Table, values: seq<Values>)
    requires TableOk(t)
    ensures forall k :: k in t.byName && k !in KeysOf(values) ==>
              UpsertAll(t, values).rows[UpsertAll(t, values).byName[k]] == t.rows[t.byName[k]]
    decreases |values|
  {
    if values != [] {
      var t1 := UpsertOne(t, values[0]);
      UpsertAllOthers(t1, values[1..]);
      KeysOfCons(values);
    }
  }

  /** With distinct keys, every value ends up in the row of its key. */
  lemma {:induction false} UpsertAllValues(t: Table, values: seq<Values>)
    requires TableOk(t) && DistinctKeys(values)
    ensures forall k :: 0 <= k < |values| ==>
              var r := UpsertAll(t, values);
              Key(values[k]) in r.byName && r.rows[r.byName[Key(values[k])]].values == values[k]
    decreases |values|
  {
    if values != [] {
      var t1 := UpsertOne(t, values[0]);
      var rest := values[1..];
      DistinctRest(values);
      UpsertAllValues(t1, rest);
      UpsertAllOthers(t1, rest);
      var r := UpsertAll(t1, rest);
      assert r == UpsertAll(t, values);
      forall k | 0 <= k < |values|
        ensures Key(values[k]) in r.byName && r.rows[r.byName[Key(values[k])]].values == values[k]
      {
        if k > 0 {
          assert values[k] == rest[k - 1];
        }
      }
    }
  }

  // ---------------------------------------------------------------------------
  // upload_fasta

  /** The size limits and the DB/blob threshold, in bytes. */
  datatype Limits = Limits(maxFileSize: nat, maxTotalSize: nat, sizeThreshold: nat)

  /**
   * The configured values: 100 and 500 megabytes and a 10000-byte threshold.
   * The size of a megabyte is a parameter because its definition is not part
   * of this model.
   */
  function Settings(megabyte: nat): Limits {
    Limits(100 * megabyte, 500 * megabyte, 10000)
  }

  /** One uploaded file: its name, its size in bytes and its text, None if it is not UTF-8. */
  datatype Upload = Upload(filename: string, size: nat, text: Option<string>)

  /** The number of bytes of the UTF-8 encoding of one character. */
  function Utf8Width(c: char): nat {
    if c as int < 0x80 then 1 else if c as int < 0x800 then 2 else if c as int < 0x10000 then 3 else 4
  }

  /** len(s.encode("utf-8")) */
  function Utf8Length(s: string): (n: nat)
    ensures n >= |s|
  {
    if s == [] then 0 else Utf8Width(s[0]) + Utf8Length(s[1..])
  }

  /** What the upload has computed for one record before it is stored. */
  datatype Prepared = Prepared(
    name: string, description: Option<string>, data: string,
    sequenceType: SequenceType, gc: Option<GcContent>, weight: Option<Weight>)

  /** Validation of one record, with ValidationErrors wrapped to name the file and the record. */
  function PrepareRecord(rec: FastaRecord, filename: string, expected: Option<SequenceType>): (r: Result<Prepared>)
    ensures r.Success? ==> ValidateSequenceData(rec.sequenceData, Some(rec.header), expected) == Success(r.value.sequenceType)
    ensures r.Success? ==> r.value.name == rec.header && r.value.data == rec.sequenceData
                           && r.value.description == rec.description
    ensures r.Success? ==> r.value.gc == CalculateGcContent(rec.sequenceData, r.value.sequenceType)
    ensures r.Success? ==> CalculateMolecularWeight(rec.sequenceData, r.value.sequenceType) == Success(r.value.weight)
    ensures ValidateSequenceData(rec.sequenceData, Some(rec.header), expected).Failure? ==>
              r == Failure(Validation(InvalidRecord(filename, rec.header,
                                                    ValidateSequenceData(rec.sequenceData, Some(rec.header), expected).error.reason)))
    ensures ValidateSequenceData(rec.sequenceData, Some(rec.header), expected).Success? ==> r.Success?
  {
    var v := ValidateSequenceData(rec.sequenceData, Some(rec.header), expected);
    if v.Failure? then Failure(Validation(InvalidRecord(filename, rec.header, v.error.reason)))
    else
      var w := CalculateMolecularWeight(rec.sequenceData, v.value);
      assert w.Success? by {
        if v.value == PROTEIN {
          ValidatedProteinHasWeight(rec.sequenceData, Some(rec.header), expected);
        }
      }
      Success(Prepared(rec.header, rec.description, rec.sequenceData, v.value,
                            CalculateGcContent(rec.sequenceData, v.value), w.value))
  }

  /** The rest of a run after `done`: its error, or `done` followed by what it adds. */
  function Continue<T>(done: seq<T>, rest: Result<seq<T>>): (r: Result<seq<T>>)
    ensures r.Failure? <==> rest.Failure?
    ensures r.Failure? ==> r == rest
    ensures r.Success? ==> r.value == done + rest.value
  {
    if rest.Failure? then rest else Success(done + rest.value)
  }

  /** Continuing after nothing is the run itself. */
  lemma ContinueEmpty<T>(rest: Result<seq<T>>)
    ensures Continue([], rest) == rest
  {
    if rest.Success? {
      assert [] + rest.value == rest.value;
    }
  }

  /** Continuing in two steps is continuing once with both parts. */
  lemma ContinueTwice<T>(a: seq<T>, b: seq<T>, rest: Result<seq<T>>)
    ensures Continue(a, Continue(b, rest)) == Continue(a + b, rest)
  {
    if rest.Success? {
      assert a + (b + rest.value) == (a + b) + rest.value;
    }
  }

  /** The records of one file from number j on, in order; the first failure is the error. */
  function PrepareRecords(recs: seq<FastaRecord>, j: nat, filename: string, expected: Option<SequenceType>): Result<seq<Prepared>>
    requires j <= |recs|
    decreases |recs| - j
  {
    if j == |recs| then Success([])
    else
      var p := PrepareRecord(recs[j], filename, expected);
      if p.Failure? then Failure(p.error)
      else Continue([p.value], PrepareRecords(recs, j + 1, filename, expected))
  }

  /** One record further into the file. */
  lemma PrepareStep(recs: seq<FastaRecord>, j: nat, filename: string, expected: Option<SequenceType>, done: seq<Prepared>)
    requires j < |recs|
    ensures var p := PrepareRecord(recs[j], filename, expected);
            Continue(done, PrepareRecords(recs, j, filename, expected))
            == if p.Failure? then Failure(p.error)
               else Continue(done + [p.value], PrepareRecords(recs, j + 1, filename, expected))
  {
    var p := PrepareRecord(recs[j], filename, expected);
    if p.Success? {
      ContinueTwice(done, [p.value], PrepareRecords(recs, j + 1, filename, expected));
    }
  }

  /** The two size checks; on success the new running total. */
  function CheckSize(f: Upload, limits: Limits, total: nat): (r: Result<nat>)
    ensures r.Success? <==> f.size <= limits.maxFileSize && total + f.size <= limits.maxTotalSize
    ensures r.Success? ==> r.value == total + f.size
    ensures f.size > limits.maxFileSize ==> r == Failure(Validation(FileTooLarge(f.filename, f.size, limits.maxFileSize)))
    ensures f.size <= limits.maxFileSize && total + f.size > limits.maxTotalSize ==>
              r == Failure(Validation(TotalTooLarge(total + f.size, limits.maxTotalSize)))
  {
    if f.size > limits.maxFileSize then Failure(Validation(FileTooLarge(f.filename, f.size, limits.maxFileSize)))
    else if total + f.size > limits.maxTotalSize then Failure(Validation(TotalTooLarge(total + f.size, limits.maxTotalSize)))
    else Success(total + f.size)
  }

  /** A FASTA parsing ValidationError, wrapped to name the file. */
  function WrapParse(filename: string, r: Result<seq<FastaRecord>>): (w: Result<seq<FastaRecord>>)
    ensures r.Success? ==> w == r
    ensures r.Failure? && r.error.Validation? ==> w == Failure(Validation(FastaParseError(filename, r.error.reason)))
    ensures r.Failure? && !r.error.Validation? ==> w == r
  {
    if r.Failure? && r.error.Validation? then Failure(Validation(FastaParseError(filename, r.error.reason))) else r
  }

  /**
   * One file of the upload: the size checks, the UTF-8 decoding, the parsing
   * and the validation of its records. On success the new running total and
   * the file's prepared records.
   */
  function FileStep(f: Upload, limits: Limits, total: nat, expected: Option<SequenceType>)
    : (r: Result<(nat, seq<Prepared>)>)
    ensures CheckSize(f, limits, total).Failure? ==> r.Failure? && r.error == CheckSize(f, limits, total).error
    ensures CheckSize(f, limits, total).Success? && f.text.None? ==> r.Failure? && r.error == UnicodeDecode(f.filename)
    ensures r.Success? ==> f.text.Some? && r.value.0 == total + f.size
  {
    var size := CheckSize(f, limits, total);
    if size.Failure? then Failure(size.error)
    else if f.text.None? then Failure(UnicodeDecode(f.filename))
    else Checked(f.filename, size.value, WrapParse(f.filename, Parse(f.text.value)), expected)
  }

  /** The rest of a file's step once it is parsed: the parse error, or the validation of its records. */
  function Checked(filename: string, newTotal: nat, parsed: Result<seq<FastaRecord>>, expected: Option<SequenceType>)
    : (r: Result<(nat, seq<Prepared>)>)
    ensures parsed.Failure? ==> r == Failure(parsed.error)
    ensures r.Success? ==> r.value.0 == newTotal
  {
    if parsed.Failure? then Failure(parsed.error)
    else
      var here := PrepareRecords(parsed.value, 0, filename, expected);
      if here.Failure? then Failure(here.error) else Success((newTotal, here.value))
  }

  /** Past the size checks and the decoding, a file's step is what follows its parse. */
  lemma FileStepChecked(f: Upload, limits: Limits, total: nat, expected: Option<SequenceType>)
    requires CheckSize(f, limits, total).Success? && f.text.Some?
    ensures FileStep(f, limits, total, expected) ==
              Checked(f.filename, CheckSize(f, limits, total).value, WrapParse(f.filename, Parse(f.text.value)), expected)
  {
  }

  /** Once parsed, a file's outcome is the validation of its records. */
  lemma CheckedParsed(filename: string, newTotal: nat, recs: seq<FastaRecord>, expected: Option<SequenceType>)
    ensures PrepareRecords(recs, 0, filename, expected).Failure? ==>
              Checked(filename, newTotal, Success(recs), expected) == Failure(PrepareRecords(recs, 0, filename, expected).error)
    ensures PrepareRecords(recs, 0, filename, expected).Success? ==>
              Checked(filename, newTotal, Success(recs), expected) == Success((newTotal, PrepareRecords(recs, 0, filename, expected).value))
  {
  }

  /** A file that passes the checks and parses contributes the validation of its records. */
  lemma FileStepParsed(f: Upload, limits: Limits, total: nat, expected: Option<SequenceType>, recs: seq<FastaRecord>)
    requires CheckSize(f, limits, total).Success? && f.text.Some?
    requires WrapParse(f.filename, Parse(f.text.value)) == Success(recs)
    ensures PrepareRecords(recs, 0, f.filename, expected).Failure? ==>
              FileStep(f, limits, total, expected).Failure?
              && FileStep(f, limits, total, expected).error == PrepareRecords(recs, 0, f.filename, expected).error
    ensures PrepareRecords(recs, 0, f.filename, expected).Success? ==>
              FileStep(f, limits, total, expected).Success?
              && FileStep(f, limits, total, expected).value.1 == PrepareRecords(recs, 0, f.filename, expected).value
  {
    FileStepChecked(f, limits, total, expected);
    CheckedParsed(f.filename, CheckSize(f, limits, total).value, recs, expected);
  }

  /** A file that passes the checks but does not parse fails with the wrapped parsing error. */
  lemma FileStepUnparsed(f: Upload, limits: Limits, total: nat, expected: Option<SequenceType>)
    requires CheckSize(f, limits, total).Success? && f.text.Some?
    requires WrapParse(f.filename, Parse(f.text.value)).Failure?
    ensures FileStep(f, limits, total, expected).Failure?
    ensures FileStep(f, limits, total, expected).error == WrapParse(f.filename, Parse(f.text.value)).error
  {
    FileStepChecked(f, limits, total, expected);
  }

  /** A step of the loop over the files: from a file and the running total, the new total and the file's records. */
  type StepFn = (Upload, nat) -> Result<(nat, seq<Prepared>)>

  /** The step of upload_fasta for one file, with the upload's limits and expected type fixed. */
  function StepWith(limits: Limits, expected: Option<SequenceType>): (step: StepFn)
    ensures forall f, total :: step(f, total) == FileStep(f, limits, total, expected)
  {
    (f: Upload, total: nat) => FileStep(f, limits, total, expected)
  }

  /**
   * A loop over the files from number i on, given the running total: the
   * first step that fails ends it with its error; otherwise each step's
   * records follow one another.
   */
  function RunFrom(files: seq<Upload>, i: nat, total: nat, step: StepFn): Result<seq<Prepared>>
    requires i <= |files|
    decreases |files| - i
  {
    if i == |files| then Success([])
    else
      var here := step(files[i], total);
      if here.Failure? then Failure(here.error)
      else Continue(here.value.1, RunFrom(files, i + 1, here.value.0, step))
  }

  /** Everything the upload does with the files from number i on, given the running total. */
  function PlanFrom(files: seq<Upload>, i: nat, limits: Limits, total: nat, expected: Option<SequenceType>): Result<seq<Prepared>>
    requires i <= |files|
  {
    RunFrom(files, i, total, StepWith(limits, expected))
  }

  /** One file further into the upload. */
  lemma PlanStep(files: seq<Upload>, i: nat, limits: Limits, total: nat, expected: Option<SequenceType>, done: seq<Prepared>)
    requires i < |files|
    ensures var step := FileStep(files[i], limits, total, expected);
            Continue(done, PlanFrom(files, i, limits, total, expected))
            == if step.Failure? then Failure(step.error)
               else Continue(done + step.value.1, PlanFrom(files, i + 1, limits, step.value.0, expected))
  {
    var step := FileStep(files[i], limits, total, expected);
    assert StepWith(limits, expected)(files[i], total) == step;
    if step.Success? {
      ContinueTwice(done, step.value.1, PlanFrom(files, i + 1, limits, step.value.0, expected));
    }
  }

  /** The records of all files, validated, or the error the upload raises before its upsert. */
  function Plan(files: seq<Upload>, limits: Limits, expected: Option<SequenceType>): Result<seq<Prepared>> {
    PlanFrom(files, 0, limits, 0, expected)
  }

  /** The running total before file k, when every file from i up to k passes its step. */
  function TotalBefore(files: seq<Upload>, i: nat, k: nat, total: nat, step: StepFn): Option<nat>
    requires i <= k <= |files|
    decreases k - i
  {
    if i == k then Some(total)
    else
      var here := step(files[i], total);
      if here.Failure? then None else TotalBefore(files, i + 1, k, here.value.0, step)
  }

  /** The files from i up to k pass, and file k fails its step. */
  predicate FailsAt(files: seq<Upload>, i: nat, k: nat, total: nat, step: StepFn)
    requires i <= k < |files|
  {
    var before := TotalBefore(files, i, k, total, step);
    before.Some? && step(files[k], before.value).Failure?
  }

  /** After a file that passes, the totals before later files are those counted from the next file on. */
  lemma TotalBeforeShift(files: seq<Upload>, i: nat, k: nat, total: nat, step: StepFn)
    requires i < k <= |files| && step(files[i], total).Success?
    ensures TotalBefore(files, i, k, total, step) == TotalBefore(files, i + 1, k, step(files[i], total).value.0, step)
  {
  }

  /** The loop fails iff some file fails its step, given the running total of the files before it. */
  lemma {:induction false} RunFailsIffBadFile(files: seq<Upload>, i: nat, total: nat, step: StepFn)
    requires i <= |files|
    ensures RunFrom(files, i, total, step).Failure? <==> exists k :: i <= k < |files| && FailsAt(files, i, k, total, step)
    decreases |files| - i
  {
    if i < |files| {
      var here := step(files[i], total);
      if here.Failure? {
        assert FailsAt(files, i, i, total, step);
      } else {
        var next := here.value.0;
        RunFailsIffBadFile(files, i + 1, next, step);
        if RunFrom(files, i + 1, next, step).Failure? {
          var k :| i + 1 <= k < |files| && FailsAt(files, i + 1, k, next, step);
          TotalBeforeShift(files, i, k, total, step);
          assert FailsAt(files, i, k, total, step);
        }
        if exists k :: i <= k < |files| && FailsAt(files, i, k, total, step) {
          var k :| i <= k < |files| && FailsAt(files, i, k, total, step);
          assert k != i;
          TotalBeforeShift(files, i, k, total, step);
          assert FailsAt(files, i + 1, k, next, step);
        }
      }
    }
  }

  /** When file k is where the loop fails, the loop's error is that file's. */
  lemma {:induction false} RunFailsWithFileError(files: seq<Upload>, i: nat, k: nat, total: nat, step: StepFn)
    requires i <= k < |files| && FailsAt(files, i, k, total, step)
    ensures RunFrom(files, i, total, step) == Failure(step(files[k], TotalBefore(files, i, k, total, step).value).error)
    decreases k - i
  {
    if i < k {
      var here := step(files[i], total);
      assert here.Success?;
      TotalBeforeShift(files, i, k, total, step);
      RunFailsWithFileError(files, i + 1, k, here.value.0, step);
    }
  }

  /** The upload stops at the first file whose step fails, with that file's error. */
  lemma PlanFailsAtFirstBadFile(files: seq<Upload>, limits: Limits, expected: Option<SequenceType>)
    ensures Plan(files, limits, expected).Failure? <==>
              exists k :: 0 <= k < |files| && FailsAt(files, 0, k, 0, StepWith(limits, expected))
    ensures forall k :: 0 <= k < |files| && FailsAt(files, 0, k, 0, StepWith(limits, expected)) ==>
              Plan(files, limits, expected)
              == Failure(FileStep(files[k], limits, TotalBefore(files, 0, k, 0, StepWith(limits, expected)).value, expected).error)
  {
    var step := StepWith(limits, expected);
    RunFailsIffBadFile(files, 0, 0, step);
    forall k | 0 <= k < |files| && FailsAt(files, 0, k, 0, step)
      ensures Plan(files, limits, expected)
              == Failure(FileStep(files[k], limits, TotalBefore(files, 0, k, 0, step).value, expected).error)
    {
      RunFailsWithFileError(files, 0, k, 0, step);
    }
  }

  /** The blob name of a large record: sha256("{user_id}:{name}") + ".txt". */
  function StoredName(userId: int, name: string, sha256: string -> string): string {
    sha256(IntToString(userId) + ":" + name) + ".txt"
  }

  /**
   * How a prepared record is written: a record of more than `threshold` UTF-8
   * bytes goes to a blob holding its data and the row's data is null; any
   * other record keeps its data in the row and has no path.
   */
  ghost predicate Routed(v: Values, p: Prepared, userId: int, threshold: nat, blobs: map<Path, string>, sha256: string -> string) {
    if Utf8Length(p.data) > threshold then
      v.sequenceData.None? && v.filePath.Some? && v.filePath.value in blobs
      && blobs[v.filePath.value] == p.data && v.filePath.value.filename == StoredName(userId, p.name, sha256)
    else
      v.sequenceData == Some(p.data) && v.filePath.None?
  }

  /** The columns of a record's row. */
  ghost predicate Staged(v: Values, p: Prepared, userId: int, projectId: nat, threshold: nat,
                         blobs: map<Path, string>, sha256: string -> string) {
    v.name == p.name && v.owner == userId && v.projectId == projectId && v.sequenceType == p.sequenceType
    && v.length == |p.data| && v.gc == p.gc && v.weight == p.weight && v.description == p.description
    && Routed(v, p, userId, threshold, blobs, sha256)
  }

  /** However a record was routed, get_sequence_data reads its data back. */
  lemma RoutedReadsBack(id: nat, v: Values, p: Prepared, userId: int, threshold: nat,
                        blobs: map<Path, string>, sha256: string -> string)
    requires Routed(v, p, userId, threshold, blobs, sha256)
    ensures GetSequenceData(SequenceRow(id, v), blobs) == Success(p.data)
    ensures v.sequenceData.Some? != v.filePath.Some?
  {
  }

  /** Blobs present before are still there, with the same content. */
  ghost predicate Kept(before: map<Path, string>, after: map<Path, string>) {
    forall p :: p in before ==> p in after && after[p] == before[p]
  }

  lemma StagedKept(v: Values, p: Prepared, userId: int, projectId: nat, threshold: nat,
                   b1: map<Path, string>, b2: map<Path, string>, sha256: string -> string)
    requires Staged(v, p, userId, projectId, threshold, b1, sha256) && Kept(b1, b2)
    ensures Staged(v, p, userId, projectId, threshold, b2, sha256)
  {
  }

  ghost predicate AllStaged(vs: seq<Values>, ps: seq<Prepared>, userId: int, projectId: nat, threshold: nat,
                            blobs: map<Path, string>, sha256: string -> string) {
    |vs| == |ps| && forall k :: 0 <= k < |vs| ==> Staged(vs[k], ps[k], userId, projectId, threshold, blobs, sha256)
  }

  /** No two planned records share a name. */
  predicate DistinctNames(ps: seq<Prepared>) {
    forall i, j :: 0 <= i < j < |ps| ==> ps[i].name != ps[j].name
  }

  /** The (user_id, name) keys the planned records are upserted under. */
  function NameKeys(userId: int, ps: seq<Prepared>): set<(int, string)> {
    set k | 0 <= k < |ps| :: (userId, ps[k].name)
  }

  /** Staged values are keyed by the user and the planned names, so they repeat a key iff the names repeat. */
  lemma StagedKeys(vs: seq<Values>, ps: seq<Prepared>, userId: int, projectId: nat, threshold: nat,
                   blobs: map<Path, string>, sha256: string -> string)
    requires AllStaged(vs, ps, userId, projectId, threshold, blobs, sha256)
    ensures KeysOf(vs) == NameKeys(userId, ps)
    ensures DistinctKeys(vs) <==> DistinctNames(ps)
  {
    assert forall k :: 0 <= k < |vs| ==> Key(vs[k]) == (userId, ps[k].name);
  }

  lemma AllStagedKept(vs: seq<Values>, ps: seq<Prepared>, userId: int, projectId: nat, threshold: nat,
                      b1: map<Path, string>, b2: map<Path, string>, sha256: string -> string)
    requires AllStaged(vs, ps, userId, projectId, threshold, b1, sha256) && Kept(b1, b2)
    ensures AllStaged(vs, ps, userId, projectId, threshold, b2, sha256)
  {
    forall k | 0 <= k < |vs| ensures Staged(vs[k], ps[k], userId, projectId, threshold, b2, sha256) {
      StagedKept(vs[k], ps[k], userId, projectId, threshold, b1, b2, sha256);
    }
  }

  /** Two staged runs, the first in blobs that are still there, make one staged run. */
  lemma AllStagedAppend(vs: seq<Values>, ps: seq<Prepared>, ws: seq<Values>, qs: seq<Prepared>, userId: int,
                        projectId: nat, threshold: nat, b1: map<Path, string>, b2: map<Path, string>,
                        sha256: string -> string)
    requires AllStaged(vs, ps, userId, projectId, threshold, b1, sha256) && Kept(b1, b2)
    requires AllStaged(ws, qs, userId, projectId, threshold, b2, sha256)
    ensures AllStaged(vs + ws, ps + qs, userId, projectId, threshold, b2, sha256)
  {
    AllStagedKept(vs, ps, userId, projectId, threshold, b1, b2, sha256);
    forall k | 0 <= k < |vs + ws| ensures Staged((vs + ws)[k], (ps + qs)[k], userId, projectId, threshold, b2, sha256) {
      if k >= |vs| {
        assert (vs + ws)[k] == ws[k - |vs|] && (ps + qs)[k] == qs[k - |vs|];
      }
    }
  }

  /** None of the save attempts numbered lo up to hi raised. */
  ghost predicate SavesOk(failing: set<nat>, lo: nat, hi: nat) {
    forall u :: lo <= u < hi ==> u !in failing
  }

  /** Two runs of save attempts, one after the other, succeed iff both do. */
  lemma SavesOkJoin(failing: set<nat>, lo: nat, mid: nat, hi: nat)
    requires lo <= mid <= hi
    ensures SavesOk(failing, lo, hi) <==> SavesOk(failing, lo, mid) && SavesOk(failing, mid, hi)
  {
  }

  /** The blobs added since `before` are exactly the created paths. */
  ghost predicate CreatedExactly(before: map<Path, string>, after: map<Path, string>, created: seq<Path>) {
    Kept(before, after)
    && (forall p :: p in created ==> p in after && p !in before)
    && (forall p :: p in after && p !in before ==> p in created)
  }

  lemma CreatedTrans(b0: map<Path, string>, b1: map<Path, string>, b2: map<Path, string>, c1: seq<Path>, c2: seq<Path>)
    requires CreatedExactly(b0, b1, c1) && CreatedExactly(b1, b2, c2)
    ensures CreatedExactly(b0, b2, c1 + c2)
  {
  }

  /**
   * Writes one validated record: a record over the threshold is saved as a
   * blob under its stored name and the row points at it; any other record
   * keeps its data in the row. No row when the save fails.
   */
  method WriteRecord(rec: FastaRecord, pr: Prepared, userId: int, projectId: nat, threshold: nat,
                     sha256: string -> string, storage: Storage)
    returns (v: Option<Values>, saved: seq<Path>)
    requires storage.Valid()
    requires pr.name == rec.header && pr.data == rec.sequenceData && pr.description == rec.description
    modifies storage
    ensures storage.Valid() && storage.undeletable == old(storage.undeletable) && storage.failing == old(storage.failing)
    ensures old(storage.nextUid) <= storage.nextUid
    ensures v.Some? <==> SavesOk(storage.failing, old(storage.nextUid), storage.nextUid)
    ensures CreatedExactly(old(storage.blobs), storage.blobs, saved)
    ensures |saved| <= 1
    ensures v.Some? ==> Staged(v.value, pr, userId, projectId, threshold, storage.blobs, sha256)
  {
    if Utf8Length(rec.sequenceData) > threshold {
      var saving := storage.Save(rec.sequenceData, StoredName(userId, rec.header, sha256));
      if saving.Failure? {
        return None, [];
      }
      saved := [saving.value];
      v := Some(Values(rec.header, userId, projectId, pr.sequenceType, None, Some(saving.value), |rec.sequenceData|,
                       pr.gc, pr.weight, rec.description));
    } else {
      saved := [];
      v := Some(Values(rec.header, userId, projectId, pr.sequenceType, Some(rec.sequenceData), None,
                       |rec.sequenceData|, pr.gc, pr.weight, rec.description));
    }
  }

  /** One record of the loop: it is validated, then written; no row on a failure. */
  method StageRecord(rec: FastaRecord, filename: string, expected: Option<SequenceType>, userId: int, projectId: nat,
                     threshold: nat, sha256: string -> string, storage: Storage)
    returns (v: Option<Values>, saved: seq<Path>, failure: Option<Error>)
    requires storage.Valid()
    modifies storage
    ensures storage.Valid() && storage.undeletable == old(storage.undeletable) && storage.failing == old(storage.failing)
    ensures old(storage.nextUid) <= storage.nextUid
    ensures CreatedExactly(old(storage.blobs), storage.blobs, saved)
    ensures |saved| <= 1
    ensures v.Some? <==> failure.None?
    ensures PrepareRecord(rec, filename, expected).Failure? ==>
              failure == Some(PrepareRecord(rec, filename, expected).error) && storage.nextUid == old(storage.nextUid)
    ensures PrepareRecord(rec, filename, expected).Success? ==>
              (failure.None? <==> SavesOk(storage.failing, old(storage.nextUid), storage.nextUid))
              && (failure.Some? ==> failure == Some(StorageFailure))
    ensures failure.None? ==>
              PrepareRecord(rec, filename, expected).Success?
              && Staged(v.value, PrepareRecord(rec, filename, expected).value, userId, projectId, threshold,
                        storage.blobs, sha256)
  {
    var p := PrepareRecord(rec, filename, expected);
    if p.Failure? {
      return None, [], Some(p.error);
    }
    v, saved := WriteRecord(rec, p.value, userId, projectId, threshold, sha256, storage);
    failure := if v.Some? then None else Some(StorageFailure);
  }

  /**
   * The records of one file: each is validated and written in turn. Stops at
   * the first record that fails; the paths saved before are returned for the
   * clean-up.
   */
  method StageRecords(recs: seq<FastaRecord>, filename: string, expected: Option<SequenceType>,
                      userId: int, projectId: nat, threshold: nat, sha256: string -> string, storage: Storage)
    returns (values: seq<Values>, created: seq<Path>, failure: Option<Error>, ghost prepared: seq<Prepared>)
    requires storage.Valid()
    modifies storage
    ensures storage.Valid() && storage.undeletable == old(storage.undeletable) && storage.failing == old(storage.failing)
    ensures old(storage.nextUid) <= storage.nextUid
    ensures CreatedExactly(old(storage.blobs), storage.blobs, created)
    ensures !SavesOk(storage.failing, old(storage.nextUid), storage.nextUid) ==> failure == Some(StorageFailure)
    ensures failure.None? ==> PrepareRecords(recs, 0, filename, expected) == Success(prepared)
    ensures failure.None? ==> AllStaged(values, prepared, userId, projectId, threshold, storage.blobs, sha256)
    ensures failure.Some? && SavesOk(storage.failing, old(storage.nextUid), storage.nextUid) ==>
              PrepareRecords(recs, 0, filename, expected) == Failure(failure.value)
  {
    values, created, failure, prepared := [], [], None, [];
    ghost var goal := PrepareRecords(recs, 0, filename, expected);
    ContinueEmpty(goal);
    var j := 0;
    while j < |recs|
      invariant 0 <= j <= |recs|
      invariant storage.Valid() && storage.undeletable == old(storage.undeletable) && storage.failing == old(storage.failing)
      invariant old(storage.nextUid) <= storage.nextUid && SavesOk(storage.failing, old(storage.nextUid), storage.nextUid)
      invariant CreatedExactly(old(storage.blobs), storage.blobs, created)
      invariant AllStaged(values, prepared, userId, projectId, threshold, storage.blobs, sha256)
      invariant goal == Continue(prepared, PrepareRecords(recs, j, filename, expected))
    {
      ghost var before := storage.blobs;
      ghost var uidBefore := storage.nextUid;
      PrepareStep(recs, j, filename, expected, prepared);
      var v, saved, err := StageRecord(recs[j], filename, expected, userId, projectId, threshold, sha256, storage);
      CreatedTrans(old(storage.blobs), before, storage.blobs, created, saved);
      SavesOkJoin(storage.failing, old(storage.nextUid), uidBefore, storage.nextUid);
      created := created + saved;
      if err.Some? {
        failure := err;
        return;
      }
      ghost var p := PrepareRecord(recs[j], filename, expected).value;
      AllStagedAppend(values, prepared, [v.value], [p], userId, projectId, threshold, before, storage.blobs, sha256);
      values := values + [v.value];
      prepared := prepared + [p];
      j := j + 1;
    }
    assert prepared + [] == prepared;
  }

  /**
   * One file of upload_fasta: the size checks, the decoding, the parsing and
   * the records. On success the new running total is returned.
   */
  method StageFile(f: Upload, limits: Limits, totalSize: nat, expected: Option<SequenceType>, userId: int,
                   projectId: nat, sha256: string -> string, storage: Storage)
    returns (newTotal: nat, values: seq<Values>, created: seq<Path>, failure: Option<Error>, ghost prepared: seq<Prepared>)
    requires storage.Valid()
    modifies storage
    ensures storage.Valid() && storage.undeletable == old(storage.undeletable) && storage.failing == old(storage.failing)
    ensures old(storage.nextUid) <= storage.nextUid
    ensures CreatedExactly(old(storage.blobs), storage.blobs, created)
    ensures !SavesOk(storage.failing, old(storage.nextUid), storage.nextUid) ==> failure == Some(StorageFailure)
    ensures failure.Some? && SavesOk(storage.failing, old(storage.nextUid), storage.nextUid) ==>
              FileStep(f, limits, totalSize, expected) == Failure(failure.value)
    ensures failure.None? ==> FileStep(f, limits, totalSize, expected).Success?
    ensures failure.None? ==> FileStep(f, limits, totalSize, expected).value.0 == newTotal
    ensures failure.None? ==> FileStep(f, limits, totalSize, expected).value.1 == prepared
    ensures failure.None? ==> AllStaged(values, prepared, userId, projectId, limits.sizeThreshold, storage.blobs, sha256)
  {
    newTotal, values, created, failure, prepared := totalSize, [], [], None, [];
    if f.size > limits.maxFileSize {
      failure := Some(Validation(FileTooLarge(f.filename, f.size, limits.maxFileSize)));
      return;
    }
    newTotal := totalSize + f.size;
    if newTotal > limits.maxTotalSize {
      failure := Some(Validation(TotalTooLarge(newTotal, limits.maxTotalSize)));
      return;
    }
    if f.text.None? {
      failure := Some(UnicodeDecode(f.filename));
      return;
    }
    var parsed := ParseFasta(f.text.value);
    parsed := WrapParse(f.filename, parsed);
    if parsed.Failure? {
      FileStepUnparsed(f, limits, totalSize, expected);
      failure := Some(parsed.error);
      return;
    }
    FileStepParsed(f, limits, totalSize, expected, parsed.value);
    values, created, failure, prepared := StageRecords(parsed.value, f.filename, expected, userId, projectId,
                                                       limits.sizeThreshold, sha256, storage);
  }

  /**
   * The loop of upload_fasta over the files, up to the first error. The paths
   * saved along the way are returned for the clean-up.
   */
  method StageFiles(files: seq<Upload>, limits: Limits, expected: Option<SequenceType>, userId: int,
                    projectId: nat, sha256: string -> string, storage: Storage)
    returns (values: seq<Values>, created: seq<Path>, failure: Option<Error>, ghost prepared: seq<Prepared>)
    requires storage.Valid()
    modifies storage
    ensures storage.Valid() && storage.undeletable == old(storage.undeletable) && storage.failing == old(storage.failing)
    ensures old(storage.nextUid) <= storage.nextUid
    ensures CreatedExactly(old(storage.blobs), storage.blobs, created)
    ensures !SavesOk(storage.failing, old(storage.nextUid), storage.nextUid) ==> failure == Some(StorageFailure)
    ensures failure.Some? && SavesOk(storage.failing, old(storage.nextUid), storage.nextUid) ==>
              Plan(files, limits, expected) == Failure(failure.value)
    ensures failure.None? ==> Plan(files, limits, expected) == Success(prepared)
    ensures failure.None? ==> AllStaged(values, prepared, userId, projectId, limits.sizeThreshold, storage.blobs, sha256)
  {
    values, created, failure, prepared := [], [], None, [];
    ghost var goal := Plan(files, limits, expected);
    ContinueEmpty(goal);
    var totalSize := 0;
    var i := 0;
    while i < |files|
      invariant 0 <= i <= |files|
      invariant storage.Valid() && storage.undeletable == old(storage.undeletable) && storage.failing == old(storage.failing)
      invariant old(storage.nextUid) <= storage.nextUid && SavesOk(storage.failing, old(storage.nextUid), storage.nextUid)
      invariant CreatedExactly(old(storage.blobs), storage.blobs, created)
      invariant AllStaged(values, prepared, userId, projectId, limits.sizeThreshold, storage.blobs, sha256)
      invariant goal == Continue(prepared, PlanFrom(files, i, limits, totalSize, expected))
    {
      ghost var before := storage.blobs;
      ghost var uidBefore := storage.nextUid;
      ghost var step := FileStep(files[i], limits, totalSize, expected);
      PlanStep(files, i, limits, totalSize, expected, prepared);
      var newTotal, vs, paths, err, ps := StageFile(files[i], limits, totalSize, expected, userId, projectId,
                                                    sha256, storage);
      CreatedTrans(old(storage.blobs), before, storage.blobs, created, paths);
      SavesOkJoin(storage.failing, old(storage.nextUid), uidBefore, storage.nextUid);
      created := created + paths;
      if err.Some? {
        failure := err;
        if SavesOk(storage.failing, uidBefore, storage.nextUid) {
          assert step == Failure(err.value);
          assert goal == Failure(err.value);
        }
        return;
      }
      assert step == Success((newTotal, ps));
      AllStagedAppend(values, prepared, vs, ps, userId, projectId, limits.sizeThreshold, before, storage.blobs, sha256);
      values := values + vs;
      prepared := prepared + ps;
      totalSize := newTotal;
      i := i + 1;
    }
    assert prepared + [] == prepared;
  }

  /**
   * Deletes every created blob, ignoring failures: afterwards the only blobs
   * left over from the upload are the undeletable ones.
   */
  method CleanUp(created: seq<Path>, ghost before: map<Path, string>, storage: Storage)
    requires storage.Valid()
    requires CreatedExactly(before, storage.blobs, created)
    modifies storage
    ensures storage.Valid() && storage.undeletable == old(storage.undeletable)
    ensures storage.failing == old(storage.failing) && storage.nextUid == old(storage.nextUid)
    ensures Kept(before, storage.blobs)
    ensures forall p :: p in storage.blobs && p !in before ==> p in storage.undeletable
  {
    var j := 0;
    while j < |created|
      invariant 0 <= j <= |created|
      invariant storage.Valid() && storage.undeletable == old(storage.undeletable)
      invariant storage.failing == old(storage.failing) && storage.nextUid == old(storage.nextUid)
      invariant Kept(before, storage.blobs)
      invariant forall p :: p in storage.blobs && p !in before ==> p in created[j..] || p in storage.undeletable
      invariant forall p :: p in created ==> p !in before
    {
      var _ := storage.Delete(created[j]);
      j := j + 1;
    }
  }

  /** Every record of the plan has its row in the table after a successful upsert. */
  lemma UpsertedRows(t: Table, values: seq<Values>, prepared: seq<Prepared>, r: Table, userId: int, projectId: nat,
                     threshold: nat, blobs: map<Path, string>, sha256: string -> string)
    requires TableOk(t) && Upsert(t, values) == Success(r)
    requires AllStaged(values, prepared, userId, projectId, threshold, blobs, sha256)
    ensures forall k :: 0 <= k < |prepared| ==>
              (userId, prepared[k].name) in r.byName
              && Staged(r.rows[r.byName[(userId, prepared[k].name)]].values, prepared[k], userId, projectId, threshold,
                        blobs, sha256)
  {
    forall k | 0 <= k < |prepared|
      ensures (userId, prepared[k].name) in r.byName
              && Staged(r.rows[r.byName[(userId, prepared[k].name)]].values, prepared[k], userId, projectId, threshold,
                        blobs, sha256)
    {
      assert Key(values[k]) == (userId, prepared[k].name);
    }
  }

  /** The rows of other users are untouched by an upsert of the caller's values. */
  lemma UpsertOthersUntouched(t: Table, values: seq<Values>, r: Table, userId: int)
    requires TableOk(t) && Upsert(t, values) == Success(r)
    requires forall k :: 0 <= k < |values| ==> values[k].owner == userId
    ensures forall k :: k in t.byName && k.0 != userId ==>
              k in r.byName && r.rows[r.byName[k]] == t.rows[t.byName[k]]
  {
    forall k | k in t.byName && k.0 != userId
      ensures k in r.byName && r.rows[r.byName[k]] == t.rows[t.byName[k]]
    {
      assert k !in KeysOf(values);
    }
  }

  /**
   * upload_fasta. The project must exist and be writable by the caller. The
   * files are then read in order; a file over the size limit, a running total
   * over the total limit, text that is not UTF-8, a parsing error or an invalid
   * record stops the upload with that error. Large records are stored as blobs
   * along the way. The rows of all records are upserted at once. On any failure
   * after the access check, every blob saved by the call is deleted (a delete
   * that fails is ignored) and the table is left as it was. The result is the
   * number of records.
   */
  method UploadFasta(files: seq<Upload>, projectId: nat, userId: int, store: ProjectStore,
                     expected: Option<SequenceType>, limits: Limits, sha256: string -> string,
                     storage: Storage, table: Table)
    returns (r: Result<nat>, newTable: Table)
    requires storage.Valid() && TableOk(table) && store.Valid()
    modifies storage
    ensures storage.Valid() && TableOk(newTable)
    ensures storage.undeletable == old(storage.undeletable) && storage.failing == old(storage.failing)
    ensures projectId !in store.projects ==> r == Failure(NotFound("Project", projectId))
    ensures projectId in store.projects && store.projects[projectId].owner != userId ==>
              r == Failure(if store.projects[projectId].isPublic then PermissionDenied("update", "project")
                           else NotFound("project", projectId))
    ensures (projectId !in store.projects || store.projects[projectId].owner != userId) ==>
              storage.blobs == old(storage.blobs) && storage.nextUid == old(storage.nextUid)
    ensures r.Failure? ==> newTable == table
    ensures Kept(old(storage.blobs), storage.blobs)
    ensures r.Failure? ==> forall p :: p in storage.blobs && p !in old(storage.blobs) ==> p in storage.undeletable
    ensures !SavesOk(storage.failing, old(storage.nextUid), storage.nextUid) ==> r == Failure(StorageFailure)
    ensures projectId in store.projects && store.projects[projectId].owner == userId && Plan(files, limits, expected).Failure? ==>
              r.Failure?
    ensures projectId in store.projects && store.projects[projectId].owner == userId && Plan(files, limits, expected).Failure?
            && SavesOk(storage.failing, old(storage.nextUid), storage.nextUid) ==>
              r == Failure(Plan(files, limits, expected).error)
    ensures r.Success? ==>
              projectId in store.projects && store.projects[projectId].owner == userId
              && Plan(files, limits, expected).Success? && r.value == |Plan(files, limits, expected).value|
    ensures r.Success? ==> forall k :: 0 <= k < |Plan(files, limits, expected).value| ==>
              var p := Plan(files, limits, expected).value[k];
              (userId, p.name) in newTable.byName
              && Staged(newTable.rows[newTable.byName[(userId, p.name)]].values, p, userId, projectId,
                        limits.sizeThreshold, storage.blobs, sha256)
    ensures r.Success? ==> forall k :: k in table.byName && k.0 != userId ==>
              k in newTable.byName && newTable.rows[newTable.byName[k]] == table.rows[table.byName[k]]
    ensures projectId in store.projects && store.projects[projectId].owner == userId && Plan(files, limits, expected).Success?
            && SavesOk(storage.failing, old(storage.nextUid), storage.nextUid) ==>
              (r.Success? <==> DistinctNames(Plan(files, limits, expected).value))
              && (r.Failure? ==> r == Failure(DatabaseFailure))
    ensures r.Success? ==> newTable.byName.Keys == table.byName.Keys + NameKeys(userId, Plan(files, limits, expected).value)
    ensures r.Success? ==> forall k :: k in table.byName && k !in NameKeys(userId, Plan(files, limits, expected).value) ==>
              k in newTable.byName && newTable.rows[newTable.byName[k]] == table.rows[table.byName[k]]
  {
    newTable := table;
    if projectId !in store.projects {
      return Failure(NotFound("Project", projectId)), table;
    }
    var check := CheckProjectAccess(store.projects[projectId], userId, WRITE, true);
    if check.Failure? {
      return Failure(check.error), table;
    }
    var values, created, failure, prepared := StageFiles(files, limits, expected, userId, projectId, sha256, storage);
    if failure.None? {
      StagedKeys(values, prepared, userId, projectId, limits.sizeThreshold, storage.blobs, sha256);
    }
    if failure.None? && values != [] {
      var upserted := Upsert(table, values);
      if upserted.Failure? {
        failure := Some(upserted.error);
      } else {
        newTable := upserted.value;
        UpsertedRows(table, values, prepared, newTable, userId, projectId, limits.sizeThreshold, storage.blobs, sha256);
        UpsertOthersUntouched(table, values, newTable, userId);
      }
    }
    if failure.Some? {
      CleanUp(created, old(storage.blobs), storage);
      return Failure(failure.value), table;
    }
    r := Success(|values|);
  }
}
