// The structure-prediction job (api/jobs/tasks.py): the preconditions on the
// sequence, the cache rule keyed by the content hash, the three outcomes of the
// request to the prediction service with their error texts, the confidence
// column read from the returned PDB payload, and the upsert of the cache entry.
module StructurePrediction {
  import opened Enums
  import opened Errors
  import opened PyStr
  import opened SequenceService

  // ---------------------------------------------------------------------------
  // The request to the prediction service.

  /** Upstream error detail is cut to this many characters before "..." is added. */
  const DetailLimit: nat := 200

  /**
   * The three ways the request can end: the payload text, an HTTP error status
   * with its response body and the exception's own message, or a transport
   * failure (refused connection, timeout, name resolution) described in words.
   */
  datatype Reply =
    | Delivered(text: string)
    | HttpError(statusCode: int, body: string, message: string)
    | TransportError(problem: string)

  /**
   * The detail shown for an HTTP error: the stripped body, kept whole when it is
   * at most 200 characters and otherwise cut to its first 200 characters
   * followed by "...".
   */
  function TruncateDetail(body: string): (r: string)
    ensures |r| <= DetailLimit + 3
    ensures r == [] <==> AllSpace(body)
    ensures |Strip(body)| <= DetailLimit ==> r == Strip(body)
    ensures |Strip(body)| > DetailLimit ==>
              |r| == DetailLimit + 3 && r[..DetailLimit] == Strip(body)[..DetailLimit] && r[DetailLimit..] == "..."
  {
    var detail := Strip(body);
    if |detail| > DetailLimit then detail[..DetailLimit] + "..." else detail
  }

  /**
   * _request_esmfold_prediction: the payload on success; an HTTP error becomes a
   * ValidationError carrying the status and the truncated detail, or the
   * exception's message when the body is blank; a transport failure becomes a
   * ValidationError naming the problem.
   */
  function RequestPrediction(reply: Reply): (r: Result<string>)
    ensures r.Success? <==> reply.Delivered?
    ensures reply.Delivered? ==> r.value == reply.text
    ensures reply.HttpError? && !AllSpace(reply.body) ==>
              r.Failure? && r.error == Validation(UpstreamStatus(reply.statusCode, TruncateDetail(reply.body)))
    ensures reply.HttpError? && AllSpace(reply.body) ==>
              r.Failure? && r.error == Validation(UpstreamStatus(reply.statusCode, reply.message))
    ensures reply.TransportError? ==> r.Failure? && r.error == Validation(UpstreamRequest(reply.problem))
  {
    match reply
    case Delivered(text) => Success(text)
    case HttpError(statusCode, body, message) =>
      var detail := TruncateDetail(body);
      Failure(Validation(UpstreamStatus(statusCode, if detail == [] then message else detail)))
    case TransportError(problem) => Failure(Validation(UpstreamRequest(problem)))
  }

  // ---------------------------------------------------------------------------
  // _extract_confidence_scores_from_pdb

  /** A coordinate record of a PDB file. */
  predicate IsAtomRecord(line: string) {
    StartsWith(line, "ATOM") || StartsWith(line, "HETATM")
  }

  /**
   * The confidence a line contributes: none unless it is a coordinate record
   * whose columns 60 to 66, stripped, parse as a number. `parse` stands for
   * float(), None where float() raises ValueError.
   */
  function LineScore(line: string, parse: string -> Option<real>): (r: Option<real>)
    ensures r.Some? ==> IsAtomRecord(line) && parse(Strip(Slice(line, 60, 66))) == r
    ensures IsAtomRecord(line) ==> r == parse(Strip(Slice(line, 60, 66)))
  {
    if IsAtomRecord(line) then parse(Strip(Slice(line, 60, 66))) else None
  }

  /** The scores of the lines, in line order, one per line that yields one. */
  function ConfidenceScores(lines: seq<string>, parse: string -> Option<real>): (r: seq<real>)
    ensures |r| <= |lines|
    decreases |lines|
  {
    if lines == [] then []
    else
      var last := LineScore(lines[|lines| - 1], parse);
      ConfidenceScores(lines[..|lines| - 1], parse) + (if last.Some? then [last.value] else [])
  }

  /** The scores of two blocks of lines are the scores of the first, then those of the second. */
  lemma {:induction false} ConfidenceScoresAppend(a: seq<string>, b: seq<string>, parse: string -> Option<real>)
    ensures ConfidenceScores(a + b, parse) == ConfidenceScores(a, parse) + ConfidenceScores(b, parse)
    decreases |b|
  {
    if b != [] {
      var init := b[..|b| - 1];
      ConfidenceScoresAppend(a, init, parse);
      assert (a + b)[..|a + b| - 1] == a + init;
      assert (a + b)[|a + b| - 1] == b[|b| - 1];
      var last := LineScore(b[|b| - 1], parse);
      var tail := if last.Some? then [last.value] else [];
      assert ConfidenceScores(a + b, parse) == ConfidenceScores(a + init, parse) + tail;
      assert ConfidenceScores(b, parse) == ConfidenceScores(init, parse) + tail;
    } else {
      assert a + b == a;
    }
  }

  /** One line contributes its own score or nothing. */
  lemma ConfidenceScoresOne(line: string, parse: string -> Option<real>)
    ensures ConfidenceScores([line], parse) == if LineScore(line, parse).Some? then [LineScore(line, parse).value] else []
  {
    assert [line][..0] == [];
  }

  /** When every line yields a score, the result holds exactly those scores in line order. */
  lemma {:induction false} ConfidenceScoresAll(lines: seq<string>, parse: string -> Option<real>)
    requires forall k :: 0 <= k < |lines| ==> LineScore(lines[k], parse).Some?
    ensures |ConfidenceScores(lines, parse)| == |lines|
    ensures forall k :: 0 <= k < |lines| ==> ConfidenceScores(lines, parse)[k] == LineScore(lines[k], parse).value
    decreases |lines|
  {
    if lines != [] {
      var init := lines[..|lines| - 1];
      ConfidenceScoresAll(init, parse);
      var last := LineScore(lines[|lines| - 1], parse).value;
      assert ConfidenceScores(lines, parse) == ConfidenceScores(init, parse) + [last];
      forall k | 0 <= k < |lines| - 1
        ensures ConfidenceScores(lines, parse)[k] == LineScore(lines[k], parse).value
      {
        assert lines[k] == init[k];
      }
    }
  }

  /** A payload without coordinate records yields no scores. */
  lemma {:induction false} ConfidenceScoresNoRecords(lines: seq<string>, parse: string -> Option<real>)
    requires forall k :: 0 <= k < |lines| ==> !IsAtomRecord(lines[k])
    ensures ConfidenceScores(lines, parse) == []
    decreases |lines|
  {
    if lines != [] {
      ConfidenceScoresNoRecords(lines[..|lines| - 1], parse);
    }
  }

  /** Taking one more line adds that line's score, if it yields one. */
  lemma ConfidenceScoresStep(lines: seq<string>, i: nat, parse: string -> Option<real>)
    requires i < |lines|
    ensures ConfidenceScores(lines[..i + 1], parse) ==
              ConfidenceScores(lines[..i], parse) +
              (if LineScore(lines[i], parse).Some? then [LineScore(lines[i], parse).value] else [])
  {
    assert lines[..i + 1][..i] == lines[..i];
  }

  /** The loop over pdb_content.splitlines(), appending each score it can read. */
  method ExtractConfidenceScores(pdb: string, parse: string -> Option<real>) returns (scores: seq<real>)
    ensures scores == ConfidenceScores(SplitLines(pdb), parse)
  {
    var lines := SplitLines(pdb);
    scores := [];
    for i := 0 to |lines|
      invariant scores == ConfidenceScores(lines[..i], parse)
    {
      ConfidenceScoresStep(lines, i, parse);
      var line := lines[i];
      if !(StartsWith(line, "ATOM") || StartsWith(line, "HETATM")) {
        continue;
      }
      var score := parse(Strip(Slice(line, 60, 66)));
      if score.None? {
        continue;
      }
      scores := scores + [score.value];
    }
    assert lines[..|lines|] == lines;
  }

  // ---------------------------------------------------------------------------
  // The cache of predicted structures.

  /**
   * A cache entry: the structure predicted for one sequence, the hash of the
   * residues it was predicted from, the payload and its confidence scores.
   */
  datatype Structure = Structure(
    id: nat, sequenceId: nat, source: string, hash: string,
    pdb: string, scores: seq<real>, residueCount: nat)

  /** The result record of the job; the aggregates over the scores are left out. */
  datatype Prediction = Prediction(sequenceId: nat, sequenceName: string, structure: Structure, cachedResult: bool)

  /** The source tag of structures predicted by the service. */
  const EsmFold := "esmfold"

  /** An existing entry is reused iff it was predicted from the same residues and no recompute is forced. */
  predicate CacheHit(existing: Option<Structure>, hash: string, forceRecompute: bool) {
    existing.Some? && existing.value.hash == hash && !forceRecompute
  }

  /**
   * The two checks made before the residues are read: only proteins, and no
   * more residues than the service accepts.
   */
  function CheckPredictable(row: SequenceRow, maxResidues: nat): (r: Result<()>)
    ensures r.Success? <==> row.values.sequenceType.PROTEIN? && row.values.length <= maxResidues
    ensures !row.values.sequenceType.PROTEIN? ==> r == Failure(Validation(NotProtein))
    ensures row.values.sequenceType.PROTEIN? && row.values.length > maxResidues ==>
              r == Failure(Validation(TooManyResidues(row.values.length, maxResidues)))
  {
    if !row.values.sequenceType.PROTEIN? then Failure(Validation(NotProtein))
    else if row.values.length > maxResidues then Failure(Validation(TooManyResidues(row.values.length, maxResidues)))
    else Success(())
  }

  /**
   * The structures table with at most one entry per sequence, and the log of
   * residue strings submitted to the prediction service.
   */
  class StructureCache {
    var entries: map<nat, Structure>
    var nextId: nat
    var submitted: seq<string>

    ghost predicate Valid()
      reads this
    {
      forall s :: s in entries ==>
        entries[s].sequenceId == s && entries[s].id < nextId && |entries[s].scores| == entries[s].residueCount
    }

    constructor()
      ensures Valid() && entries == map[] && submitted == []
    {
      entries := map[];
      nextId := 0;
      submitted := [];
    }

    /** get_sequence_structure_internal: the entry of a sequence, if any. */
    function Lookup(sequenceId: nat): (r: Option<Structure>)
      reads this
      ensures r.Some? <==> sequenceId in entries
      ensures r.Some? ==> r.value == entries[sequenceId]
    {
      if sequenceId in entries then Some(entries[sequenceId]) else None
    }

    /**
     * save_sequence_structure_prediction: insert or replace the sequence's entry;
     * a replaced entry keeps its id, a new one gets a fresh id.
     */
    method Save(row: SequenceRow, pdb: string, scores: seq<real>, hash: string) returns (s: Structure)
      requires Valid()
      modifies this
      ensures Valid() && submitted == old(submitted)
      ensures s == Structure(s.id, row.id, EsmFold, hash, pdb, scores, |scores|)
      ensures row.id in old(entries) ==> s.id == old(entries)[row.id].id
      ensures row.id !in old(entries) ==> forall t :: t in old(entries) ==> old(entries)[t].id != s.id
      ensures entries == old(entries)[row.id := s]
    {
      var id := nextId;
      if row.id in entries {
        id := entries[row.id].id;
      } else {
        nextId := nextId + 1;
      }
      s := Structure(id, row.id, EsmFold, hash, pdb, scores, |scores|);
      entries := entries[row.id := s];
    }

    /** _request_esmfold_prediction: the residues are logged as sent, and `reply` is what comes back. */
    method Request(residues: string, reply: Reply) returns (r: Result<string>)
      modifies this
      ensures r == RequestPrediction(reply)
      ensures entries == old(entries) && nextId == old(nextId) && submitted == old(submitted) + [residues]
    {
      submitted := submitted + [residues];
      r := RequestPrediction(reply);
    }

    /**
     * process_structure_prediction. `hash` stands for the SHA-256 hex digest of
     * the UTF-8 residues, `reply` for the service's answer and `parse` for float().
     * Nothing is sent and nothing is stored unless the sequence exists, is a
     * protein within the residue limit, its residues can be read, and the cache
     * misses; a hit returns the stored entry with cachedResult set.
     */
    method Process(table: Table, blobs: map<Path, string>, sequenceId: nat, forceRecompute: bool, maxResidues: nat,
                   hash: string -> string, reply: Reply, parse: string -> Option<real>)
      returns (r: Result<Prediction>)
      requires Valid() && TableOk(table)
      modifies this
      ensures Valid()
      ensures sequenceId !in table.rows ==> r == Failure(NotFound("Sequence", sequenceId))
      ensures sequenceId in table.rows && CheckPredictable(table.rows[sequenceId], maxResidues).Failure? ==>
                r == Failure(CheckPredictable(table.rows[sequenceId], maxResidues).error)
      ensures sequenceId in table.rows && CheckPredictable(table.rows[sequenceId], maxResidues).Success?
              && GetSequenceData(table.rows[sequenceId], blobs).Failure? ==>
                r == Failure(GetSequenceData(table.rows[sequenceId], blobs).error)
      ensures !Proceeds(table, blobs, sequenceId, maxResidues) ==>
                entries == old(entries) && submitted == old(submitted)
      ensures Proceeds(table, blobs, sequenceId, maxResidues) ==>
                Hit(table, blobs, sequenceId, hash, forceRecompute, old(Lookup(sequenceId))) == (r.Success? && r.value.cachedResult)
      ensures Proceeds(table, blobs, sequenceId, maxResidues) && Hit(table, blobs, sequenceId, hash, forceRecompute, old(Lookup(sequenceId))) ==>
                r.Success? && r.value.structure == old(entries)[sequenceId]
                && entries == old(entries) && submitted == old(submitted)
      ensures Proceeds(table, blobs, sequenceId, maxResidues) && !Hit(table, blobs, sequenceId, hash, forceRecompute, old(Lookup(sequenceId))) ==>
                submitted == old(submitted) + [Residues(table, blobs, sequenceId)]
                && Miss(table, sequenceId, hash(Residues(table, blobs, sequenceId)), reply, parse, r, old(entries), entries)
      ensures r.Success? ==> r.value.sequenceId == sequenceId && sequenceId in table.rows
                             && r.value.sequenceName == table.rows[sequenceId].values.name
      ensures r.Success? ==> sequenceId in entries && entries[sequenceId].hash == hash(Residues(table, blobs, sequenceId))
    {
      var got := GetSequenceInternal(table, sequenceId);
      if got.Failure? {
        return Failure(got.error);
      }
      var row := got.value;
      if row.values.sequenceType != PROTEIN {
        return Failure(Validation(NotProtein));
      }
      if row.values.length > maxResidues {
        return Failure(Validation(TooManyResidues(row.values.length, maxResidues)));
      }
      var data := GetSequenceData(row, blobs);
      if data.Failure? {
        return Failure(data.error);
      }
      var residues := data.value;
      var sequenceHash := hash(residues);
      var existing := Lookup(row.id);
      if existing.Some? && existing.value.hash == sequenceHash && !forceRecompute {
        return Success(Prediction(row.id, row.values.name, existing.value, true));
      }
      var pdb := Request(residues, reply);
      if pdb.Failure? {
        return Failure(pdb.error);
      }
      var scores := ExtractConfidenceScores(pdb.value, parse);
      if scores == [] {
        return Failure(Validation(NoConfidenceScores));
      }
      var structure := Save(row, pdb.value, scores, sequenceHash);
      r := Success(Prediction(row.id, row.values.name, structure, false));
    }
  }

  /**
   * The whole outcome of process_structure_prediction, over the cache before
   * and after: NotFound, the refusal of CheckPredictable, the error reading the
   * residues (nothing sent, nothing stored), then a hit returning the stored
   * entry or a miss that sends the residues and stores what comes back.
   */
  ghost predicate Processed(table: Table, blobs: map<Path, string>, sequenceId: nat, forceRecompute: bool,
                            maxResidues: nat, hash: string -> string, reply: Reply, parse: string -> Option<real>,
                            r: Result<Prediction>, before: map<nat, Structure>, submittedBefore: seq<string>,
                            after: map<nat, Structure>, submittedAfter: seq<string>) {
    var existing := if sequenceId in before then Some(before[sequenceId]) else None;
    (sequenceId !in table.rows ==> r == Failure(NotFound("Sequence", sequenceId)))
    && (sequenceId in table.rows && CheckPredictable(table.rows[sequenceId], maxResidues).Failure? ==>
          r == Failure(CheckPredictable(table.rows[sequenceId], maxResidues).error))
    && (sequenceId in table.rows && CheckPredictable(table.rows[sequenceId], maxResidues).Success?
        && GetSequenceData(table.rows[sequenceId], blobs).Failure? ==>
          r == Failure(GetSequenceData(table.rows[sequenceId], blobs).error))
    && (!Proceeds(table, blobs, sequenceId, maxResidues) ==> after == before && submittedAfter == submittedBefore)
    && (Proceeds(table, blobs, sequenceId, maxResidues) && Hit(table, blobs, sequenceId, hash, forceRecompute, existing) ==>
          r.Success? && r.value.cachedResult && r.value.structure == before[sequenceId]
          && after == before && submittedAfter == submittedBefore)
    && (Proceeds(table, blobs, sequenceId, maxResidues) && !Hit(table, blobs, sequenceId, hash, forceRecompute, existing) ==>
          submittedAfter == submittedBefore + [Residues(table, blobs, sequenceId)]
          && Miss(table, sequenceId, hash(Residues(table, blobs, sequenceId)), reply, parse, r, before, after))
    && (r.Success? ==> r.value.sequenceId == sequenceId && sequenceId in table.rows
                       && r.value.sequenceName == table.rows[sequenceId].values.name
                       && sequenceId in after && after[sequenceId].hash == hash(Residues(table, blobs, sequenceId)))
  }

  /** The sequence exists, passes both checks, and its residues can be read. */
  predicate Proceeds(table: Table, blobs: map<Path, string>, sequenceId: nat, maxResidues: nat) {
    sequenceId in table.rows
    && CheckPredictable(table.rows[sequenceId], maxResidues).Success?
    && GetSequenceData(table.rows[sequenceId], blobs).Success?
  }

  /** The residues of a sequence, where they can be read. */
  function Residues(table: Table, blobs: map<Path, string>, sequenceId: nat): string {
    if sequenceId in table.rows && GetSequenceData(table.rows[sequenceId], blobs).Success?
    then GetSequenceData(table.rows[sequenceId], blobs).value
    else []
  }

  predicate Hit(table: Table, blobs: map<Path, string>, sequenceId: nat, hash: string -> string, forceRecompute: bool,
                existing: Option<Structure>) {
    CacheHit(existing, hash(Residues(table, blobs, sequenceId)), forceRecompute)
  }

  /**
   * What a cache miss leads to: the request's error, a ValidationError when the
   * payload holds no scores (nothing stored in either case), or else an entry
   * for the sequence holding the payload, its scores in order, their count and
   * the fresh hash, returned with cachedResult unset.
   */
  ghost predicate Miss(table: Table, sequenceId: nat, sequenceHash: string, reply: Reply, parse: string -> Option<real>,
                       r: Result<Prediction>, before: map<nat, Structure>, after: map<nat, Structure>) {
    if RequestPrediction(reply).Failure? then
      r == Failure(RequestPrediction(reply).error) && after == before
    else if ConfidenceScores(SplitLines(reply.text), parse) == [] then
      r == Failure(Validation(NoConfidenceScores)) && after == before
    else
      r.Success? && !r.value.cachedResult
      && sequenceId in after && after == before[sequenceId := r.value.structure]
      && r.value.structure.sequenceId == sequenceId
      && r.value.structure.pdb == reply.text
      && r.value.structure.scores == ConfidenceScores(SplitLines(reply.text), parse)
      && r.value.structure.residueCount == |r.value.structure.scores|
      && r.value.structure.hash == sequenceHash
      && r.value.structure.source == EsmFold
  }
}
