// The worker task (api/jobs/tasks.py): the pairwise-alignment handler around
// the foreign aligner, the dispatch by job type between the RUNNING and
// COMPLETED writes, and the failure hook that records FAILED with the error
// text.
module Worker {
  import opened Enums
  import opened Errors
  import opened SequenceService
  import opened StructurePrediction
  import opened Jobs
  import Alignment

  /**
   * The best alignment's two rows, gaps written '-', as the aligner returns them
   * for the mode, the scores and the two residue strings.
   */
  type Aligner = (AlignmentType, Scoring, string, string) -> (string, string)

  /**
   * The outcome of process_pairwise_alignment: NotFound for the first missing
   * sequence, then a ValidationError when the two types differ (before any
   * residues are read), then the first error reading the residues; otherwise the
   * record with both names, the aligner's rows, their statistics and their CIGAR.
   */
  predicate PairwiseOutcome(table: Table, blobs: map<Path, string>, p: JobParams, aligner: Aligner, r: Result<JobResult>)
    requires p.PairwiseParams?
  {
    if p.sequenceId1 !in table.rows then r == Failure(NotFound("Sequence", p.sequenceId1))
    else if p.sequenceId2 !in table.rows then r == Failure(NotFound("Sequence", p.sequenceId2))
    else
      var s1 := table.rows[p.sequenceId1];
      var s2 := table.rows[p.sequenceId2];
      if s1.values.sequenceType != s2.values.sequenceType then
        r == Failure(Validation(DifferentTypes(s1.values.sequenceType, s2.values.sequenceType)))
      else if GetSequenceData(s1, blobs).Failure? then r == Failure(GetSequenceData(s1, blobs).error)
      else if GetSequenceData(s2, blobs).Failure? then r == Failure(GetSequenceData(s2, blobs).error)
      else
        var rows := aligner(p.alignmentType, p.scoring, GetSequenceData(s1, blobs).value, GetSequenceData(s2, blobs).value);
        r.Success? && r.value.PairwiseResult?
        && r.value.sequenceId1 == p.sequenceId1 && r.value.sequenceId2 == p.sequenceId2
        && r.value.sequenceName1 == s1.values.name && r.value.sequenceName2 == s2.values.name
        && r.value.alignmentType == p.alignmentType && r.value.scoring == p.scoring
        && r.value.alignedSeq1 == rows.0 && r.value.alignedSeq2 == rows.1
        && r.value.cigar == Alignment.Cigar(rows.0, rows.1)
        && Alignment.StatsOf(r.value.stats, rows.0, rows.1)
  }

  /** process_pairwise_alignment. */
  method ProcessPairwiseAlignment(table: Table, blobs: map<Path, string>, p: JobParams, aligner: Aligner)
    returns (r: Result<JobResult>)
    requires p.PairwiseParams?
    ensures PairwiseOutcome(table, blobs, p, aligner, r)
  {
    var seq1 := GetSequenceInternal(table, p.sequenceId1);
    if seq1.Failure? {
      return Failure(seq1.error);
    }
    var seq2 := GetSequenceInternal(table, p.sequenceId2);
    if seq2.Failure? {
      return Failure(seq2.error);
    }
    var t1, t2 := seq1.value.values.sequenceType, seq2.value.values.sequenceType;
    if t1 != t2 {
      return Failure(Validation(DifferentTypes(t1, t2)));
    }
    var data1 := GetSequenceData(seq1.value, blobs);
    if data1.Failure? {
      return Failure(data1.error);
    }
    var data2 := GetSequenceData(seq2.value, blobs);
    if data2.Failure? {
      return Failure(data2.error);
    }
    var rows := aligner(p.alignmentType, p.scoring, data1.value, data2.value);
    var stats := Alignment.CalculateAlignmentStats(rows.0, rows.1);
    var cigar := Alignment.GenerateCigar(rows.0, rows.1);
    r := Success(PairwiseResult(p.sequenceId1, p.sequenceId2, seq1.value.values.name, seq2.value.values.name,
                                p.alignmentType, rows.0, rows.1, stats, cigar, p.scoring));
  }

  /**
   * The dispatch on the job's type: the pairwise handler, which touches no
   * cache, or the structure-prediction handler over the cache.
   */
  method Dispatch(cache: StructureCache, table: Table, blobs: map<Path, string>, job: Job, maxResidues: nat,
                  aligner: Aligner, hash: string -> string, reply: Reply, parse: string -> Option<real>)
    returns (r: Result<JobResult>)
    requires cache.Valid() && TableOk(table) && job.jobType == JobTypeOf(job.params)
    modifies cache
    ensures cache.Valid()
    ensures job.params.PairwiseParams? ==>
              PairwiseOutcome(table, blobs, job.params, aligner, r)
              && cache.entries == old(cache.entries) && cache.submitted == old(cache.submitted)
    ensures job.params.StructureParams? ==>
              (r.Success? ==> r.value.StructureResult?)
              && Processed(table, blobs, job.params.sequenceId, job.params.forceRecompute, maxResidues, hash, reply, parse,
                           AsPrediction(r), old(cache.entries), old(cache.submitted), cache.entries, cache.submitted)
    ensures job.params.StructureParams? && r.Success? ==>
              r.value.StructureResult? && r.value.prediction.sequenceId == job.params.sequenceId
              && job.params.sequenceId in cache.entries && r.value.prediction.structure == cache.entries[job.params.sequenceId]
  {
    match job.jobType {
      case PAIRWISE_ALIGNMENT =>
        r := ProcessPairwiseAlignment(table, blobs, job.params, aligner);
      case STRUCTURE_PREDICTION =>
        var prediction := cache.Process(table, blobs, job.params.sequenceId, job.params.forceRecompute,
                                        maxResidues, hash, reply, parse);
        if prediction.Failure? {
          return Failure(prediction.error);
        }
        r := Success(StructureResult(prediction.value));
    }
  }

  /** A structure handler's result as the prediction it carries, or its error. */
  function AsPrediction(r: Result<JobResult>): Result<Prediction>
    requires r.Success? ==> r.value.StructureResult?
  {
    if r.Success? then Success(r.value.prediction) else Failure(r.error)
  }

  /** The job at jobId with the given status written over its old one. */
  function WithStatus(before: map<nat, Job>, jobId: nat, status: JobStatus): map<nat, Job>
    requires jobId in before
  {
    before[jobId := before[jobId].(status := status)]
  }

  /**
   * _process_job_async: RUNNING is written first (NotFound if there is no such
   * job), then the handler for the job's type runs, and only when it succeeds is
   * COMPLETED written with its result. When the handler fails the job is left
   * RUNNING and the error is returned.
   */
  method ProcessJob(store: JobStore, cache: StructureCache, table: Table, blobs: map<Path, string>, jobId: nat,
                    maxResidues: nat, aligner: Aligner, hash: string -> string, reply: Reply, parse: string -> Option<real>)
    returns (r: Result<JobResult>)
    requires store.Valid() && cache.Valid() && TableOk(table)
    modifies store, cache
    ensures store.Valid() && cache.Valid()
    ensures store.dispatched == old(store.dispatched) && store.revoked == old(store.revoked)
    ensures jobId !in old(store.jobs) ==>
              r == Failure(NotFound("Job", jobId)) && store.jobs == old(store.jobs) && store.history == old(store.history)
              && cache.entries == old(cache.entries) && cache.submitted == old(cache.submitted)
    ensures jobId in old(store.jobs) && r.Failure? ==>
              store.jobs == WithStatus(old(store.jobs), jobId, RUNNING)
              && store.history == old(store.history) + [(jobId, RUNNING)]
    ensures r.Success? ==>
              jobId in old(store.jobs)
              && store.jobs == old(store.jobs)[jobId := old(store.jobs)[jobId].(status := COMPLETED, result := Some(r.value), completed := true)]
              && store.history == old(store.history) + [(jobId, RUNNING), (jobId, COMPLETED)]
    ensures jobId in old(store.jobs) && old(store.jobs)[jobId].params.PairwiseParams? ==>
              PairwiseOutcome(table, blobs, old(store.jobs)[jobId].params, aligner, r)
              && cache.entries == old(cache.entries) && cache.submitted == old(cache.submitted)
    ensures jobId in old(store.jobs) && old(store.jobs)[jobId].params.StructureParams? ==>
              var p := old(store.jobs)[jobId].params;
              (r.Success? ==> r.value.StructureResult?)
              && Processed(table, blobs, p.sequenceId, p.forceRecompute, maxResidues, hash, reply, parse,
                           AsPrediction(r), old(cache.entries), old(cache.submitted), cache.entries, cache.submitted)
    ensures jobId in old(store.jobs) && old(store.jobs)[jobId].params.StructureParams? && r.Success? ==>
              r.value.StructureResult? && r.value.prediction.sequenceId == old(store.jobs)[jobId].params.sequenceId
              && r.value.prediction.sequenceId in cache.entries
              && r.value.prediction.structure == cache.entries[r.value.prediction.sequenceId]
  {
    var running := store.UpdateStatus(jobId, RUNNING);
    if running.Failure? {
      return Failure(running.error);
    }
    // The RUNNING write found the job, so the internal read does too.
    var job := store.GetJobInternal(jobId);
    assert job.Success?;
    var result := Dispatch(cache, table, blobs, job.value, maxResidues, aligner, hash, reply, parse);
    if result.Failure? {
      return result;
    }
    var completed := store.MarkCompleted(jobId, result.value);
    r := result;
  }

  /** The exception class named in the failure text. */
  function ClassName(e: Error): string {
    match e
    case NotFound(_, _) => "NotFoundError"
    case PermissionDenied(_, _) => "PermissionDeniedError"
    case Validation(_) => "ValidationError"
    case KeyError(_) => "KeyError"
    case MissingData(_) => "ValueError"
    case FileMissing => "FileNotFoundError"
    case UnicodeDecode(_) => "UnicodeDecodeError"
    case StorageFailure => "StorageError"
    case DatabaseFailure => "DatabaseError"
  }

  /** f"{exc.__class__.__name__}: {str(exc)}\n{traceback}" */
  function FailureText(e: Error, text: string, trace: string): string {
    ClassName(e) + ": " + text + "\n" + trace
  }

  /**
   * JobTask.on_failure: with a job id (a falsy id of 0 is skipped) the job is
   * marked FAILED with the failure text; `text` stands for str(exc) and `trace`
   * for the formatted traceback.
   */
  method OnFailure(store: JobStore, jobId: nat, e: Error, text: string, trace: string)
    requires store.Valid()
    modifies store
    ensures store.Valid()
    ensures store.dispatched == old(store.dispatched) && store.revoked == old(store.revoked)
    ensures jobId == 0 || jobId !in old(store.jobs) ==> store.jobs == old(store.jobs) && store.history == old(store.history)
    ensures jobId != 0 && jobId in old(store.jobs) ==>
              store.jobs == old(store.jobs)[jobId := old(store.jobs)[jobId].(status := FAILED, errorMessage := Some(FailureText(e, text, trace)), completed := true)]
              && store.history == old(store.history) + [(jobId, FAILED)]
  {
    if jobId != 0 {
      var failed := store.MarkFailed(jobId, FailureText(e, text, trace));
    }
  }

  /**
   * process_job as the queue runs it: the job is processed and, when that
   * raises, the failure hook records it. A job that exists ends COMPLETED with
   * the result or FAILED with the text of the error, after RUNNING.
   */
  method RunTask(store: JobStore, cache: StructureCache, table: Table, blobs: map<Path, string>, jobId: nat,
                 maxResidues: nat, aligner: Aligner, hash: string -> string, reply: Reply, parse: string -> Option<real>,
                 render: Error -> string, trace: string)
    returns (r: Result<JobResult>)
    requires store.Valid() && cache.Valid() && TableOk(table)
    modifies store, cache
    ensures store.Valid() && cache.Valid()
    ensures store.dispatched == old(store.dispatched) && store.revoked == old(store.revoked)
    ensures jobId !in old(store.jobs) ==>
              r == Failure(NotFound("Job", jobId)) && store.jobs == old(store.jobs) && store.history == old(store.history)
              && cache.entries == old(cache.entries) && cache.submitted == old(cache.submitted)
    ensures jobId in old(store.jobs) && r.Success? ==>
              store.jobs == old(store.jobs)[jobId := old(store.jobs)[jobId].(status := COMPLETED, result := Some(r.value), completed := true)]
    ensures jobId in old(store.jobs) && r.Failure? ==>
              store.jobs == old(store.jobs)[jobId := old(store.jobs)[jobId].(status := FAILED, errorMessage := Some(FailureText(r.error, render(r.error), trace)), completed := true)]
    ensures jobId in old(store.jobs) ==>
              store.jobs.Keys == old(store.jobs).Keys && jobId in store.jobs
              && store.jobs[jobId].params == old(store.jobs)[jobId].params && store.jobs[jobId].completed
    ensures jobId in old(store.jobs) && old(store.jobs)[jobId].params.PairwiseParams? ==>
              PairwiseOutcome(table, blobs, old(store.jobs)[jobId].params, aligner, r)
              && cache.entries == old(cache.entries) && cache.submitted == old(cache.submitted)
    ensures jobId in old(store.jobs) && old(store.jobs)[jobId].params.StructureParams? ==>
              var p := old(store.jobs)[jobId].params;
              (r.Success? ==> r.value.StructureResult?)
              && Processed(table, blobs, p.sequenceId, p.forceRecompute, maxResidues, hash, reply, parse,
                           AsPrediction(r), old(cache.entries), old(cache.submitted), cache.entries, cache.submitted)
    ensures jobId in old(store.jobs) && r.Success? ==>
              store.jobs[jobId].status == COMPLETED && store.jobs[jobId].result == Some(r.value)
              && store.history == old(store.history) + [(jobId, RUNNING), (jobId, COMPLETED)]
    ensures jobId in old(store.jobs) && r.Failure? ==>
              store.jobs[jobId].status == FAILED
              && store.jobs[jobId].errorMessage == Some(FailureText(r.error, render(r.error), trace))
              && store.history == old(store.history) + [(jobId, RUNNING), (jobId, FAILED)]
  {
    r := ProcessJob(store, cache, table, blobs, jobId, maxResidues, aligner, hash, reply, parse);
    if r.Failure? {
      OnFailure(store, jobId, r.error, render(r.error), trace);
    }
  }
}
