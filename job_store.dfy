// The job service (api/jobs/service.py): the jobs table with its ownership
// check, creation with dispatch to the worker queue, the status writes the
// worker makes, cancellation and deletion with task revocation, and the
// filtered, newest-first, paginated listing.
module Jobs {
  import opened Enums
  import opened Errors
  import opened Paging
  import Alignment
  import StructurePrediction

  /** The parameters of a job; the variant decides the job's type. */
  datatype JobParams =
    | PairwiseParams(sequenceId1: nat, sequenceId2: nat, alignmentType: AlignmentType, scoring: Scoring)
    | StructureParams(sequenceId: nat, forceRecompute: bool)

  /** The aligner's match, mismatch, gap-open and gap-extend scores, passed through as given. */
  datatype Scoring = Scoring(matchScore: int, mismatchScore: int, gapOpenScore: int, gapExtendScore: int)

  /** job_input.params.job_type: the discriminator of the parameters. */
  function JobTypeOf(p: JobParams): (t: JobType)
    ensures t == PAIRWISE_ALIGNMENT <==> p.PairwiseParams?
    ensures t == STRUCTURE_PREDICTION <==> p.StructureParams?
  {
    match p
    case PairwiseParams(_, _, _, _) => PAIRWISE_ALIGNMENT
    case StructureParams(_, _) => STRUCTURE_PREDICTION
  }

  /** The result record a handler produces; the alignment score (a float) is left out. */
  datatype JobResult =
    | PairwiseResult(
        sequenceId1: nat, sequenceId2: nat, sequenceName1: string, sequenceName2: string,
        alignmentType: AlignmentType, alignedSeq1: string, alignedSeq2: string,
        stats: Alignment.Stats, cigar: string, scoring: Scoring)
    | StructureResult(prediction: StructurePrediction.Prediction)

  /**
   * A row of the jobs table. `completed` stands for completed_at being set;
   * the creation order is the id order.
   */
  datatype Job = Job(
    id: nat, owner: int, jobType: JobType, params: JobParams, status: JobStatus,
    result: Option<JobResult>, errorMessage: Option<string>, completed: bool)

  /** check_job_ownership: someone else's job is reported as not found, never as forbidden. */
  function CheckJobOwnership(job: Job, userId: int): (r: Result<()>)
    ensures r.Success? <==> job.owner == userId
    ensures r.Failure? ==> r.error == NotFound("Job", job.id)
  {
    if job.owner != userId then Failure(NotFound("Job", job.id)) else Success(())
  }

  /**
   * The jobs table, the task ids sent to the queue and the task ids revoked.
   * A job's task id is str(job id), so the logs hold job ids. `history` records
   * every status write in order, as (job id, new status).
   */
  class JobStore {
    var jobs: map<nat, Job>
    var nextId: nat
    var dispatched: seq<nat>
    var revoked: seq<nat>
    ghost var history: seq<(nat, JobStatus)>

    ghost predicate Valid()
      reads this
    {
      nextId >= 1
      && forall id :: id in jobs ==>
           jobs[id].id == id && 0 < id < nextId && jobs[id].jobType == JobTypeOf(jobs[id].params)
    }

    constructor()
      ensures Valid() && jobs == map[] && dispatched == [] && revoked == [] && history == []
    {
      jobs := map[];
      nextId := 1;
      dispatched := [];
      revoked := [];
      history := [];
    }

    /** create_job: a PENDING job without result or error, owned by the caller, dispatched under its own id. */
    method Create(userId: int, params: JobParams) returns (job: Job)
      requires Valid()
      modifies this
      ensures Valid()
      ensures job.id !in old(jobs) && forall id :: id in old(jobs) ==> id < job.id
      ensures job == Job(job.id, userId, JobTypeOf(params), params, PENDING, None, None, false)
      ensures jobs == old(jobs)[job.id := job]
      ensures dispatched == old(dispatched) + [job.id]
      ensures revoked == old(revoked) && history == old(history)
    {
      job := Job(nextId, userId, JobTypeOf(params), params, PENDING, None, None, false);
      jobs := jobs[nextId := job];
      nextId := nextId + 1;
      dispatched := dispatched + [job.id];
    }

    /** get_job: the caller's own job; a missing job and someone else's job both give NotFound. */
    function GetJob(jobId: nat, userId: int): (r: Result<Job>)
      requires Valid()
      reads this
      ensures r.Success? <==> jobId in jobs && jobs[jobId].owner == userId
      ensures r.Success? ==> r.value == jobs[jobId]
      ensures r.Failure? ==> r.error == NotFound("Job", jobId)
    {
      if jobId !in jobs then Failure(NotFound("Job", jobId))
      else
        var check := CheckJobOwnership(jobs[jobId], userId);
        if check.Failure? then Failure(check.error) else Success(jobs[jobId])
    }

    /** get_job_internal: the job whoever owns it, for the worker. */
    function GetJobInternal(jobId: nat): (r: Result<Job>)
      reads this
      ensures r.Success? <==> jobId in jobs
      ensures r.Success? ==> r.value == jobs[jobId]
      ensures r.Failure? ==> r.error == NotFound("Job", jobId)
    {
      if jobId in jobs then Success(jobs[jobId]) else Failure(NotFound("Job", jobId))
    }

    /** The ids of the caller's jobs, restricted to one status when a filter is given. */
    function Selected(userId: int, status: Option<JobStatus>): set<nat>
      reads this
    {
      set id | id in jobs && jobs[id].owner == userId && (status.None? || jobs[id].status == status.value)
    }

    /**
     * list_user_jobs: the caller's jobs with the given status (all of them
     * without a filter), newest first, then OFFSET skip LIMIT limit. The k-th
     * job listed has exactly skip + k selected jobs newer than it, and the page
     * is as long as the window over the selection allows.
     */
    function ListUserJobs(userId: int, skip: nat, limit: nat, status: Option<JobStatus>): (r: seq<Job>)
      requires Valid()
      reads this
      ensures forall k :: 0 <= k < |r| ==> r[k].id in jobs && jobs[r[k].id] == r[k]
      ensures forall k :: 0 <= k < |r| ==> r[k].owner == userId
      ensures forall k :: 0 <= k < |r| ==> status.None? || r[k].status == status.value
      ensures forall i, j :: 0 <= i < j < |r| ==> r[i].id > r[j].id
      ensures |r| <= limit
      ensures |r| == if skip >= |Selected(userId, status)| then 0 else Min(limit, |Selected(userId, status)| - skip)
      ensures forall k :: 0 <= k < |r| ==> |Newer(Selected(userId, status), r[k].id)| == skip + k
    {
      var ids := PageIds(Selected(userId, status), nextId, skip, limit);
      var rows := jobs;
      seq(|ids|, k requires 0 <= k < |ids| => rows[ids[k]])
    }

    /** Without an offset and with a large enough limit, every selected job is listed. */
    lemma ListUserJobsComplete(userId: int, limit: nat, status: Option<JobStatus>, id: nat)
      requires Valid()
      requires limit >= nextId
      requires id in jobs && jobs[id].owner == userId && (status.None? || jobs[id].status == status.value)
      ensures jobs[id] in ListUserJobs(userId, 0, limit, status)
    {
      var ids := PageIds(Selected(userId, status), nextId, 0, limit);
      PageIdsAll(Selected(userId, status), nextId, limit, id);
      var k :| 0 <= k < |ids| && ids[k] == id;
      assert ListUserJobs(userId, 0, limit, status)[k] == jobs[id];
    }

    /** update_job_status: the status is overwritten, whatever it was; nothing else changes. */
    method UpdateStatus(jobId: nat, status: JobStatus) returns (r: Result<Job>)
      requires Valid()
      modifies this
      ensures Valid() && nextId == old(nextId)
      ensures dispatched == old(dispatched) && revoked == old(revoked)
      ensures jobId !in old(jobs) ==> r == Failure(NotFound("Job", jobId)) && jobs == old(jobs) && history == old(history)
      ensures jobId in old(jobs) ==>
                r == Success(old(jobs)[jobId].(status := status))
                && jobs == old(jobs)[jobId := r.value]
                && history == old(history) + [(jobId, status)]
    {
      if jobId !in jobs {
        return Failure(NotFound("Job", jobId));
      }
      var job := jobs[jobId].(status := status);
      jobs := jobs[jobId := job];
      history := history + [(jobId, status)];
      r := Success(job);
    }

    /** mark_job_completed: COMPLETED, the result stored and the completion time set. */
    method MarkCompleted(jobId: nat, result: JobResult) returns (r: Result<Job>)
      requires Valid()
      modifies this
      ensures Valid() && nextId == old(nextId)
      ensures dispatched == old(dispatched) && revoked == old(revoked)
      ensures jobId !in old(jobs) ==> r == Failure(NotFound("Job", jobId)) && jobs == old(jobs) && history == old(history)
      ensures jobId in old(jobs) ==>
                r == Success(old(jobs)[jobId].(status := COMPLETED, result := Some(result), completed := true))
                && jobs == old(jobs)[jobId := r.value]
                && history == old(history) + [(jobId, COMPLETED)]
    {
      if jobId !in jobs {
        return Failure(NotFound("Job", jobId));
      }
      var job := jobs[jobId].(status := COMPLETED, result := Some(result), completed := true);
      jobs := jobs[jobId := job];
      history := history + [(jobId, COMPLETED)];
      r := Success(job);
    }

    /** mark_job_failed: FAILED, the error message stored and the completion time set. */
    method MarkFailed(jobId: nat, message: string) returns (r: Result<Job>)
      requires Valid()
      modifies this
      ensures Valid() && nextId == old(nextId)
      ensures dispatched == old(dispatched) && revoked == old(revoked)
      ensures jobId !in old(jobs) ==> r == Failure(NotFound("Job", jobId)) && jobs == old(jobs) && history == old(history)
      ensures jobId in old(jobs) ==>
                r == Success(old(jobs)[jobId].(status := FAILED, errorMessage := Some(message), completed := true))
                && jobs == old(jobs)[jobId := r.value]
                && history == old(history) + [(jobId, FAILED)]
    {
      if jobId !in jobs {
        return Failure(NotFound("Job", jobId));
      }
      var job := jobs[jobId].(status := FAILED, errorMessage := Some(message), completed := true);
      jobs := jobs[jobId := job];
      history := history + [(jobId, FAILED)];
      r := Success(job);
    }

    /**
     * cancel_job: only the owner's PENDING or RUNNING job is cancelled, by first
     * revoking its task and then setting CANCELLED and the completion time; any
     * other status is a ValidationError and changes nothing.
     */
    method Cancel(jobId: nat, userId: int) returns (r: Result<Job>)
      requires Valid()
      modifies this
      ensures Valid() && nextId == old(nextId) && dispatched == old(dispatched)
      ensures r.Failure? ==> jobs == old(jobs) && revoked == old(revoked) && history == old(history)
      ensures jobId !in old(jobs) || old(jobs)[jobId].owner != userId ==> r == Failure(NotFound("Job", jobId))
      ensures jobId in old(jobs) && old(jobs)[jobId].owner == userId && !IsActive(old(jobs)[jobId].status) ==>
                r == Failure(Validation(CannotCancel(old(jobs)[jobId].status)))
      ensures jobId in old(jobs) && old(jobs)[jobId].owner == userId && IsActive(old(jobs)[jobId].status) ==>
                r == Success(old(jobs)[jobId].(status := CANCELLED, completed := true))
                && jobs == old(jobs)[jobId := r.value]
                && revoked == old(revoked) + [jobId]
                && history == old(history) + [(jobId, CANCELLED)]
    {
      if jobId !in jobs {
        return Failure(NotFound("Job", jobId));
      }
      var job := jobs[jobId];
      var check := CheckJobOwnership(job, userId);
      if check.Failure? {
        return Failure(check.error);
      }
      if !(job.status == PENDING || job.status == RUNNING) {
        return Failure(Validation(CannotCancel(job.status)));
      }
      revoked := revoked + [jobId];
      job := job.(status := CANCELLED, completed := true);
      jobs := jobs[jobId := job];
      history := history + [(jobId, CANCELLED)];
      r := Success(job);
    }

    /** delete_job: the owner's job is removed, its task revoked first iff it is PENDING or RUNNING. */
    method Delete(jobId: nat, userId: int) returns (r: Result<()>)
      requires Valid()
      modifies this
      ensures Valid() && nextId == old(nextId) && dispatched == old(dispatched) && history == old(history)
      ensures r.Failure? ==> jobs == old(jobs) && revoked == old(revoked)
      ensures r.Success? <==> jobId in old(jobs) && old(jobs)[jobId].owner == userId
      ensures r.Failure? ==> r == Failure(NotFound("Job", jobId))
      ensures r.Success? ==>
                jobs == old(jobs) - {jobId}
                && revoked == old(revoked) + (if IsActive(old(jobs)[jobId].status) then [jobId] else [])
    {
      if jobId !in jobs {
        return Failure(NotFound("Job", jobId));
      }
      var job := jobs[jobId];
      var check := CheckJobOwnership(job, userId);
      if check.Failure? {
        return Failure(check.error);
      }
      if job.status == PENDING || job.status == RUNNING {
        revoked := revoked + [jobId];
      }
      jobs := jobs - {jobId};
      r := Success(());
    }
  }
}
