// Enumerations shared by the job, sequence and project components.
module Enums {
  /** Kind of biological sequence; each has its own alphabet. */
  datatype SequenceType = DNA | RNA | PROTEIN

  /** Kind of access asked of a project. */
  datatype AccessType = READ | WRITE

  /** Life-cycle state of a background job. */
  datatype JobStatus = PENDING | RUNNING | COMPLETED | FAILED | CANCELLED

  /**
   * Job kinds. The job enumeration file lists only PAIRWISE_ALIGNMENT, but the
   * worker dispatches STRUCTURE_PREDICTION as well, so both are values here.
   */
  datatype JobType = PAIRWISE_ALIGNMENT | STRUCTURE_PREDICTION

  /** Local (Smith-Waterman) or global (Needleman-Wunsch) alignment mode. */
  datatype AlignmentType = LOCAL | GLOBAL

  /** A job that has not reached a terminal state: cancellation and revocation apply. */
  predicate IsActive(s: JobStatus) {
    s == PENDING || s == RUNNING
  }

  /** A job in one of the three terminal states. */
  predicate IsTerminal(s: JobStatus) {
    s == COMPLETED || s == FAILED || s == CANCELLED
  }
}
