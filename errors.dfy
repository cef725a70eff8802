// Optional values, results, and the exceptions the service raises.
module Errors {
  import opened Enums

  datatype Option<T> = None | Some(value: T)

  /** The outcome of an operation that may raise one of the service's exceptions. */
  datatype Result<T> = Success(value: T) | Failure(error: Error)

  /**
   * The exception kinds. Validation errors carry a structured reason instead of
   * the rendered message text.
   */
  datatype Error =
    | NotFound(resource: string, id: int)
    | PermissionDenied(action: string, resource: string)
    | Validation(reason: Reason)
    | KeyError(key: string)
    | MissingData(sequenceId: int)       // ValueError: neither DB data nor a file path
    | FileMissing                         // FileNotFoundError from the blob store
    | UnicodeDecode(filename: string)     // the upload is not valid UTF-8
    | StorageFailure                      // a blob-store operation raised
    | DatabaseFailure                     // the batch upsert raised

  /** Why a ValidationError was raised. */
  datatype Reason =
    | FastaEmpty
    | DataBeforeHeader(line: nat)
    | EmptyHeader(line: nat)
    | NoSequenceData(header: string)
    | NoValidSequences
    | SequenceEmpty(name: string)
    | InvalidCharacters(chars: set<char>)
    | InvalidCharactersFor(name: string, expected: SequenceType, chars: set<char>)
    | InvalidSequenceOfType(sequenceType: SequenceType)
    | DifferentTypes(first: SequenceType, second: SequenceType)
    | NotProtein
    | TooManyResidues(length: nat, limit: nat)
    | UpstreamStatus(statusCode: int, detail: string)
    | UpstreamRequest(problem: string)
    | NoConfidenceScores
    | CannotCancel(status: JobStatus)
    | FileTooLarge(filename: string, size: nat, limit: nat)
    | TotalTooLarge(total: nat, limit: nat)
    | FastaParseError(filename: string, inner: Reason)
    | InvalidRecord(filename: string, header: string, inner: Reason)
}
