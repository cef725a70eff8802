// The older sequence service (sequences/service.py) and the validation half of
// the older FASTA parser (sequences/fasta_parser.py). Its projects are those of
// the older project service.
module LegacySequences {
  import opened Enums
  import opened Errors
  import opened PyStr
  import opened SequenceUtils
  import opened Projects
  import Fasta
  import LegacyProjects

  /** check_sequence_is_valid: set(data.upper()) is a subset of the type's alphabet. */
  function CheckSequenceIsValid(data: string, t: SequenceType): (r: bool)
    ensures r <==> forall i :: 0 <= i < |data| ==> UpperChar(data[i]) in Alphabet(t)
  {
    CharSetWithin(data, Alphabet(t));
    CharSet(data) <= Alphabet(t)
  }

  /** On non-empty data the older check and the newer validation with an expected type agree. */
  lemma CheckAgreesWithValidate(data: string, name: Option<string>, t: SequenceType)
    requires data != []
    ensures CheckSequenceIsValid(data, t) <==> ValidateSequenceData(data, name, Some(t)).Success?
  {
  }

  /** The empty string is valid for every type. */
  lemma EmptyIsValid(t: SequenceType)
    ensures CheckSequenceIsValid("", t)
  {
  }

  /** Lower case is accepted. */
  lemma LowercaseIsValid()
    ensures CheckSequenceIsValid("atcg", DNA)
  {
    assert UpperChar('a') == 'A' && UpperChar('t') == 'T' && UpperChar('c') == 'C' && UpperChar('g') == 'G';
  }

  /** 'U' is not a DNA letter. */
  lemma UracilIsNotDna()
    ensures !CheckSequenceIsValid("ACGU", DNA)
  {
    assert UpperChar("ACGU"[3]) == 'U';
  }

  /** 'T' is not an RNA letter. */
  lemma ThymineIsNotRna()
    ensures !CheckSequenceIsValid("ACGT", RNA)
  {
    assert UpperChar("ACGT"[3]) == 'T';
  }

  /**
   * validate_fasta_sequence: empty data is refused under the record's header; with
   * an expected type the record is accepted, as that type, iff its data passes
   * check_sequence_is_valid; without one the type is detected.
   */
  function ValidateFastaSequence(rec: Fasta.FastaRecord, expected: Option<SequenceType>): (r: Result<SequenceType>)
    ensures rec.sequenceData == [] ==> r == Failure(Validation(SequenceEmpty(rec.header)))
    ensures rec.sequenceData != [] && expected.Some? ==>
              (r.Success? <==> CheckSequenceIsValid(rec.sequenceData, expected.value))
              && (r.Success? ==> r.value == expected.value)
              && (r.Failure? ==>
                    r == Failure(Validation(InvalidCharactersFor(rec.header, expected.value,
                                                                 CharSet(rec.sequenceData) - Alphabet(expected.value))))
                    && r.error.reason.chars != {})
    ensures rec.sequenceData != [] && expected.None? ==> r == DetectSequenceType(rec.sequenceData)
  {
    ValidateSequenceData(rec.sequenceData, Some(rec.header), expected)
  }

  /** A record produced by a successful parse never fails validation for being empty. */
  lemma ParsedRecordsAreNonEmpty(content: string, k: nat, expected: Option<SequenceType>)
    requires Fasta.Parse(content).Success? && k < |Fasta.Parse(content).value|
    ensures var rec := Fasta.Parse(content).value[k];
            ValidateFastaSequence(rec, expected) != Failure(Validation(SequenceEmpty(rec.header)))
  {
    var records := Fasta.Parse(content).value;
    Fasta.ParsedRecords(content);
    assert Fasta.RecordOk(records[k]);
    NonEmptyNotRefusedAsEmpty(records[k], expected);
  }

  /** Validation of non-empty data fails, if at all, for its characters. */
  lemma NonEmptyNotRefusedAsEmpty(rec: Fasta.FastaRecord, expected: Option<SequenceType>)
    requires rec.sequenceData != []
    ensures ValidateFastaSequence(rec, expected) != Failure(Validation(SequenceEmpty(rec.header)))
  {
    if expected.None? {
      assert ValidateFastaSequence(rec, expected) == DetectSequenceType(rec.sequenceData);
    }
  }

  /** The request body of create_sequence and update_sequence. */
  datatype SequenceInput = SequenceInput(name: string, sequenceData: string, sequenceType: SequenceType,
                                         projectId: nat, description: Option<string>)

  /** A row of the older sequences table. */
  datatype LegacySequence = LegacySequence(id: nat, owner: int, name: string, sequenceData: string,
                                           sequenceType: SequenceType, projectId: nat, description: Option<string>)

  /** The five fields update_sequence overwrites; id and owner stay. */
  function Overwrite(row: LegacySequence, input: SequenceInput): (r: LegacySequence)
    ensures r.id == row.id && r.owner == row.owner
    ensures r.name == input.name && r.sequenceData == input.sequenceData && r.sequenceType == input.sequenceType
    ensures r.projectId == input.projectId && r.description == input.description
  {
    row.(name := input.name, sequenceData := input.sequenceData, sequenceType := input.sequenceType,
         description := input.description, projectId := input.projectId)
  }

  /** Overwriting is idempotent and forgets everything the input replaces. */
  lemma OverwriteForgets(a: LegacySequence, b: LegacySequence, input: SequenceInput)
    requires a.id == b.id && a.owner == b.owner
    ensures Overwrite(a, input) == Overwrite(b, input)
    ensures Overwrite(Overwrite(a, input), input) == Overwrite(a, input)
  {
  }

  /** The error a refused WRITE check raises. */
  function WriteRefusal(p: Project, userId: int): (e: Error)
    requires p.owner != userId
    ensures CheckProjectAccess(p, userId, WRITE, true) == Failure(e)
    ensures p.isPublic ==> e.PermissionDenied?
    ensures !p.isPublic ==> e == NotFound("project", p.id)
  {
    CheckProjectAccess(p, userId, WRITE, true).error
  }

  class LegacySequenceStore {
    var rows: map<nat, LegacySequence>
    var nextId: nat

    ghost predicate Valid()
      reads this
    {
      nextId >= 1 && forall id :: id in rows ==> rows[id].id == id && 0 < id < nextId
    }

    constructor()
      ensures Valid() && rows == map[]
    {
      rows := map[];
      nextId := 1;
    }

    /**
     * create_sequence: the data is validated before the project is looked up,
     * then the caller needs WRITE access to the project.
     */
    method Create(input: SequenceInput, userId: int, projects: LegacyProjects.LegacyProjectStore) returns (r: Result<LegacySequence>)
      requires Valid() && projects.Valid()
      modifies this
      ensures Valid()
      ensures !CheckSequenceIsValid(input.sequenceData, input.sequenceType) ==>
                r == Failure(Validation(InvalidSequenceOfType(input.sequenceType)))
      ensures CheckSequenceIsValid(input.sequenceData, input.sequenceType) && input.projectId !in projects.projects ==>
                r == Failure(NotFound("Project", input.projectId))
      ensures CheckSequenceIsValid(input.sequenceData, input.sequenceType) && input.projectId in projects.projects
              && projects.projects[input.projectId].owner != userId ==>
                r == Failure(WriteRefusal(projects.projects[input.projectId], userId))
      ensures r.Success? <==> CheckSequenceIsValid(input.sequenceData, input.sequenceType)
                              && input.projectId in projects.projects
                              && projects.projects[input.projectId].owner == userId
      ensures r.Failure? ==> rows == old(rows) && nextId == old(nextId)
      ensures r.Success? ==>
                r.value.id !in old(rows)
                && r.value == LegacySequence(r.value.id, userId, input.name, input.sequenceData, input.sequenceType,
                                             input.projectId, input.description)
                && rows == old(rows)[r.value.id := r.value]
    {
      if !CheckSequenceIsValid(input.sequenceData, input.sequenceType) {
        return Failure(Validation(InvalidSequenceOfType(input.sequenceType)));
      }
      if input.projectId !in projects.projects {
        return Failure(NotFound("Project", input.projectId));
      }
      var access := CheckProjectAccess(projects.projects[input.projectId], userId, WRITE, true);
      if access.Failure? {
        return Failure(access.error);
      }
      var row := LegacySequence(nextId, userId, input.name, input.sequenceData, input.sequenceType,
                                input.projectId, input.description);
      rows := rows[nextId := row];
      nextId := nextId + 1;
      r := Success(row);
    }

    /**
     * update_sequence: the sequence must exist and the caller needs WRITE access to
     * its current project before the data is validated; a move to another project
     * needs that project to exist and WRITE access to it too. Then exactly five
     * fields are overwritten.
     */
    method Update(sequenceId: nat, userId: int, input: SequenceInput, projects: LegacyProjects.LegacyProjectStore)
      returns (r: Result<LegacySequence>)
      requires Valid() && projects.Valid()
      requires sequenceId in rows ==> rows[sequenceId].projectId in projects.projects
      modifies this
      ensures Valid() && nextId == old(nextId)
      ensures sequenceId !in old(rows) ==> r == Failure(NotFound("Sequence", sequenceId))
      ensures sequenceId in old(rows) ==>
                var current := projects.projects[old(rows)[sequenceId].projectId];
                var valid := CheckSequenceIsValid(input.sequenceData, input.sequenceType);
                var moved := input.projectId != old(rows)[sequenceId].projectId;
                (current.owner != userId ==> r == Failure(WriteRefusal(current, userId)))
                && (current.owner == userId && !valid ==> r == Failure(Validation(InvalidSequenceOfType(input.sequenceType))))
                && (current.owner == userId && valid && moved && input.projectId !in projects.projects ==>
                      r == Failure(NotFound("Project", input.projectId)))
                && (current.owner == userId && valid && moved && input.projectId in projects.projects
                    && projects.projects[input.projectId].owner != userId ==>
                      r == Failure(WriteRefusal(projects.projects[input.projectId], userId)))
                && (r.Success? <==> current.owner == userId && valid
                                    && (moved ==> input.projectId in projects.projects
                                                  && projects.projects[input.projectId].owner == userId))
      ensures r.Failure? ==> rows == old(rows)
      ensures r.Success? ==>
                sequenceId in old(rows)
                && r.value == Overwrite(old(rows)[sequenceId], input)
                && rows == old(rows)[sequenceId := r.value]
    {
      if sequenceId !in rows {
        return Failure(NotFound("Sequence", sequenceId));
      }
      var row := rows[sequenceId];
      var access := CheckProjectAccess(projects.projects[row.projectId], userId, WRITE, true);
      if access.Failure? {
        return Failure(access.error);
      }
      if !CheckSequenceIsValid(input.sequenceData, input.sequenceType) {
        return Failure(Validation(InvalidSequenceOfType(input.sequenceType)));
      }
      if input.projectId != row.projectId {
        if input.projectId !in projects.projects {
          return Failure(NotFound("Project", input.projectId));
        }
        var moveAccess := CheckProjectAccess(projects.projects[input.projectId], userId, WRITE, true);
        if moveAccess.Failure? {
          return Failure(moveAccess.error);
        }
      }
      row := row.(name := input.name);
      row := row.(sequenceData := input.sequenceData);
      row := row.(sequenceType := input.sequenceType);
      row := row.(description := input.description);
      row := row.(projectId := input.projectId);
      rows := rows[sequenceId := row];
      r := Success(row);
    }
  }
}
