# chromatin core in Dafny

chromatin is a bioinformatics web service (FastAPI with a Celery worker). Users
upload DNA, RNA and protein sequences as FASTA files into projects, and submit
jobs that run in the background: pairwise alignment of two sequences, and
protein structure prediction through the ESMFold service. This project models
the logic of that service that can be stated and proved:

- **Job results and the worker.** The worker (api/jobs/tasks.py) derives an
  alignment result from the aligner's two aligned strings: CIGAR run-length
  encoding, match/mismatch/gap statistics and identity. It reads pLDDT
  confidence scores out of a PDB payload, and applies the structure-cache rule.
  It truncates upstream error text, and follows a fixed order of status writes:
  RUNNING, then the handler, then COMPLETED, or FAILED through the failure hook.
- **The job store** (api/jobs/service.py). This is a class over a map of jobs,
  with a log of dispatched task ids and revoked task ids. It covers create,
  get, the ownership check, listing, status writes, cancel and delete.
- **FASTA and alphabets.** This covers the line-by-line FASTA parser
  (api/sequences/fasta_parser.py), type detection and validation, the DNA
  complement, transcription and codon translation (api/sequences/utils.py).
- **Sequence service** (api/sequences/service.py). This covers GC content,
  the guards of molecular weight and where a sequence's residues are read
  from. It also covers FASTA upload: per-file and total size limits,
  validation, routing of each record to the database or to blob storage by
  its UTF-8 size, cleanup of every saved blob on failure, and the upsert.
- **Projects and naming.** This covers the project access decision table and
  the project store (api/projects/service.py), and the snake_case to
  camelCase alias generator (api/core/schemas.py).
- **The older variant.** The root-level `projects/`, `sequences/` services
  behave differently and are separate modules: `LegacyProjects` and
  `LegacySequences`.

Module layout, one file each, in dependency order:

- `enums.dfy` (Enums): sequence, access, job and alignment types.
- `errors.dfy` (Errors): Option, Result, and the error kinds with structured
  reasons.
- `text.dfy` (PyStr): the Python string builtins the code relies on. These are
  strip and split with Python's whitespace set, splitlines, clamped slicing,
  ASCII upper/title, and str(int).
- `paging.dfy` (Paging): newest-first ordering with OFFSET/LIMIT.
- `projects.dfy` (Projects), `schemas.dfy` (Schemas), `codons.dfy` (Codons),
  `alignment.dfy` (Alignment), `fasta.dfy` (Fasta).
- `sequence_utils.dfy` (SequenceUtils), `sequence_service.dfy`
  (SequenceService), `structure.dfy` (StructurePrediction).
- `job_store.dfy` (Jobs), `worker.dfy` (Worker).
- `legacy_projects.dfy` (LegacyProjects), `legacy_sequences.dfy`
  (LegacySequences).

Python's loops are modelled as Dafny methods with `while` loops. Each is proved
against a function specification whose properties are then proved as lemmas.
Stateful services are classes whose methods state their whole new state:

- `GenerateCigar`, `CalculateAlignmentStats`, `ExtractConfidenceScores`,
  `ParseFasta` and `TranslateCodons` are loops of this kind;
- `UploadFasta` is the loop over files and records, and `CleanUp` the loop
  that deletes saved blobs;
- `ProjectStore`, `JobStore`, `StructureCache`, `Storage`,
  `LegacyProjectStore` and `LegacySequenceStore` are the stateful classes.

Integers are exact. Identity and GC content are kept as exact ratios rather
than rounded floats.

Three behaviours of the code that the model keeps as they are:

- `_extract_confidence_scores_from_pdb` yields one score per ATOM/HETATM line,
  not one per residue.
- The worker writes RUNNING without any guard, so a cancelled job that still
  reaches the worker is overwritten to RUNNING and then COMPLETED or FAILED.
- The older update_project and delete_project both raise PermissionDenied
  with the action "delete".

The older parse_fasta (sequences/fasta_parser.py, lines 46-133) and
detect_sequence_type (lines 18-43) have the same logic as the newer ones, so
they share the `Fasta` module and `SequenceUtils.DetectSequenceType`.

## Model

| member | source | states |
|---|---|---|
| Alignment.Cigar | api/jobs/tasks.py:111-154 | what generate_cigar computes: the string reads back as a canonical run list (counts at least 1, neighbouring ops differ) whose expansion is the column operations of the zipped pairs. GenerateCigar is proved equal to it; CigarIsRunLength, EncodeUnique and ParseRender carry the rest |
| Alignment.GenerateCigar | api/jobs/tasks.py:111-154 | the loop over zipped columns builds exactly the rendering of the run-length encoding of the column operations (D if the first char is '-', else I if the second is, else M) |
| Alignment.CloseLast | api/jobs/tasks.py:151-152 | appending the open run after the loop completes the rendering of the whole encoding |
| Alignment.CigarIsRunLength | api/jobs/tasks.py:131-154 | the encoding is canonical (every count at least 1, no two neighbouring runs with the same op), expands back to the column ops, and its counts sum to the number of zipped columns |
| Alignment.CigarEmpty | api/jobs/tasks.py:142-154 | an empty aligned string gives the empty CIGAR |
| Alignment.EncodeExpand | api/jobs/tasks.py:131-148 | expanding the encoding gives back every column op in order |
| Alignment.EncodeCanonical | api/jobs/tasks.py:142-148 | the encoding is always canonical |
| Alignment.EncodeUnique | api/jobs/tasks.py:142-148 | a canonical run list is the encoding of its own expansion, so the encoding is the unique canonical one |
| Alignment.ColumnsOfExpand | api/jobs/tasks.py:142-148 | the counts of a run list sum to the length of its expansion |
| Alignment.TotalOfExpand | api/jobs/tasks.py:142-148 | per op, the counts of its runs sum to its occurrences in the expansion |
| Alignment.ParseRender | api/jobs/tasks.py:151-152 | reading a rendered CIGAR back yields the same runs, so the string loses nothing |
| Alignment.CigarAllMatches | api/tests/jobs/test_alignment.py:23-30 | "ATGC"/"ATGC" gives "4M" |
| Alignment.CigarInsertions | api/tests/jobs/test_alignment.py:33-40 | "ATGC"/"A--C" gives "1M2I1M" |
| Alignment.CigarDeletions | api/tests/jobs/test_alignment.py:43-50 | "A--C"/"ATGC" gives "1M2D1M" |
| Alignment.CigarMixed | api/tests/jobs/test_alignment.py:53-60 | "ATGC--ATGC"/"AT--GGATGC" gives "2M2I2D4M" |
| Alignment.IdenticalSequences | api/jobs/tasks.py:131-154 | identical gap-free strings of length n give "{n}M" |
| Alignment.StatsOf | api/jobs/tasks.py:157-191 | the predicate that states what calculate_alignment_stats returns: the first string's length, the counts of gap, match and mismatch columns over the zipped pairs, and identity 100·matches/(length−gaps) or 0. It has no contract of its own: CalculateAlignmentStats ensures it, ClassCountsSum and CigarMatchesStats relate its counts to the columns and the CIGAR, and StatsWithGaps applies it |
| Alignment.CalculateAlignmentStats | api/jobs/tasks.py:157-191 | alignment length is the first string's length; matches, mismatches and gaps count the zipped columns of each kind and sum to their number; identity is 100·matches/(length−gaps), or 0 when there are no non-gap positions, and never exceeds 100 |
| Alignment.ClassCountsSum | api/jobs/tasks.py:168-179 | every column is exactly one of gap, match, mismatch |
| Alignment.OpsAgreeWithColumns | api/jobs/tasks.py:131-140 | on every prefix, M columns are the matches plus mismatches and I plus D columns are the gaps |
| Alignment.CigarMatchesStats | api/jobs/tasks.py:131-183 | the CIGAR's M total equals matches + mismatches and its I + D total equals gaps |
| Alignment.StatsWithGaps | api/tests/jobs/test_alignment.py:91-102 | "ATGC--"/"AT--GC" has two matches, no mismatch and four gaps, and any statistics that meet the stats contract have identity 200/2, that is exactly 100 |
| StructurePrediction.TruncateDetail | api/jobs/tasks.py:325-327 | the stripped body is kept when at most 200 chars, otherwise its first 200 chars followed by "..."; empty exactly when the body is blank |
| StructurePrediction.RequestPrediction | api/jobs/tasks.py:311-332 | success iff the payload was delivered; an HTTP error gives a ValidationError with the status and the truncated detail, or the exception message when the body is blank; a transport failure gives a ValidationError naming it |
| StructurePrediction.LineScore | api/jobs/tasks.py:300-307 | a line yields a score only if it starts with ATOM or HETATM and columns 60..66, stripped, parse |
| StructurePrediction.ConfidenceScoresAppend | api/jobs/tasks.py:300-307 | the scores of two blocks of lines are the first block's followed by the second's |
| StructurePrediction.ConfidenceScoresOne | api/jobs/tasks.py:300-307 | one line contributes its own score or nothing |
| StructurePrediction.ConfidenceScoresAll | api/jobs/tasks.py:297-308 | when every line yields a score, the result is exactly those scores in line order |
| StructurePrediction.ConfidenceScoresNoRecords | api/jobs/tasks.py:297-308 | a payload without coordinate records yields no scores |
| StructurePrediction.ConfidenceScoresStep | api/jobs/tasks.py:300-307 | one more line adds that line's score when it yields one, and nothing otherwise |
| StructurePrediction.ExtractConfidenceScores | api/jobs/tasks.py:297-308 | the loop over splitlines() returns the scores of the lines in order |
| StructurePrediction.CheckPredictable | api/jobs/tasks.py:342-350 | only PROTEIN sequences within the residue limit pass; otherwise the matching ValidationError |
| StructurePrediction.StructureCache.Lookup | api/jobs/tasks.py:355 | the cache entry of a sequence, if any |
| StructurePrediction.StructureCache.Save | api/jobs/tasks.py:384-390 | inserts or replaces the sequence's one entry with payload, scores, their count and the hash; a replaced entry keeps its id |
| StructurePrediction.StructureCache.Request | api/jobs/tasks.py:376 | logs the residues as submitted and returns the request outcome; the cache is unchanged |
| StructurePrediction.StructureCache.Process | api/jobs/tasks.py:335-405 | NotFound, then the type and residue checks, then the residue read, before anything is sent or stored; a cached result is returned iff an entry exists with the fresh hash and no recompute is forced; otherwise the residues are submitted, a request error or an empty score list stores nothing, and success stores and returns the new entry with cachedResult unset |
| Jobs.JobTypeOf | api/jobs/service.py:22-25 | the job type is the discriminator of the parameters |
| Jobs.CheckJobOwnership | api/jobs/service.py:12-15 | success iff the caller owns the job; otherwise NotFound, never PermissionDenied |
| Jobs.JobStore.Create | api/jobs/service.py:18-36 | a fresh id above every existing one; PENDING, no result, no error, not completed; dispatched under its own id; nothing else changes |
| Jobs.JobStore.GetJob | api/jobs/service.py:39-51 | success iff the job exists and the caller owns it; a missing job and someone else's job both give NotFound |
| Jobs.JobStore.GetJobInternal | api/jobs/service.py:54-62 | the job whoever owns it, NotFound when missing |
| Jobs.JobStore.ListUserJobs | api/jobs/service.py:65-85 | only stored jobs of the caller, only of the given status when one is given, strictly newest first; the page holds as many as the OFFSET skip LIMIT limit window over the selected jobs allows, and the k-th job listed has exactly skip + k selected jobs newer than it |
| Paging.PageIds | api/jobs/service.py:79-81 | the ids of an OFFSET skip LIMIT limit page of a newest-first listing: as many as the window allows, strictly decreasing, the k-th with exactly skip + k listed ids newer than it |
| Jobs.JobStore.ListUserJobsComplete | api/jobs/service.py:73-85 | with no offset and a large enough limit every selected job is listed |
| Jobs.JobStore.UpdateStatus | api/jobs/service.py:88-103 | the status is overwritten with no transition check; nothing else changes; NotFound for a missing job |
| Jobs.JobStore.MarkCompleted | api/jobs/service.py:106-123 | COMPLETED, the result stored and completion set; other fields kept |
| Jobs.JobStore.MarkFailed | api/jobs/service.py:126-143 | FAILED, the error message stored and completion set; other fields kept |
| Jobs.JobStore.Cancel | api/jobs/service.py:146-173 | NotFound for a missing or foreign job; "Cannot cancel" ValidationError for a terminal job, changing nothing; a PENDING or RUNNING job is revoked, then CANCELLED with completion set |
| Jobs.JobStore.Delete | api/jobs/service.py:176-191 | the owner's job is removed, its task revoked iff it was PENDING or RUNNING; otherwise NotFound and nothing changes |
| Worker.ProcessPairwiseAlignment | api/jobs/tasks.py:194-294 | NotFound for the first missing sequence, then "different types" ValidationError before any residues are read, then the first read error; otherwise a result with both names, the aligner's rows, their statistics and their CIGAR |
| Worker.Dispatch | api/jobs/tasks.py:95-102 | a pairwise job runs the alignment handler and leaves the cache alone; a structure job has the whole outcome of the structure handler (NotFound, the predictability refusals, read errors, a cache hit returning the stored entry, a miss that sends the residues and stores the reply), and its success holds the stored entry of its sequence |
| Worker.ProcessJob | api/jobs/tasks.py:84-108 | RUNNING is written first (NotFound for a missing job), then the handler runs, and COMPLETED with the result is written only after it succeeds; on failure the job is left RUNNING; the result is the pairwise or structure handler's outcome for the job's parameters |
| Worker.OnFailure | api/jobs/tasks.py:53-66 | with a non-zero job id the job is marked FAILED with "ClassName: text\ntraceback"; otherwise nothing changes |
| Worker.RunTask | api/jobs/tasks.py:53-108 | an existing job ends completed: COMPLETED with the result after RUNNING, or FAILED with the error text after RUNNING; every other job's row and every other field of this one are kept; a missing job changes neither the store nor the structure cache, and a pairwise job leaves the cache untouched; the result is the pairwise or structure handler's outcome |
| Fasta.FastaLines | api/sequences/fasta_parser.py:33 | content.strip().split("\n") always has at least one line |
| Fasta.ParseHeader | api/sequences/fasta_parser.py:62-69 | None exactly for a blank header; otherwise the name is the leading run of non-space characters of the stripped header, and the description is the remainder with its leading whitespace removed, or None when nothing remains |
| PyStr.SplitOnce | api/sequences/fasta_parser.py:67 | no pieces for whitespace-only text; otherwise the first piece is the leading token after the leading whitespace, and the second, present only when something follows, is what follows with its leading whitespace removed |
| Fasta.Classify | api/sequences/fasta_parser.py:39-84 | a line is blank, a header (its stripped form starts with '>') or a data line with its whitespace removed and non-empty |
| Fasta.Parse | api/sequences/fasta_parser.py:15-102 | parse_fasta as a function of the content. It has no contract of its own: ParseFasta computes it, EmptyContent states when it says "FASTA file is empty", ParsedRecords gives each record's name, description and data from its header and the data lines up to the next header, and ParseErrors explains every other failure |
| Fasta.ParseFasta | api/sequences/fasta_parser.py:15-102 | the loop computes exactly the parse of the content |
| Fasta.ReadRecords | api/sequences/fasta_parser.py:38-102 | the loop over lines computes the scan of the classified lines |
| Fasta.ReadLine | api/sequences/fasta_parser.py:39-84 | one loop iteration performs one scan step on the classified line |
| Fasta.SaveLast | api/sequences/fasta_parser.py:86-102 | saving the last record and the final emptiness check finish the scan |
| Fasta.ParseLinesFacts | api/sequences/fasta_parser.py:35-102 | "FASTA file is empty" iff every line is blank; on success at least one well-formed record, and the records are exactly the header-delimited groups: record k has the k-th header's name and description and the text of the data lines up to the next header; any other failure is explained by a line |
| Fasta.NonBlankContent | api/sequences/fasta_parser.py:33-36 | the lines contain a non-blank one iff the content is not all whitespace |
| Fasta.EmptyContent | api/sequences/fasta_parser.py:33-36 | "FASTA file is empty" is raised exactly for empty or whitespace-only content |
| Fasta.ParsedRecords | api/sequences/fasta_parser.py:53-97 | a successful parse has at least one record, each with a valid name, description and non-empty data; record k has the name and description of the k-th header line and, as data, the whitespace-free text of the data lines between that header and the next |
| Fasta.ParseErrors | api/sequences/fasta_parser.py:47-89 | every other failure is data before a header, an empty header or a header without data, at a line that causes it; "No valid sequences found" is never raised |
| Codons.StopCodons | api/sequences/utils.py:8-73 | a codon translates to '*' iff it is UAA, UAG or UGA |
| Codons.SenseCodons | api/sequences/utils.py:8-73 | every other codon translates to one of the twenty protein letters |
| Codons.IndexInjective | api/sequences/utils.py:8-73 | distinct codons have distinct table positions |
| Codons.AllCodonsComplete | api/sequences/utils.py:8-73 | every codon of four bases is in the table |
| Codons.TableSize | api/sequences/utils.py:8-73 | the table has 64 entries, exactly 3 of them stops |
| SequenceUtils.CharSetWithin | api/sequences/utils.py:82-94 | set(data.upper()) is a subset of an alphabet iff every upper-cased char is in it |
| SequenceUtils.DetectSequenceType | api/sequences/utils.py:76-101 | DNA iff within ACGT, else RNA iff within ACGU, else PROTEIN iff within the amino-acid letters, case-insensitively; otherwise a ValidationError with the chars outside all three |
| SequenceUtils.ValidateSequenceData | api/sequences/utils.py:104-146 | "is empty" for empty data; with an expected type its alphabet decides, and the type is returned; a refusal names the sequence (or ""), the expected type and exactly the upper-cased characters outside that type's alphabet, a non-empty set; without one the type is detected |
| SequenceUtils.DnaRefusedAsRnaNamesThymine | api/tests/sequences/test_utils.py:64-67 | "ACGT" checked as RNA is refused as invalid for RNA, and 'T' is the only character reported |
| SequenceUtils.DnaValidatesAsProtein | api/sequences/utils.py:126-144 | DNA data validates as PROTEIN |
| SequenceUtils.DetectLowercaseDna | api/tests/sequences/test_utils.py:15-46 | "acgt" is DNA |
| SequenceUtils.DetectPrefersDna | api/sequences/utils.py:85-91 | "ACGACG" is DNA, not RNA |
| SequenceUtils.DetectLowercaseRna | api/tests/sequences/test_utils.py:15-46 | "acgu" is RNA |
| SequenceUtils.DetectProtein | api/tests/sequences/test_utils.py:15-46 | a protein sequence is PROTEIN |
| SequenceUtils.DetectInvalid | api/sequences/utils.py:97-101 | "ACGT*" fails listing '*' |
| SequenceUtils.MapComplement | api/sequences/utils.py:149-158 | each char is mapped by the A/T, C/G table position by position, without reversing; a char outside the table is a KeyError |
| SequenceUtils.GetDnaReverseComplement | api/sequences/utils.py:149-158 | a failed DNA validation is passed on; data that validates succeeds iff it is upper-case DNA, and then position by position holds the complement of each character, has the same length and is upper-case DNA; otherwise a KeyError. Its inverse is ComplementInvolution |
| SequenceUtils.ComplementOfUpperDna | api/sequences/utils.py:149-158 | upper-case DNA complements to upper-case DNA of the same length |
| SequenceUtils.ComplementTwice | api/sequences/utils.py:149-158 | complementing twice is the identity on upper-case DNA |
| SequenceUtils.ComplementInvolution | api/sequences/utils.py:149-158 | for upper-case DNA get_dna_reverse_complement succeeds, keeps the length and is its own inverse |
| SequenceUtils.ComplementExamples | api/tests/sequences/test_utils.py:89-96 | "ATCG" gives "TAGC" |
| SequenceUtils.GetRnaFromDna | api/sequences/utils.py:161-163 | a failed DNA validation is passed on; otherwise it succeeds with the same length, 'U' where the data has 'T' and the data's character everywhere else. TranscriptionProperties adds the inverse ('U' back to 'T') and that upper-case DNA gives valid RNA |
| SequenceUtils.TranscriptionProperties | api/sequences/utils.py:161-163 | every 'T' becomes 'U' and every other character, a lower-case 't' included, is kept; no 'T' is left; the length is preserved; replacing 'U' by 'T' gives the input back; upper-case DNA transcribes to valid RNA |
| SequenceUtils.TranscriptionExamples | api/tests/sequences/test_utils.py:99-104 | "ATCG" gives "AUCG" |
| SequenceUtils.WholeCodons | api/sequences/utils.py:168 | the trailing len mod 3 bases are dropped |
| SequenceUtils.TranslateFrom | api/sequences/utils.py:171-178 | the protein has no '*' and at most a third of the remaining length; an unknown codon is a KeyError |
| SequenceUtils.ProteinFromRna | api/sequences/utils.py:166-178 | the specification of get_protein_from_rna: a failed RNA validation is passed on; valid upper-case RNA always translates; any other failure is a KeyError. TranslateInFrame and ProteinBounds state what a successful translation holds |
| SequenceUtils.GetProteinFromRna | api/sequences/utils.py:166-178 | the method computes the specification of get_protein_from_rna |
| SequenceUtils.TranslateCodons | api/sequences/utils.py:171-178 | the codon loop with its early break computes the in-frame translation |
| SequenceUtils.TranslateInFrame | api/sequences/utils.py:171-178 | the k-th amino acid is the translation of the k-th codon from position 0, and translation stops at the first stop codon or at the end |
| SequenceUtils.ProteinBounds | api/sequences/utils.py:166-178 | the protein has no '*' and length at most len/3 |
| SequenceUtils.UpperRnaTranslates | api/sequences/utils.py:171-178 | upper-case RNA never hits an unknown codon |
| SequenceUtils.GetProteinFromDna | api/sequences/utils.py:181-183 | a failed DNA validation is passed on; a protein it returns has no '*' and at most len(data) // 3 residues |
| SequenceUtils.RnaToProtein | api/sequences/utils.py:166-178 | the corrected translation: a failed RNA validation is passed on; data that validates always translates, to the translation of its upper-cased form |
| SequenceUtils.DnaToProtein | api/sequences/utils.py:181-183 | the corrected DNA translation: a failed DNA validation is passed on; data that validates always translates, to get_protein_from_dna of its upper-cased form, with no '*' and at most len(data) // 3 residues |
| SequenceUtils.UpperDnaTranslates | api/sequences/utils.py:161-183 | for upper-case DNA, transcription succeeds and get_protein_from_dna is translation of the transcript, which succeeds |
| SequenceService.GcCountPositions | api/sequences/service.py:63-65 | the G/C count is the number of G/C positions of the upper-cased data |
| SequenceService.GcCountBelow | api/sequences/service.py:63-65 | the G/C count never exceeds the length |
| SequenceService.CalculateGcContent | api/sequences/service.py:54-65 | None iff PROTEIN; 0 for empty data; otherwise the G/C count over the length, in [0, 1] |
| SequenceService.GcContentCountsPositions | api/sequences/service.py:63-65 | for non-protein, non-empty data the numerator counts the G/C positions |
| SequenceService.CalculateMolecularWeight | api/sequences/service.py:68-86 | None for non-protein types, no residues for empty data; otherwise success iff every residue is known, with a KeyError for an unknown one |
| SequenceService.ValidatedProteinHasWeight | api/sequences/service.py:68-86 | data that validates as PROTEIN always has a weight |
| SequenceService.GetSequenceData | api/sequences/service.py:30-51 | the database text when present, otherwise the blob at the file path, otherwise an error |
| SequenceService.GetSequenceInternal | api/jobs/tasks.py:226-227 | the row whoever owns it, NotFound when missing |
| SequenceService.Storage.Save | api/sequences/service.py:541-544 | a fresh path with the given filename holding the content, or StorageFailure with nothing written when the attempt is one that raises |
| SequenceService.Storage.Delete | api/sequences/service.py:589-597 | the blob is removed unless deleting it fails |
| SequenceService.ReadBlob | api/sequences/service.py:43-49 | the stored content, or an error for a missing blob |
| SequenceService.Upsert | api/sequences/service.py:568-587 | fails exactly on duplicate (owner, name) keys in one batch; otherwise every value is stored under its key, existing keys keep their ids and rows of other keys are unchanged |
| SequenceService.UpsertAllKeepsIds | api/sequences/service.py:568-587 | an existing key keeps its row id |
| SequenceService.UpsertAllOthers | api/sequences/service.py:568-587 | rows of keys not in the batch are untouched |
| SequenceService.UpsertAllValues | api/sequences/service.py:568-587 | with distinct keys every value ends up stored under its key |
| SequenceService.Utf8Length | api/sequences/service.py:530 | the UTF-8 byte length is at least the number of chars |
| SequenceService.PrepareRecord | api/sequences/service.py:509-527 | a record validates under its header and gets its type, length, GC content, description and the molecular weight calculate_molecular_weight gives for its data and type; a validation error is passed on |
| SequenceService.CheckSize | api/sequences/service.py:486-497 | a file passes iff it is within the per-file limit and the running total stays within the total limit; the matching ValidationError otherwise |
| SequenceService.WrapParse | api/sequences/service.py:501-506 | a parse ValidationError is re-raised naming the file |
| SequenceService.FileStep | api/sequences/service.py:486-527 | size checks, then decoding, then parsing, then per-record validation, in that order; success adds the file's size to the total |
| SequenceService.Checked | api/sequences/service.py:501-527 | a parse error ends the file's step with that error; otherwise the step is the validation of the parsed records, carrying the running total through |
| SequenceService.FileStepChecked | api/sequences/service.py:486-527 | once the size checks and the decoding pass, a file's step is the rest of the step applied to its parse result, with the total that includes its size |
| SequenceService.CheckedParsed | api/sequences/service.py:509-527 | after a successful parse the step fails with the first record's validation error, or succeeds with every prepared record and the unchanged total |
| SequenceService.FileStepParsed | api/sequences/service.py:509-527 | after a successful parse the file's outcome is that of its records |
| SequenceService.FileStepUnparsed | api/sequences/service.py:501-506 | a failed parse is the file's outcome |
| SequenceService.StepWith | api/sequences/service.py:480-527 | the loop's step applied to a file and a running total is that file's step under the upload's limits |
| SequenceService.RunFailsIffBadFile | api/sequences/service.py:480-527 | a loop over the files with any per-file step fails iff some file fails its step given the running total of the files before it |
| SequenceService.RunFailsWithFileError | api/sequences/service.py:480-527 | when file k is such a failing file, the loop's error is file k's error |
| SequenceService.PlanFailsAtFirstBadFile | api/sequences/service.py:480-527 | the plan fails iff some file fails given the running total of the files before it, and then with that file's error |
| SequenceService.RoutedReadsBack | api/sequences/service.py:530-549 | a routed record has exactly one of data and path set, and its residues read back unchanged |
| SequenceService.WriteRecord | api/sequences/service.py:530-565 | a record above the threshold is saved to a fresh blob with null data, otherwise stored inline with a null path; at most one blob created; a failed save gives no row and creates nothing |
| SequenceService.StageRecord | api/sequences/service.py:509-565 | a record that fails validation gives its wrapped error and touches no storage; a valid one is written as its validation prescribes, or fails with StorageFailure exactly when the save raised |
| SequenceService.StageRecords | api/sequences/service.py:509-565 | the records loop prepares exactly the validated records and records every blob it creates; a failed save stops it with StorageFailure, otherwise a failure is the first invalid record's error |
| SequenceService.StageFile | api/sequences/service.py:486-565 | one file's checks and records; a failed save gives StorageFailure, any other failure is the file's error |
| SequenceService.StageFiles | api/sequences/service.py:480-565 | the files loop follows the plan; every created blob is recorded; a failed save gives StorageFailure, any other failure is the plan's error |
| SequenceService.CleanUp | api/sequences/service.py:589-597 | every blob saved during the call is deleted, a failed delete is ignored, and prior blobs are kept |
| SequenceService.UpsertedRows | api/sequences/service.py:552-587 | after the upsert every prepared record is stored under (owner, name) with its routed fields |
| SequenceService.UpsertOthersUntouched | api/sequences/service.py:568-587 | other users' rows are untouched |
| SequenceService.UploadFasta | api/sequences/service.py:434-601 | blobs that existed before the call are always kept with their content; NotFound or the WRITE refusal before anything is saved; any failure, a failed save included, leaves the table unchanged and only undeletable new blobs behind; a failed save gives StorageFailure; a failing plan always fails the upload, and with every save succeeding the first failing file's error is returned; on success the count is the number of planned records and each is stored and routed; other users' rows are untouched. For a writable project whose plan succeeds and whose saves all work, the upload succeeds iff the planned names are pairwise distinct, and otherwise fails with DatabaseFailure; on success the table's keys are the old ones plus the planned (user, name) keys, and every row whose key is not planned, the caller's own included, keeps its value |
| SequenceService.StagedKeys | api/sequences/service.py:550-587 | the staged values carry exactly the planned (user, name) keys, and they repeat a key iff two planned records share a name |
| Projects.CheckProjectAccess | api/projects/service.py:11-28 | the owner is always granted; a non-owner is granted iff READ on a public project; when raising, a refusal is PermissionDenied on a public project and NotFound on a private one; without raising it never fails |
| Projects.RaiseAgreesWithAnswer | api/projects/service.py:22-28 | the raising form refuses exactly when the non-raising form answers false |
| Projects.WriteIsOwnerOnly | api/projects/service.py:17-20 | WRITE access is the owner's alone |
| Projects.ProjectStore.Create | api/projects/service.py:31-47 | a fresh row owned by the caller with the given fields, private unless is_public is True |
| Projects.ProjectStore.Get | api/projects/service.py:50-61 | the owner's or a public project; a private project of someone else is NotFound |
| Projects.ProjectStore.ListUserProjects | api/projects/service.py:64-77 | only stored projects of the caller, strictly newest first; the page holds as many as the OFFSET skip LIMIT limit window over the caller's projects allows, and the k-th project listed has exactly skip + k of them newer than it |
| Projects.ProjectStore.ListUserProjectsComplete | api/projects/service.py:68-77 | with no offset and a large enough limit every project of the caller is listed |
| Projects.ProjectStore.Update | api/projects/service.py:80-98 | WRITE access, then exactly name, description and visibility are overwritten; refusals change nothing |
| Projects.ProjectStore.Delete | api/projects/service.py:101-111 | WRITE access, then the row is removed; refusals change nothing |
| Schemas.ToCamel | api/core/schemas.py:4-7 | no '_' in the result; the first component is kept unchanged as its prefix; input without '_' is returned unchanged |
| Schemas.ToCamelLength | api/core/schemas.py:4-7 | the length is the input's minus its number of '_' |
| Schemas.ToCamelOfJoin | api/core/schemas.py:4-7 | joining words with '_' and converting gives the first word followed by the remaining words title-cased |
| Schemas.ToCamelTwoWords | api/tests/sequences/test_sequence_routes.py:34 | "gc_content" style: the lower-case second word is capitalised |
| Schemas.ToCamelThreeWords | api/tests/jobs/test_job_routes.py:19 | "sequence_id_1" style: a piece without letters is kept as it is |
| Schemas.SplitOfJoin | api/core/schemas.py:6 | splitting a '_'-join of '_'-free words gives the words back |
| LegacyProjects.ApplyUpdate | projects/service.py:71-76 | each field given in the update replaces the old value; a field not given keeps it; id and owner are kept |
| LegacyProjects.CheckOwner | projects/service.py:65-69 | success iff the caller owns the project; refusal is PermissionDenied on a public project and NotFound on a private one |
| LegacyProjects.LegacyProjectStore.Create | projects/service.py:8-21 | a fresh project of the caller; a missing is_public becomes False |
| LegacyProjects.LegacyProjectStore.Get | projects/service.py:24-37 | NotFound when missing; the owner's or a public project; a private project of someone else is PermissionDenied |
| LegacyProjects.LegacyProjectStore.ReadRefusesLessThanWrite | projects/service.py:24-37 | whatever the owner check of update and delete allows, get allows; they differ exactly on someone else's public project, which get returns and the owner check refuses with PermissionDenied("delete") |
| LegacyProjects.LegacyProjectStore.Update | projects/service.py:56-80 | NotFound, then the owner check; success applies the partial update and changes nothing else |
| LegacyProjects.LegacyProjectStore.Delete | projects/service.py:83-97 | NotFound, then the owner check; success removes the row |
| LegacySequences.CheckSequenceIsValid | sequences/service.py:16-27 | true iff every upper-cased char lies in the type's alphabet |
| LegacySequences.CheckAgreesWithValidate | sequences/service.py:16-27 | on non-empty data the older check and the newer validation with an expected type agree |
| LegacySequences.EmptyIsValid | tests/sequences/test_sequence_service.py:526 | the empty string is valid for every type |
| LegacySequences.LowercaseIsValid | tests/sequences/test_sequence_service.py:499 | lower case is accepted |
| LegacySequences.UracilIsNotDna | tests/sequences/test_sequence_service.py:502 | 'U' is invalid for DNA |
| LegacySequences.ThymineIsNotRna | tests/sequences/test_sequence_service.py:513 | 'T' is invalid for RNA |
| LegacySequences.ValidateFastaSequence | sequences/fasta_parser.py:136-176 | empty data is refused under the header; with an expected type accepted as that type iff valid, otherwise refused naming the header, the expected type and exactly the upper-cased characters outside its alphabet; without one the type is detected |
| LegacySequences.ParsedRecordsAreNonEmpty | sequences/fasta_parser.py:152-153 | a record of a successful parse is never refused as empty |
| LegacySequences.NonEmptyNotRefusedAsEmpty | sequences/fasta_parser.py:152-176 | non-empty data fails, if at all, for its characters |
| LegacySequences.Overwrite | sequences/service.py:163-167 | exactly name, data, type, description and project are overwritten; id and owner are kept |
| LegacySequences.WriteRefusal | sequences/service.py:46 | the error a refused WRITE check raises: PermissionDenied on a public project, NotFound on a private one |
| LegacySequences.LegacySequenceStore.Create | sequences/service.py:30-52 | invalid data is refused before the project lookup, then NotFound, then the WRITE refusal; success iff all three pass, and inserts a fresh row |
| LegacySequences.LegacySequenceStore.Update | sequences/service.py:121-171 | NotFound, then WRITE access to the current project, then validation, then for a move the new project's existence and WRITE access; success overwrites the five fields |

## Left out

- The Biopython PairwiseAligner and its float score are a function parameter (`Worker.Aligner`) that returns the two aligned rows.
- The ESMFold HTTP request is replaced by its three outcomes (`StructurePrediction.Reply`). httpx, URLs and timeouts are left out.
- SHA-256 and float() are function parameters.
- Mean, minimum and maximum confidence are left out, because they are float work.
- round(identity, 2) is left out; identity is an exact ratio.
- The molecular-weight sums are left out; only which residues have a weight is modelled.
- Celery dispatch and revoke delivery are logs of job ids, because they are infrastructure.
- asyncio, time limits, acks and redelivery are left out, because they are infrastructure.
- SQLAlchemy sessions, commits and rollbacks are left out. Each operation here is atomic.
- datetime.now() is a completed flag, and creation order is id order, because clocks are outside the model.
- Blob storage backends are an abstract map from paths to text.
- Why a blob save or delete raises is left out. The save attempts that raise (`Storage.failing`, by attempt number) and the paths whose delete raises (`Storage.undeletable`) are given as sets.
- The structure payload is stored inline in the model; pdb_download_path is left out.
- Error message wording becomes structured reasons, because the text is not part of the logic.
- The sorted listing of invalid characters in error text is not rendered.
- The exception class names StorageError and DatabaseError are kept only as error kinds.
- error_message's String(1000) column limit is left out.
- MEGABYTE, the size limits and ESMFOLD_MAX_RESIDUES are parameters. Of api/sequences/consts.py only the three alphabets are modelled, as the constants `SequenceUtils.DNA_CHARS`, `RNA_CHARS` and `PROTEIN_CHARS`; AMINO_ACID_WEIGHTS appears only through its keys, which are the protein alphabet.
- LegacySequences.LegacySequenceStore: sequences/service.py imports `check_project_access` from projects/service.py, which does not define it, so the older sequence service would raise ImportError when loaded. The model substitutes the access decision table of api/projects/service.py for that import and does not model the ImportError.
- str.upper() and str.title() are ASCII-only, because Unicode case mapping is out of scope.
- save_sequence_structure_prediction, get_sequence_structure_internal and get_sequence_internal are not among the modelled source files. They are modelled as a keyed upsert and lookup by sequence id.
- The older get_sequence, list_user_sequences, list_project_sequences, delete_sequence and upload_fasta are not modelled. The same guards are covered by the newer service.
- The older list_user_projects is not modelled. It is the same as the newer one, which is modelled.
- The newer create_sequence, update_sequence, get/list/delete_sequence and the streaming downloads are not modelled, because they are outside the named core.
- Projects.ProjectStore.Update: requires is_public to be given. Every real caller meets this: `ProjectInput.is_public` defaults to False (api/projects/schemas.py:10), so a request that omits isPublic makes the project private. A caller models an omitted field by passing `Some(false)`; the schema's default itself is not modelled.
- LegacySequences.LegacySequenceStore.Update: requires the sequence's current project to exist, which the foreign key guarantees.
- Unique constraints of the older tables are left out, because they are database integrity.
- Concurrency between the API and the worker is left out. Each call runs alone.

## Findings

| source | as written | input that shows it | evidently intended | confidence | as-written member | corrected member |
|---|---|---|---|---|---|---|
| api/sequences/utils.py:149-158 | complement indexes an upper-case table with each char, while validation is case-insensitive | "acgt" validates as DNA but get_dna_reverse_complement raises KeyError('a') | complement the data validation accepts | not executed | SequenceUtils.ComplementLowercaseFails | SequenceUtils.DnaComplement |
| api/sequences/utils.py:166-178 | translation looks codons up without upper-casing | "aug" validates as RNA but get_protein_from_rna raises KeyError('aug') | translate the data validation accepts | not executed | SequenceUtils.ProteinFromRnaLowercaseFails | SequenceUtils.RnaToProtein |
| api/sequences/utils.py:181-183 | transcription replaces only upper-case 'T' before translating | "atg" validates as DNA but get_protein_from_dna fails | translate the DNA validation accepts | not executed | SequenceUtils.ProteinFromDnaLowercaseFails | SequenceUtils.DnaToProtein |
| api/sequences/utils.py:97-101 | the invalid set is the characters outside the union of the three alphabets | "UM" fails detection (U only RNA, M only protein) with an empty invalid set | name the characters that keep the data out of the protein alphabet | not executed | SequenceUtils.DetectMixedAlphabets | SequenceUtils.DetectSequenceTypeListingInvalid |
