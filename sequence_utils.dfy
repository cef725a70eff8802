// Sequence alphabets, type detection and validation, and the DNA/RNA/protein
// conversions of api/sequences/utils.py.
module SequenceUtils {
  import opened Enums
  import opened Errors
  import opened PyStr
  import opened Codons

  const DNA_CHARS: set<char> := {'A', 'C', 'G', 'T'}
  const RNA_CHARS: set<char> := {'A', 'C', 'G', 'U'}
  const PROTEIN_CHARS: set<char> := {'A', 'C', 'D', 'E', 'F', 'G', 'H', 'I', 'K', 'L', 'M', 'N', 'P', 'Q', 'R', 'S', 'T', 'V', 'W', 'Y'}

  function Alphabet(t: SequenceType): set<char> {
    match t
    case DNA => DNA_CHARS
    case RNA => RNA_CHARS
    case PROTEIN => PROTEIN_CHARS
  }

  /** set(s.upper()) */
  function CharSet(s: string): set<char> {
    set i | 0 <= i < |s| :: UpperChar(s[i])
  }

  /** Every character of s, upper-cased, lies in the alphabet. */
  predicate Within(s: string, alphabet: set<char>) {
    forall i :: 0 <= i < |s| ==> UpperChar(s[i]) in alphabet
  }

  lemma CharSetWithin(s: string, alphabet: set<char>)
    ensures CharSet(s) <= alphabet <==> Within(s, alphabet)
  {
    if CharSet(s) <= alphabet {
      forall i | 0 <= i < |s| ensures UpperChar(s[i]) in alphabet {
        assert UpperChar(s[i]) in CharSet(s);
      }
    }
  }

  /**
   * detect_sequence_type: case-insensitive, trying DNA, then RNA, then PROTEIN;
   * otherwise a ValidationError naming the characters outside every alphabet.
   */
  function DetectSequenceType(data: string): (r: Result<SequenceType>)
    ensures r == Success(DNA) <==> Within(data, DNA_CHARS)
    ensures r == Success(RNA) <==> !Within(data, DNA_CHARS) && Within(data, RNA_CHARS)
    ensures r == Success(PROTEIN) <==> !Within(data, DNA_CHARS) && !Within(data, RNA_CHARS) && Within(data, PROTEIN_CHARS)
    ensures r.Failure? ==> r == Failure(Validation(InvalidCharacters(CharSet(data) - (DNA_CHARS + RNA_CHARS + PROTEIN_CHARS))))
  {
    var chars := CharSet(data);
    CharSetWithin(data, DNA_CHARS);
    CharSetWithin(data, RNA_CHARS);
    CharSetWithin(data, PROTEIN_CHARS);
    if chars <= DNA_CHARS then Success(DNA)
    else if chars <= RNA_CHARS then Success(RNA)
    else if chars <= PROTEIN_CHARS then Success(PROTEIN)
    else
      Failure(Validation(InvalidCharacters(chars - (DNA_CHARS + RNA_CHARS + PROTEIN_CHARS))))
  }

  /** `sequence_name or ""` */
  function NameOr(name: Option<string>): string {
    if name.Some? then name.value else ""
  }

  /**
   * validate_sequence_data: "" is rejected as empty; with an expected type the
   * data is accepted, as that type, iff its upper-cased characters lie in that
   * type's alphabet; without one, the type is detected.
   */
  function ValidateSequenceData(data: string, name: Option<string>, expected: Option<SequenceType>): (r: Result<SequenceType>)
    ensures data == [] ==> r == Failure(Validation(SequenceEmpty(NameOr(name))))
    ensures data != [] && expected.Some? ==>
      (r.Success? <==> Within(data, Alphabet(expected.value)))
      && (r.Success? ==> r.value == expected.value)
      && (r.Failure? ==>
            r == Failure(Validation(InvalidCharactersFor(NameOr(name), expected.value, CharSet(data) - Alphabet(expected.value))))
            && r.error.reason.chars != {}
            && forall c :: c in r.error.reason.chars ==> c !in Alphabet(expected.value))
    ensures data != [] && expected.None? ==> r == DetectSequenceType(data)
  {
    if data == [] then Failure(Validation(SequenceEmpty(NameOr(name))))
    else if expected.Some? then
      var chars := CharSet(data);
      var valid := Alphabet(expected.value);
      CharSetWithin(data, valid);
      if !(chars <= valid) then
        var invalid := chars - valid;
        assert invalid != {} by {
          var i :| 0 <= i < |data| && UpperChar(data[i]) !in valid;
          assert UpperChar(data[i]) in invalid;
        }
        Failure(Validation(InvalidCharactersFor(NameOr(name), expected.value, invalid)))
      else Success(expected.value)
    else DetectSequenceType(data)
  }

  /** "ACGT" checked as RNA is refused, and the only offending letter reported is 'T'. */
  lemma DnaRefusedAsRnaNamesThymine()
    ensures ValidateSequenceData("ACGT", None, Some(RNA))
              == Failure(Validation(InvalidCharactersFor("", RNA, {'T'})))
  {
    var s := "ACGT";
    assert UpperChar(s[3]) == 'T' && 'T' in CharSet(s);
    assert !Within(s, RNA_CHARS);
    forall x | x in CharSet(s) - RNA_CHARS ensures x == 'T' {
      var i :| 0 <= i < |s| && UpperChar(s[i]) == x;
      assert i == 3;
    }
    assert CharSet(s) - RNA_CHARS == {'T'};
  }

  /** DNA letters are protein letters too, so DNA data validates as PROTEIN. */
  lemma DnaValidatesAsProtein(data: string, name: Option<string>)
    requires data != [] && Within(data, DNA_CHARS)
    ensures ValidateSequenceData(data, name, Some(PROTEIN)) == Success(PROTEIN)
  {
    assert DNA_CHARS <= PROTEIN_CHARS;
  }

  lemma DetectLowercaseDna()
    ensures DetectSequenceType("acgt") == Success(DNA)
  {
  }

  /** "ACG" is valid for both DNA and RNA; DNA is tried first. */
  lemma DetectPrefersDna()
    ensures DetectSequenceType("ACGACG") == Success(DNA)
  {
  }

  lemma DetectLowercaseRna()
    ensures DetectSequenceType("acgu") == Success(RNA)
  {
    assert "acgu"[3] == 'u' && UpperChar('u') == 'U';
  }

  lemma WithinAppend(a: string, b: string, alphabet: set<char>)
    ensures Within(a + b, alphabet) <==> Within(a, alphabet) && Within(b, alphabet)
  {
    if Within(a, alphabet) && Within(b, alphabet) {
      forall i | 0 <= i < |a + b| ensures UpperChar((a + b)[i]) in alphabet {
        if i >= |a| {
          assert (a + b)[i] == b[i - |a|];
        }
      }
    }
    if Within(a + b, alphabet) {
      forall i | 0 <= i < |a| ensures UpperChar(a[i]) in alphabet {
        assert (a + b)[i] == a[i];
      }
      forall i | 0 <= i < |b| ensures UpperChar(b[i]) in alphabet {
        assert (a + b)[|a| + i] == b[i];
      }
    }
  }

  /** Upper-case letters are their own upper case. */
  lemma WithinUpper(s: string, alphabet: set<char>)
    requires forall i :: 0 <= i < |s| ==> s[i] in alphabet && !IsAsciiLower(s[i])
    ensures Within(s, alphabet)
  {
  }

  lemma DetectProtein()
    ensures DetectSequenceType("MKLLILVLLVALVALAAS") == Success(PROTEIN)
  {
    var s := "MKLLILVLLVALVALAAS";
    assert s == "MKLLIL" + "VLLVAL" + "VALAAS";
    WithinUpper("MKLLIL", PROTEIN_CHARS);
    WithinUpper("VLLVAL", PROTEIN_CHARS);
    WithinUpper("VALAAS", PROTEIN_CHARS);
    WithinAppend("MKLLIL", "VLLVAL", PROTEIN_CHARS);
    WithinAppend("MKLLIL" + "VLLVAL", "VALAAS", PROTEIN_CHARS);
    assert UpperChar(s[0]) == 'M';
  }

  lemma DetectInvalid()
    ensures DetectSequenceType("ACGT*") == Failure(Validation(InvalidCharacters({'*'})))
  {
    var s := "ACGT*";
    var invalid := CharSet(s) - (DNA_CHARS + RNA_CHARS + PROTEIN_CHARS);
    assert UpperChar(s[4]) == '*';
    assert '*' in invalid;
    forall x | x in invalid ensures x == '*' {
      var i :| 0 <= i < |s| && UpperChar(s[i]) == x;
      assert i == 0 || i == 1 || i == 2 || i == 3 || i == 4;
    }
    assert invalid == {'*'};
  }

  /**
   * Finding: data mixing 'U' with letters found only in proteins lies in no single
   * alphabet, yet every character lies in some alphabet, so the error lists no characters.
   */
  lemma DetectMixedAlphabets()
    ensures DetectSequenceType("UM") == Failure(Validation(InvalidCharacters({})))
  {
    var s := "UM";
    assert UpperChar(s[0]) == 'U' && UpperChar(s[1]) == 'M';
    forall x | x in CharSet(s) ensures x in DNA_CHARS + RNA_CHARS + PROTEIN_CHARS {
      var i :| 0 <= i < |s| && UpperChar(s[i]) == x;
      assert i == 0 || i == 1;
    }
    assert CharSet(s) - (DNA_CHARS + RNA_CHARS + PROTEIN_CHARS) == {};
    assert !Within(s, PROTEIN_CHARS) && !Within(s, RNA_CHARS);
  }

  /**
   * Detection as evidently intended: the error lists the characters that are not
   * protein letters, the last alphabet tried, and the list is never empty.
   */
  function DetectSequenceTypeListingInvalid(data: string): (r: Result<SequenceType>)
    ensures r.Success? <==> DetectSequenceType(data).Success?
    ensures r.Success? ==> r == DetectSequenceType(data)
    ensures r.Failure? ==> r.error.Validation? && r.error.reason.InvalidCharacters?
    ensures r.Failure? ==> r.error.reason.chars != {} && r.error.reason.chars == CharSet(data) - PROTEIN_CHARS
  {
    match DetectSequenceType(data)
    case Success(t) => Success(t)
    case Failure(_) =>
      var invalid := CharSet(data) - PROTEIN_CHARS;
      assert invalid != {} by {
        var i :| 0 <= i < |data| && UpperChar(data[i]) !in PROTEIN_CHARS;
        assert UpperChar(data[i]) in invalid;
      }
      Failure(Validation(InvalidCharacters(invalid)))
  }

  // ---------------------------------------------------------------------------
  // Complement (the source calls it a reverse complement, but it does not reverse).

  function ComplementOf(c: char): Option<char> {
    if c == 'A' then Some('T') else if c == 'C' then Some('G')
    else if c == 'G' then Some('C') else if c == 'T' then Some('A') else None
  }

  /** "".join(table[b] for b in s): a KeyError at the first character that is not a key. */
  function MapComplement(s: string): (r: Result<string>)
    ensures r.Success? <==> forall i :: 0 <= i < |s| ==> ComplementOf(s[i]).Some?
    ensures r.Success? ==> |r.value| == |s| && forall i :: 0 <= i < |s| ==> ComplementOf(s[i]) == Some(r.value[i])
    ensures r.Failure? ==> r.error.KeyError?
  {
    if s == [] then Success("")
    else match ComplementOf(s[0])
      case None => Failure(KeyError([s[0]]))
      case Some(c) =>
        match MapComplement(s[1..])
        case Failure(e) => Failure(e)
        case Success(rest) => Success([c] + rest)
  }

  /**
   * get_dna_reverse_complement as written: a failed DNA validation is passed on;
   * data that validates is complemented iff it is upper-case DNA, character by
   * character, and otherwise raises KeyError.
   */
  function GetDnaReverseComplement(data: string): (r: Result<string>)
    ensures ValidateSequenceData(data, None, Some(DNA)).Failure? ==>
              r == Failure(ValidateSequenceData(data, None, Some(DNA)).error)
    ensures ValidateSequenceData(data, None, Some(DNA)).Success? ==>
              (r.Success? <==> IsUpperDna(data)) && (r.Failure? ==> r.error.KeyError?)
    ensures r.Success? ==>
              |r.value| == |data| && IsUpperDna(r.value)
              && forall i :: 0 <= i < |data| ==> ComplementOf(data[i]) == Some(r.value[i])
  {
    match ValidateSequenceData(data, None, Some(DNA))
    case Failure(e) => Failure(e)
    case Success(_) =>
      var m := MapComplement(data);
      assert m.Success? ==> IsUpperDna(data) by {
        if m.Success? {
          forall i | 0 <= i < |data| ensures data[i] in DNA_CHARS {
            assert ComplementOf(data[i]).Some?;
          }
        }
      }
      if IsUpperDna(data) then ComplementOfUpperDna(data); m else m
  }

  /** Upper-case DNA: exactly the characters the complement table has keys for. */
  predicate IsUpperDna(s: string) {
    forall i :: 0 <= i < |s| ==> s[i] in DNA_CHARS
  }

  /** On upper-case DNA every lookup succeeds and the result is upper-case DNA again. */
  lemma ComplementOfUpperDna(s: string)
    requires IsUpperDna(s)
    ensures MapComplement(s).Success? && |MapComplement(s).value| == |s|
    ensures IsUpperDna(MapComplement(s).value)
  {
  }

  /** Complementing twice gives the original characters back. */
  lemma ComplementTwice(s: string)
    requires IsUpperDna(s)
    ensures MapComplement(s).Success? && MapComplement(MapComplement(s).value) == Success(s)
  {
    ComplementOfUpperDna(s);
    var t := MapComplement(s).value;
    ComplementOfUpperDna(t);
    var back := MapComplement(t).value;
    assert |back| == |s|;
    forall i | 0 <= i < |s| ensures back[i] == s[i] {
      CharComplementTwice(s[i]);
    }
    assert back == s;
  }

  lemma CharComplementTwice(c: char)
    requires c in DNA_CHARS
    ensures ComplementOf(c).Some? && ComplementOf(ComplementOf(c).value) == Some(c)
  {
  }

  /** Upper-case DNA passes the DNA validation. */
  lemma UpperDnaValidates(s: string)
    requires s != [] && IsUpperDna(s)
    ensures ValidateSequenceData(s, None, Some(DNA)) == Success(DNA)
  {
    assert Within(s, DNA_CHARS);
  }

  /** On upper-case DNA the complement preserves length and undoes itself. */
  lemma ComplementInvolution(s: string)
    requires s != [] && IsUpperDna(s)
    ensures GetDnaReverseComplement(s).Success?
    ensures |GetDnaReverseComplement(s).value| == |s|
    ensures GetDnaReverseComplement(GetDnaReverseComplement(s).value) == Success(s)
  {
    UpperDnaValidates(s);
    ComplementOfUpperDna(s);
    var t := MapComplement(s).value;
    UpperDnaValidates(t);
    ComplementTwice(s);
  }

  lemma ComplementExamples()
    ensures GetDnaReverseComplement("ATCG") == Success("TAGC")
    ensures GetDnaReverseComplement("CCGG") == Success("GGCC")
  {
    assert Within("ATCG", DNA_CHARS) && Within("CCGG", DNA_CHARS);
    assert MapComplement("ATCG").value == "TAGC";
    assert MapComplement("CCGG").value == "GGCC";
  }

  /** Finding: lower-case DNA passes the case-insensitive validation and then raises KeyError. */
  lemma ComplementLowercaseFails()
    ensures ValidateSequenceData("acgt", None, Some(DNA)) == Success(DNA)
    ensures GetDnaReverseComplement("acgt") == Failure(KeyError("a"))
  {
    assert Within("acgt", DNA_CHARS);
  }

  /** The complement as evidently intended: the data is upper-cased before the lookup. */
  function DnaComplement(data: string): (r: Result<string>)
    ensures ValidateSequenceData(data, None, Some(DNA)).Success? ==>
      r.Success? && |r.value| == |data|
      && forall i :: 0 <= i < |data| ==> ComplementOf(UpperChar(data[i])) == Some(r.value[i])
    ensures ValidateSequenceData(data, None, Some(DNA)).Failure? ==> r == Failure(ValidateSequenceData(data, None, Some(DNA)).error)
  {
    match ValidateSequenceData(data, None, Some(DNA))
    case Failure(e) => Failure(e)
    case Success(_) =>
      assert forall i :: 0 <= i < |Upper(data)| ==> ComplementOf(Upper(data)[i]).Some?;
      MapComplement(Upper(data))
  }

  // ---------------------------------------------------------------------------
  // Transcription.

  function TToU(c: char): char {
    if c == 'T' then 'U' else c
  }

  /**
   * get_rna_from_dna: a failed DNA validation is passed on; otherwise the result
   * has the same length, with 'U' where the data has 'T' and the data's own
   * character everywhere else.
   */
  function GetRnaFromDna(data: string): (r: Result<string>)
    ensures ValidateSequenceData(data, None, Some(DNA)).Failure? ==>
              r == Failure(ValidateSequenceData(data, None, Some(DNA)).error)
    ensures ValidateSequenceData(data, None, Some(DNA)).Success? ==> r.Success? && |r.value| == |data|
    ensures r.Success? ==> forall i :: 0 <= i < |data| ==>
              (data[i] == 'T' ==> r.value[i] == 'U') && (data[i] != 'T' ==> r.value[i] == data[i])
  {
    match ValidateSequenceData(data, None, Some(DNA))
    case Failure(e) => Failure(e)
    case Success(_) => Success(seq(|data|, i requires 0 <= i < |data| => TToU(data[i])))
  }

  function UToT(c: char): char {
    if c == 'U' then 'T' else c
  }

  /**
   * Transcription keeps the length, turns every 'T' into 'U' and keeps every
   * other character (so a lower-case 't' survives), leaves no 'T', turns
   * upper-case DNA into valid RNA, and is undone by replacing each 'U' by 'T'
   * (valid DNA never contains 'U').
   */
  lemma TranscriptionProperties(data: string)
    requires GetRnaFromDna(data).Success?
    ensures |GetRnaFromDna(data).value| == |data|
    ensures forall i :: 0 <= i < |data| ==>
              (data[i] == 'T' ==> GetRnaFromDna(data).value[i] == 'U')
              && (data[i] != 'T' ==> GetRnaFromDna(data).value[i] == data[i])
    ensures 'T' !in GetRnaFromDna(data).value
    ensures seq(|data|, i requires 0 <= i < |data| => UToT(GetRnaFromDna(data).value[i])) == data
    ensures IsUpperDna(data) ==> ValidateSequenceData(GetRnaFromDna(data).value, None, Some(RNA)) == Success(RNA)
  {
    var rna := GetRnaFromDna(data).value;
    assert Within(data, DNA_CHARS);
    forall i | 0 <= i < |data| ensures UToT(rna[i]) == data[i] {
      assert UpperChar(data[i]) in DNA_CHARS;
    }
    if IsUpperDna(data) {
      assert Within(rna, RNA_CHARS);
    }
  }

  lemma TranscriptionExamples()
    ensures GetRnaFromDna("ATCG") == Success("AUCG")
    ensures GetRnaFromDna("AAAA") == Success("AAAA")
  {
    assert Within("ATCG", DNA_CHARS) && Within("AAAA", DNA_CHARS);
    var a := "ATCG";
    assert seq(|a|, i requires 0 <= i < |a| => TToU(a[i])) == "AUCG";
    var b := "AAAA";
    assert seq(|b|, i requires 0 <= i < |b| => TToU(b[i])) == "AAAA";
  }

  // ---------------------------------------------------------------------------
  // Translation.

  /** The text of the k-th codon of rna. */
  function CodonSlice(rna: string, k: nat): string
    requires 3 * k + 3 <= |rna|
  {
    rna[3 * k..3 * k + 3]
  }

  /**
   * Translation of the codons from number k on: a KeyError at a codon that is not
   * a table key, otherwise the amino acids up to (excluding) the first stop.
   */
  function TranslateFrom(rna: string, k: nat): (r: Result<string>)
    requires |rna| % 3 == 0 && 3 * k <= |rna|
    ensures r.Success? ==> '*' !in r.value && 3 * |r.value| <= |rna| - 3 * k
    ensures r.Failure? ==> r.error.KeyError?
    decreases |rna| - 3 * k
  {
    if 3 * k == |rna| then Success("")
    else match ParseCodon(CodonSlice(rna, k))
      case None => Failure(KeyError(CodonSlice(rna, k)))
      case Some(c) =>
        if Translate(c) == '*' then Success("")
        else match TranslateFrom(rna, k + 1)
          case Failure(e) => Failure(e)
          case Success(rest) => Success([Translate(c)] + rest)
  }

  /** The source's slice to a whole number of codons. */
  function WholeCodons(data: string): (r: string)
    ensures |r| % 3 == 0 && |r| == |data| - |data| % 3 && r == data[..|r|]
  {
    data[..|data| - |data| % 3]
  }

  /**
   * get_protein_from_rna as a specification: a failed RNA validation is passed on;
   * valid upper-case RNA always translates; the only other failure is a KeyError
   * for a codon missing from the table.
   */
  function ProteinFromRna(data: string): (r: Result<string>)
    ensures ValidateSequenceData(data, None, Some(RNA)).Failure? ==>
              r == Failure(ValidateSequenceData(data, None, Some(RNA)).error)
    ensures ValidateSequenceData(data, None, Some(RNA)).Success? && (forall i :: 0 <= i < |data| ==> data[i] in RNA_CHARS) ==>
              r.Success?
    ensures ValidateSequenceData(data, None, Some(RNA)).Success? && r.Failure? ==> r.error.KeyError?
  {
    match ValidateSequenceData(data, None, Some(RNA))
    case Failure(e) => Failure(e)
    case Success(_) =>
      var rna := WholeCodons(data);
      if forall i :: 0 <= i < |data| ==> data[i] in RNA_CHARS then
        assert forall i :: 0 <= i < |rna| ==> rna[i] == data[i];
        UpperRnaTranslates(rna, 0);
        TranslateFrom(rna, 0)
      else TranslateFrom(rna, 0)
  }

  function PrependTo(prefix: string, r: Result<string>): Result<string> {
    match r
    case Failure(e) => Failure(e)
    case Success(s) => Success(prefix + s)
  }

  lemma PrependEmpty(r: Result<string>)
    ensures PrependTo("", r) == r
  {
    if r.Success? {
      assert "" + r.value == r.value;
    }
  }

  /** One loop step: a non-stop codon moves its amino acid from the remaining translation to the prefix. */
  lemma PrependStep(rna: string, k: nat, protein: string)
    requires |rna| % 3 == 0 && 3 * k < |rna|
    requires ParseCodon(CodonSlice(rna, k)).Some?
    requires Translate(ParseCodon(CodonSlice(rna, k)).value) != '*'
    ensures PrependTo(protein, TranslateFrom(rna, k))
         == PrependTo(protein + [Translate(ParseCodon(CodonSlice(rna, k)).value)], TranslateFrom(rna, k + 1))
  {
    var aa := Translate(ParseCodon(CodonSlice(rna, k)).value);
    match TranslateFrom(rna, k + 1)
    case Failure(e) =>
    case Success(rest) =>
      assert protein + ([aa] + rest) == (protein + [aa]) + rest;
  }

  /** A stop codon, or the end of the data, ends the translation with the prefix read so far. */
  lemma TranslateEnds(rna: string, k: nat, protein: string)
    requires |rna| % 3 == 0 && 3 * k <= |rna|
    requires 3 * k == |rna|
             || (ParseCodon(CodonSlice(rna, k)).Some? && Translate(ParseCodon(CodonSlice(rna, k)).value) == '*')
    ensures PrependTo(protein, TranslateFrom(rna, k)) == Success(protein)
  {
    assert protein + "" == protein;
  }

  /** A codon that is not a table key raises KeyError with its text. */
  lemma TranslateUnknown(rna: string, k: nat, protein: string)
    requires |rna| % 3 == 0 && 3 * k < |rna|
    requires ParseCodon(CodonSlice(rna, k)).None?
    ensures PrependTo(protein, TranslateFrom(rna, k)) == Failure(KeyError(CodonSlice(rna, k)))
  {
  }

  /** get_protein_from_rna: validation as RNA, then the translation loop over the whole codons. */
  method GetProteinFromRna(data: string) returns (r: Result<string>)
    ensures r == ProteinFromRna(data)
  {
    var v := ValidateSequenceData(data, None, Some(RNA));
    if v.Failure? {
      return Failure(v.error);
    }
    var rna := data[..|data| - |data| % 3];
    assert rna == WholeCodons(data);
    r := TranslateCodons(rna);
  }

  /** The loop of get_protein_from_rna, with its early break at a stop codon. */
  method TranslateCodons(rna: string) returns (r: Result<string>)
    requires |rna| % 3 == 0
    ensures r == TranslateFrom(rna, 0)
  {
    var protein := "";
    var codonNumber := 0;
    PrependEmpty(TranslateFrom(rna, 0));
    while codonNumber < |rna| / 3
      invariant 0 <= codonNumber <= |rna| / 3
      invariant TranslateFrom(rna, 0) == PrependTo(protein, TranslateFrom(rna, codonNumber))
    {
      var codon := rna[codonNumber * 3..codonNumber * 3 + 3];
      assert codon == CodonSlice(rna, codonNumber);
      var key := ParseCodon(codon);
      if key.None? {
        TranslateUnknown(rna, codonNumber, protein);
        return Failure(KeyError(codon));
      }
      var aminoAcid := Translate(key.value);
      if aminoAcid == '*' {
        break;
      }
      PrependStep(rna, codonNumber, protein);
      protein := protein + [aminoAcid];
      codonNumber := codonNumber + 1;
    }
    TranslateEnds(rna, codonNumber, protein);
    return Success(protein);
  }



  /** Codon number m is a table key and its amino acid is a. */
  predicate CodonReadsAs(rna: string, m: nat, a: char) {
    3 * m + 3 <= |rna| && ParseCodon(CodonSlice(rna, m)).Some? && a == Translate(ParseCodon(CodonSlice(rna, m)).value)
  }

  /** The codons from number k on are table keys, and p holds their amino acids. */
  predicate TranslatedPrefix(rna: string, k: nat, p: string) {
    3 * (k + |p|) <= |rna| && forall j :: 0 <= j < |p| ==> CodonReadsAs(rna, k + j, p[j])
  }

  /** Translation stops at codon number m: the codons ran out, or codon m is a stop. */
  predicate StopsAt(rna: string, m: nat) {
    3 * m == |rna|
    || (3 * m + 3 <= |rna| && ParseCodon(CodonSlice(rna, m)).Some?
        && Translate(ParseCodon(CodonSlice(rna, m)).value) == '*')
  }

  /**
   * Successful translation reads codons in frame: the j-th amino acid is the table
   * entry of the j-th codon, and translation ends at the first stop codon or when
   * the whole codons run out.
   */
  lemma TranslatedPrefixCons(rna: string, k: nat, p: string)
    requires p != [] && CodonReadsAs(rna, k, p[0])
    requires TranslatedPrefix(rna, k + 1, p[1..])
    ensures TranslatedPrefix(rna, k, p)
  {
    forall j | 0 < j < |p| ensures CodonReadsAs(rna, k + j, p[j]) {
      assert p[j] == p[1..][j - 1];
      assert CodonReadsAs(rna, (k + 1) + (j - 1), p[1..][j - 1]);
    }
  }

  lemma {:induction false} TranslateInFrame(rna: string, k: nat)
    requires |rna| % 3 == 0 && 3 * k <= |rna|
    requires TranslateFrom(rna, k).Success?
    ensures TranslatedPrefix(rna, k, TranslateFrom(rna, k).value)
    ensures StopsAt(rna, k + |TranslateFrom(rna, k).value|)
    decreases |rna| - 3 * k
  {
    if 3 * k < |rna| {
      var c := ParseCodon(CodonSlice(rna, k));
      if Translate(c.value) != '*' {
        TranslateInFrame(rna, k + 1);
        var p := TranslateFrom(rna, k).value;
        assert p == [Translate(c.value)] + TranslateFrom(rna, k + 1).value;
        assert p[1..] == TranslateFrom(rna, k + 1).value;
        assert CodonReadsAs(rna, k, p[0]);
        TranslatedPrefixCons(rna, k, p);
      }
    }
  }

  /** The protein never contains '*' and has at most len(data) // 3 residues. */
  lemma ProteinBounds(data: string)
    requires ProteinFromRna(data).Success?
    ensures '*' !in ProteinFromRna(data).value
    ensures |ProteinFromRna(data).value| <= |data| / 3
  {
  }

  /** Valid upper-case RNA always translates: no codon is missing from the table. */
  lemma {:induction false} UpperRnaTranslates(rna: string, k: nat)
    requires |rna| % 3 == 0 && 3 * k <= |rna|
    requires forall i :: 0 <= i < |rna| ==> rna[i] in RNA_CHARS
    ensures TranslateFrom(rna, k).Success?
    decreases |rna| - 3 * k
  {
    if 3 * k < |rna| {
      var s := CodonSlice(rna, k);
      assert s[0] == rna[3 * k] && s[1] == rna[3 * k + 1] && s[2] == rna[3 * k + 2];
      assert ParseCodon(s).Some?;
      UpperRnaTranslates(rna, k + 1);
    }
  }

  /** Finding: lower-case RNA passes validation and then raises KeyError on the first codon. */
  lemma ProteinFromRnaLowercaseFails()
    ensures ValidateSequenceData("aug", None, Some(RNA)) == Success(RNA)
    ensures ProteinFromRna("aug") == Failure(KeyError("aug"))
  {
    assert Within("aug", RNA_CHARS);
    assert WholeCodons("aug") == "aug";
    assert CodonSlice("aug", 0) == "aug";
  }

  /** Translation as evidently intended: the data is upper-cased before the table lookup. */
  function RnaToProtein(data: string): (r: Result<string>)
    ensures ValidateSequenceData(data, None, Some(RNA)).Success? ==> r.Success? && r == ProteinFromRna(Upper(data))
    ensures ValidateSequenceData(data, None, Some(RNA)).Failure? ==> r == Failure(ValidateSequenceData(data, None, Some(RNA)).error)
  {
    match ValidateSequenceData(data, None, Some(RNA))
    case Failure(e) => Failure(e)
    case Success(_) =>
      var up := Upper(data);
      assert Within(up, RNA_CHARS);
      ProteinFromRna(up)
  }

  /**
   * get_protein_from_dna: a failed DNA validation is passed on; a protein it
   * returns has no '*' and at most len(data) // 3 residues.
   */
  function GetProteinFromDna(data: string): (r: Result<string>)
    ensures ValidateSequenceData(data, None, Some(DNA)).Failure? ==>
              r == Failure(ValidateSequenceData(data, None, Some(DNA)).error)
    ensures r.Success? ==> '*' !in r.value && |r.value| <= |data| / 3
  {
    match ValidateSequenceData(data, None, Some(DNA))
    case Failure(e) => Failure(e)
    case Success(_) =>
      match GetRnaFromDna(data)
      case Failure(e) => Failure(e)
      case Success(rna) => ProteinFromRna(rna)
  }

  /** Upper-case DNA is transcribed and then always translated. */
  lemma UpperDnaTranslates(data: string)
    requires data != [] && IsUpperDna(data)
    ensures GetRnaFromDna(data).Success?
    ensures GetProteinFromDna(data) == ProteinFromRna(GetRnaFromDna(data).value)
    ensures GetProteinFromDna(data).Success?
  {
    UpperDnaValidates(data);
    var rna := GetRnaFromDna(data).value;
    TranscriptionProperties(data);
    forall i | 0 <= i < |rna| ensures rna[i] in RNA_CHARS {
      assert data[i] in DNA_CHARS;
    }
  }

  /** Finding: lower-case DNA validates, but its 't' survives transcription and fails RNA validation. */
  lemma ProteinFromDnaLowercaseFails()
    ensures ValidateSequenceData("atg", None, Some(DNA)) == Success(DNA)
    ensures GetProteinFromDna("atg").Failure?
  {
    assert Within("atg", DNA_CHARS);
    var rna := GetRnaFromDna("atg").value;
    assert rna == "atg";
    assert UpperChar(rna[1]) == 'T';
    assert !Within(rna, RNA_CHARS);
  }

  /** DNA translation as evidently intended: upper-case, then transcribe and translate. */
  function DnaToProtein(data: string): (r: Result<string>)
    ensures ValidateSequenceData(data, None, Some(DNA)).Success? ==> r.Success?
    ensures ValidateSequenceData(data, None, Some(DNA)).Failure? ==> r == Failure(ValidateSequenceData(data, None, Some(DNA)).error)
    ensures r.Success? ==> '*' !in r.value && |r.value| <= |data| / 3
    ensures ValidateSequenceData(data, None, Some(DNA)).Success? ==> r == GetProteinFromDna(Upper(data))
  {
    match ValidateSequenceData(data, None, Some(DNA))
    case Failure(e) => Failure(e)
    case Success(_) =>
      var up := Upper(data);
      assert IsUpperDna(up);
      UpperDnaTranslates(up);
      GetProteinFromDna(up)
  }
}
