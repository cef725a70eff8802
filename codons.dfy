// The standard RNA codon table (RNA_CODON_TABLE in api/sequences/utils.py).
// Codons are triples of bases, so the table's keys are the 64 triples over
// U, C, A, G; the three-letter string keys of the source are read by ParseCodon.
module Codons {
  import opened Errors

  datatype Base = U | C | A | G
  datatype Codon = Codon(first: Base, second: Base, third: Base)

  function BaseOf(c: char): Option<Base> {
    if c == 'U' then Some(U) else if c == 'C' then Some(C)
    else if c == 'A' then Some(A) else if c == 'G' then Some(G) else None
  }

  function BaseChar(b: Base): char {
    match b
    case U => 'U'
    case C => 'C'
    case A => 'A'
    case G => 'G'
  }

  function CodonText(c: Codon): string {
    [BaseChar(c.first), BaseChar(c.second), BaseChar(c.third)]
  }

  /** The key lookup of the table: a three-character string is a key iff it spells a codon. */
  function ParseCodon(s: string): (r: Option<Codon>)
    requires |s| == 3
    ensures r.Some? <==> BaseOf(s[0]).Some? && BaseOf(s[1]).Some? && BaseOf(s[2]).Some?
    ensures r.Some? ==> CodonText(r.value) == s
  {
    match (BaseOf(s[0]), BaseOf(s[1]), BaseOf(s[2]))
    case (Some(x), Some(y), Some(z)) => Some(Codon(x, y, z))
    case _ => None
  }

  /** RNA_CODON_TABLE: the amino acid one-letter code of each codon, '*' for a stop. */
  function Translate(c: Codon): char {
    match (c.first, c.second, c.third)
    case (U, U, U) => 'F' case (U, U, C) => 'F' case (U, U, A) => 'L' case (U, U, G) => 'L'
    case (C, U, U) => 'L' case (C, U, C) => 'L' case (C, U, A) => 'L' case (C, U, G) => 'L'
    case (A, U, U) => 'I' case (A, U, C) => 'I' case (A, U, A) => 'I' case (A, U, G) => 'M'
    case (G, U, U) => 'V' case (G, U, C) => 'V' case (G, U, A) => 'V' case (G, U, G) => 'V'
    case (U, C, U) => 'S' case (U, C, C) => 'S' case (U, C, A) => 'S' case (U, C, G) => 'S'
    case (C, C, U) => 'P' case (C, C, C) => 'P' case (C, C, A) => 'P' case (C, C, G) => 'P'
    case (A, C, U) => 'T' case (A, C, C) => 'T' case (A, C, A) => 'T' case (A, C, G) => 'T'
    case (G, C, U) => 'A' case (G, C, C) => 'A' case (G, C, A) => 'A' case (G, C, G) => 'A'
    case (U, A, U) => 'Y' case (U, A, C) => 'Y' case (U, A, A) => '*' case (U, A, G) => '*'
    case (C, A, U) => 'H' case (C, A, C) => 'H' case (C, A, A) => 'Q' case (C, A, G) => 'Q'
    case (A, A, U) => 'N' case (A, A, C) => 'N' case (A, A, A) => 'K' case (A, A, G) => 'K'
    case (G, A, U) => 'D' case (G, A, C) => 'D' case (G, A, A) => 'E' case (G, A, G) => 'E'
    case (U, G, U) => 'C' case (U, G, C) => 'C' case (U, G, A) => '*' case (U, G, G) => 'W'
    case (C, G, U) => 'R' case (C, G, C) => 'R' case (C, G, A) => 'R' case (C, G, G) => 'R'
    case (A, G, U) => 'S' case (A, G, C) => 'S' case (A, G, A) => 'R' case (A, G, G) => 'R'
    case (G, G, U) => 'G' case (G, G, C) => 'G' case (G, G, A) => 'G' case (G, G, G) => 'G'
  }

  const PROTEIN_LETTERS: set<char> := {'A', 'C', 'D', 'E', 'F', 'G', 'H', 'I', 'K', 'L', 'M', 'N', 'P', 'Q', 'R', 'S', 'T', 'V', 'W', 'Y'}

  /** Exactly UAA, UAG and UGA are stops. */
  lemma StopCodons(c: Codon)
    ensures Translate(c) == '*' <==> c in {Codon(U, A, A), Codon(U, A, G), Codon(U, G, A)}
  {
  }

  /** Every other codon yields one of the twenty protein letters. */
  lemma SenseCodons(c: Codon)
    ensures Translate(c) != '*' ==> Translate(c) in PROTEIN_LETTERS
  {
  }

  // ---------------------------------------------------------------------------
  // The table has 64 entries: codons are numbered 0..63 one-to-one.

  function Ord(b: Base): (n: nat)
    ensures n < 4
  {
    match b
    case U => 0
    case C => 1
    case A => 2
    case G => 3
  }

  function BaseAt(n: nat): (b: Base)
    requires n < 4
    ensures Ord(b) == n
  {
    if n == 0 then U else if n == 1 then C else if n == 2 then A else G
  }

  function Index(c: Codon): (n: nat)
    ensures n < 64
  {
    16 * Ord(c.first) + 4 * Ord(c.second) + Ord(c.third)
  }

  function CodonAt(n: nat): (c: Codon)
    requires n < 64
    ensures Index(c) == n
  {
    Codon(BaseAt(n / 16), BaseAt(n / 4 % 4), BaseAt(n % 4))
  }

  lemma IndexInjective(c: Codon, d: Codon)
    ensures Index(c) == Index(d) <==> c == d
  {
  }

  /** The codons numbered below n. */
  function Numbered(n: nat): set<Codon>
    requires n <= 64
  {
    set i | 0 <= i < n :: CodonAt(i)
  }

  lemma NumberedShrinks(n: nat, c: Codon)
    requires 0 < n <= 64 && c in Numbered(n) && c != CodonAt(n - 1)
    ensures c in Numbered(n - 1)
  {
    var i :| 0 <= i < n && c == CodonAt(i);
    IndexInjective(c, CodonAt(n - 1));
    assert Index(c) == i;
    assert CodonAt(i) in Numbered(n - 1);
  }

  lemma NumberedGrows(n: nat, c: Codon)
    requires 0 < n <= 64 && (c in Numbered(n - 1) || c == CodonAt(n - 1))
    ensures c in Numbered(n)
  {
    if c in Numbered(n - 1) {
      var i :| 0 <= i < n - 1 && c == CodonAt(i);
      assert CodonAt(i) in Numbered(n);
    } else {
      assert CodonAt(n - 1) in Numbered(n);
    }
  }

  lemma NumberedStep(n: nat)
    requires 0 < n <= 64
    ensures Numbered(n) == Numbered(n - 1) + {CodonAt(n - 1)}
  {
    forall c ensures c in Numbered(n) <==> c in Numbered(n - 1) + {CodonAt(n - 1)} {
      if c in Numbered(n) && c != CodonAt(n - 1) {
        NumberedShrinks(n, c);
      }
      if c in Numbered(n - 1) || c == CodonAt(n - 1) {
        NumberedGrows(n, c);
      }
    }
  }

  lemma NumberedFresh(n: nat)
    requires 0 < n <= 64
    ensures CodonAt(n - 1) !in Numbered(n - 1)
  {
    forall i | 0 <= i < n - 1 ensures CodonAt(i) != CodonAt(n - 1) {
      assert Index(CodonAt(i)) == i;
    }
  }

  lemma {:induction false} NumberedCard(n: nat)
    requires n <= 64
    ensures |Numbered(n)| == n
  {
    if n > 0 {
      NumberedCard(n - 1);
      NumberedStep(n);
      NumberedFresh(n);
    }
  }

  /** The set of all codons: the keys of the table. */
  function AllCodons(): set<Codon> {
    Numbered(64)
  }

  lemma AllCodonsComplete(c: Codon)
    ensures c in AllCodons()
  {
    IndexInjective(CodonAt(Index(c)), c);
  }

  function StopSet(): set<Codon> {
    set c | c in AllCodons() && Translate(c) == '*'
  }

  /** The table has 64 entries, exactly three of them stops. */
  lemma TableSize()
    ensures |AllCodons()| == 64
    ensures |StopSet()| == 3
  {
    NumberedCard(64);
    var stops := {Codon(U, A, A), Codon(U, A, G), Codon(U, G, A)};
    forall c ensures c in StopSet() <==> c in stops {
      AllCodonsComplete(c);
      StopCodons(c);
    }
    assert StopSet() == stops;
  }
}
