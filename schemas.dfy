// to_camel (api/core/schemas.py), the alias generator of every response schema:
// snake_case field names become camelCase.
module Schemas {
  import opened PyStr

  /** "".join(x.title() for x in parts) */
  function TitleAll(parts: seq<string>): (r: string)
    ensures (forall k :: 0 <= k < |parts| ==> '_' !in parts[k]) ==> '_' !in r
  {
    if parts == [] then []
    else
      var t := Title(parts[0]);
      assert '_' !in parts[0] ==> '_' !in t by {
        if '_' !in parts[0] {
          TitleNoUnderscore(parts[0]);
        }
      }
      t + TitleAll(parts[1..])
  }

  /**
   * to_camel: the text before the first '_' is kept as it is, every later
   * '_'-separated piece is title-cased and appended, and no '_' is left.
   */
  function ToCamel(s: string): (r: string)
    ensures '_' !in r
    ensures |Split(s, '_')[0]| <= |r| && r[..|Split(s, '_')[0]|] == Split(s, '_')[0]
    ensures '_' !in s ==> r == s
  {
    var components := Split(s, '_');
    assert '_' !in s ==> components == [s] by {
      if '_' !in s {
        SplitWithoutSeparator(s, '_');
      }
    }
    components[0] + TitleAll(components[1..])
  }

  /** Title-casing maps letters to letters and leaves everything else alone. */
  lemma {:induction false} TitleFromNoUnderscore(s: string, previousCased: bool)
    requires '_' !in s
    ensures '_' !in TitleFrom(s, previousCased)
  {
    if s != [] {
      TitleFromNoUnderscore(s[1..], IsCased(s[0]));
      assert TitleFrom(s, previousCased)
        == [if previousCased then LowerChar(s[0]) else UpperChar(s[0])] + TitleFrom(s[1..], IsCased(s[0]));
    }
  }

  lemma TitleNoUnderscore(s: string)
    requires '_' !in s
    ensures '_' !in Title(s)
  {
    TitleFromNoUnderscore(s, false);
  }

  /** A string without the separator splits into itself alone. */
  lemma {:induction false} SplitWithoutSeparator(s: string, sep: char)
    requires sep !in s
    ensures Split(s, sep) == [s]
    decreases |s|
  {
    if s != [] {
      SplitWithoutSeparator(s[1..], sep);
      assert [s[0]] + s[1..] == s;
    }
  }

  function Occurrences(s: string, c: char): nat {
    if s == [] then 0 else (if s[0] == c then 1 else 0) + Occurrences(s[1..], c)
  }

  function Lengths(parts: seq<string>): nat {
    if parts == [] then 0 else |parts[0]| + Lengths(parts[1..])
  }

  /** The pieces of a split hold every character except the separators. */
  lemma {:induction false} SplitLengths(s: string, sep: char)
    ensures Lengths(Split(s, sep)) + Occurrences(s, sep) == |s|
    decreases |s|
  {
    if s != [] {
      var rest := Split(s[1..], sep);
      SplitLengths(s[1..], sep);
      if s[0] == sep {
        assert ([""] + rest)[1..] == rest;
      } else {
        var r := [[s[0]] + rest[0]] + rest[1..];
        assert r[1..] == rest[1..];
        assert Lengths(rest) == |rest[0]| + Lengths(rest[1..]);
      }
    }
  }

  lemma {:induction false} TitleAllLength(parts: seq<string>)
    ensures |TitleAll(parts)| == Lengths(parts)
  {
    if parts != [] {
      TitleAllLength(parts[1..]);
    }
  }

  /** Converting drops exactly the underscores: every other character has a place in the result. */
  lemma ToCamelLength(s: string)
    ensures |ToCamel(s)| == |s| - Occurrences(s, '_')
  {
    var components := Split(s, '_');
    SplitLengths(s, '_');
    TitleAllLength(components[1..]);
    assert Lengths(components) == |components[0]| + Lengths(components[1..]);
  }

  /** Splitting at a first separator: the text before it is the first piece. */
  lemma {:induction false} SplitAtFirst(a: string, sep: char, b: string)
    requires sep !in a
    ensures Split(a + [sep] + b, sep) == [a] + Split(b, sep)
    decreases |a|
  {
    if a == [] {
      assert a + [sep] + b == [sep] + b;
      assert ([sep] + b)[1..] == b;
    } else {
      SplitAtFirst(a[1..], sep, b);
      assert (a + [sep] + b)[1..] == a[1..] + [sep] + b;
      assert [a[0]] + a[1..] == a;
    }
  }

  predicate AllLower(s: string) {
    forall i :: 0 <= i < |s| ==> IsAsciiLower(s[i])
  }

  lemma {:induction false} TitleFromLower(s: string)
    requires AllLower(s)
    ensures TitleFrom(s, true) == s
  {
    if s != [] {
      TitleFromLower(s[1..]);
      assert [s[0]] + s[1..] == s;
    }
  }

  /** A lower-case word is title-cased by capitalising its first letter. */
  lemma TitleWord(s: string)
    requires s != [] && AllLower(s)
    ensures Title(s) == [UpperChar(s[0])] + s[1..]
  {
    TitleFromLower(s[1..]);
  }

  /** Splitting undoes joining when no piece holds the separator. */
  lemma {:induction false} SplitOfJoin(parts: seq<string>, sep: char)
    requires |parts| >= 1
    requires forall k :: 0 <= k < |parts| ==> sep !in parts[k]
    ensures Split(Join(parts, sep), sep) == parts
    decreases |parts|
  {
    if |parts| == 1 {
      SplitWithoutSeparator(parts[0], sep);
    } else {
      SplitOfJoin(parts[1..], sep);
      SplitAtFirst(parts[0], sep, Join(parts[1..], sep));
      assert [parts[0]] + parts[1..] == parts;
    }
  }

  /**
   * The name joined from snake_case pieces converts to its first piece followed
   * by the others title-cased.
   */
  lemma ToCamelOfJoin(first: string, rest: seq<string>)
    requires '_' !in first
    requires forall k :: 0 <= k < |rest| ==> '_' !in rest[k]
    ensures ToCamel(Join([first] + rest, '_')) == first + TitleAll(rest)
  {
    var parts := [first] + rest;
    forall k | 0 <= k < |parts| ensures '_' !in parts[k] {
      if k > 0 {
        assert parts[k] == rest[k - 1];
      }
    }
    SplitOfJoin(parts, '_');
    assert parts[1..] == rest;
  }

  /** "gc_content" and "access_token": a lower-case second word is capitalised. */
  lemma ToCamelTwoWords(a: string, b: string)
    requires '_' !in a && '_' !in b && b != [] && AllLower(b)
    ensures ToCamel(a + "_" + b) == a + [UpperChar(b[0])] + b[1..]
  {
    ToCamelOfJoin(a, [b]);
    assert Join([a] + [b], '_') == a + "_" + b;
    TitleWord(b);
    assert TitleAll([b]) == Title(b);
  }

  /** "sequence_id_1": a piece without letters is kept as it is. */
  lemma ToCamelThreeWords(a: string, b: string, c: string)
    requires '_' !in a && '_' !in b && '_' !in c && b != [] && AllLower(b)
    requires forall i :: 0 <= i < |c| ==> !IsCased(c[i])
    ensures ToCamel(a + "_" + b + "_" + c) == a + [UpperChar(b[0])] + b[1..] + c
  {
    ToCamelOfJoin(a, [b, c]);
    assert ([a] + [b, c])[1..] == [b, c] && [b, c][1..] == [c];
    assert Join([b, c], '_') == b + "_" + c;
    assert Join([a] + [b, c], '_') == a + "_" + b + "_" + c;
    TitleWord(b);
    assert Title(c) == c;
    assert TitleAll([b, c]) == Title(b) + TitleAll([c]);
    assert TitleAll([c]) == Title(c);
  }
}
