/** The fuzzy-search helpers: accent- and case-folding normalisation, the Levenshtein
    edit distance filled in a matrix, the similarity ratio built on it, and the match
    decision over a name and an optional description. The word-scanning score
    (`fuzzyMatch`) is a parameter. */
module FuzzySearch {
  import opened Wrappers
  import Text
  import Numbers

  /** Lower case, then the base letter of a decomposable Latin-1 letter (NFD followed by
      dropping the combining marks); other characters are kept. */
  function Fold(c: char): char {
    if 'A' <= c <= 'Z' then Text.LowerChar(c)
    else if ('À' <= c <= 'Å') || ('à' <= c <= 'å') then 'a'
    else if c == 'Ç' || c == 'ç' then 'c'
    else if ('È' <= c <= 'Ë') || ('è' <= c <= 'ë') then 'e'
    else if ('Ì' <= c <= 'Ï') || ('ì' <= c <= 'ï') then 'i'
    else if c == 'Ñ' || c == 'ñ' then 'n'
    else if ('Ò' <= c <= 'Ö') || ('ò' <= c <= 'ö') then 'o'
    else if ('Ù' <= c <= 'Ü') || ('ù' <= c <= 'ü') then 'u'
    else if c == 'Ý' || c == 'ý' || c == 'ÿ' then 'y'
    else c
  }

  /** What survives the final `/[^a-z0-9\s]/g` removal. */
  predicate Kept(c: char) { ('a' <= c <= 'z') || Text.IsDigit(c) || Text.IsSpace(c) }

  /** `normalizeText`: fold each character and drop what is not a lower-case letter, a
      digit or white space. */
  function NormalizeText(s: string): (r: string)
    ensures |r| <= |s|
    ensures forall i :: 0 <= i < |r| ==> Kept(r[i])
  {
    if |s| == 0 then ""
    else (if Kept(Fold(s[0])) then [Fold(s[0])] else []) + NormalizeText(s[1..])
  }

  /** A normalised text is its own normalisation. */
  lemma {:induction false} NormalizeIdempotent(s: string)
    ensures NormalizeText(NormalizeText(s)) == NormalizeText(s)
  {
    KeptFixed(NormalizeText(s));
  }

  lemma {:induction false} KeptFixed(s: string)
    requires forall i :: 0 <= i < |s| ==> Kept(s[i])
    ensures NormalizeText(s) == s
  {
    if |s| > 0 {
      assert Fold(s[0]) == s[0];
      KeptFixed(s[1..]);
      assert s == [s[0]] + s[1..];
    }
  }

  /** Accents and capitals are folded away: "Café" and "cafe" normalise alike. */
  lemma NormalizeFoldsAccents()
    ensures NormalizeText("Café") == "cafe"
  {
    assert NormalizeText("é") == "e";
    assert NormalizeText("fé") == "fe";
    assert NormalizeText("afé") == "afe";
  }

  /** Punctuation is dropped after folding: "ÁGUA!" normalises to "agua". */
  lemma NormalizeDropsPunctuation()
    ensures NormalizeText("ÁGUA!") == "agua"
  {
    assert NormalizeText("!") == "";
    assert NormalizeText("A!") == "a";
    assert NormalizeText("UA!") == "ua";
    assert NormalizeText("GUA!") == "gua";
  }

  function Min3(x: int, y: int, z: int): (m: int)
    ensures m <= x && m <= y && m <= z && (m == x || m == y || m == z)
  {
    if x <= y && x <= z then x else if y <= z then y else z
  }

  function Cost(a: string, b: string): nat
    requires |a| > 0 && |b| > 0
  {
    if a[|a| - 1] == b[|b| - 1] then 0 else 1
  }

  /** The edit distance: the fewest single-character deletions, insertions and
      substitutions turning `a` into `b`, by the recurrence on prefixes. */
  function Lev(a: string, b: string): nat
    decreases |a| + |b|
  {
    if |a| == 0 then |b|
    else if |b| == 0 then |a|
    else Min3(Lev(a[..|a| - 1], b) + 1, Lev(a, b[..|b| - 1]) + 1,
              Lev(a[..|a| - 1], b[..|b| - 1]) + Cost(a, b))
  }

  /** A string is at distance 0 from itself and at its length from "". */
  lemma {:induction false} LevIdentity(a: string)
    ensures Lev(a, a) == 0
    ensures Lev(a, "") == |a| && Lev("", a) == |a|
  {
    if |a| > 0 {
      LevIdentity(a[..|a| - 1]);
    }
  }

  /** The distance is at least the difference of the lengths and at most the longer
      length. */
  lemma {:induction false} LevBounds(a: string, b: string)
    ensures Lev(a, b) >= Numbers.Abs(|a| - |b|)
    ensures Lev(a, b) <= if |a| > |b| then |a| else |b|
    decreases |a| + |b|
  {
    if |a| > 0 && |b| > 0 {
      LevBounds(a[..|a| - 1], b);
      LevBounds(a, b[..|b| - 1]);
      LevBounds(a[..|a| - 1], b[..|b| - 1]);
    }
  }

  /** Turning `a` into `b` costs as much as turning `b` into `a`. */
  lemma {:induction false} LevSymmetric(a: string, b: string)
    ensures Lev(a, b) == Lev(b, a)
    decreases |a| + |b|
  {
    if |a| > 0 && |b| > 0 {
      LevSymmetric(a[..|a| - 1], b);
      LevSymmetric(a, b[..|b| - 1]);
      LevSymmetric(a[..|a| - 1], b[..|b| - 1]);
    }
  }

  /** Rows `0 .. rows - 1` of the matrix hold the distances between prefixes. */
  ghost predicate RowsFilled(matrix: array2<nat>, a: string, b: string, rows: int)
    reads matrix
    requires matrix.Length0 == |a| + 1 && matrix.Length1 == |b| + 1
    requires 0 <= rows <= |a| + 1
  {
    forall i, j :: 0 <= i < rows && 0 <= j <= |b| ==> matrix[i, j] == Lev(a[..i], b[..j])
  }

  /** `levenshteinDistance`: the matrix of distances between prefixes, first column,
      first row, then row by row. */
  method LevenshteinDistance(a: string, b: string) returns (d: nat)
    ensures d == Lev(a, b)
  {
    var matrix := new nat[|a| + 1, |b| + 1];
    for i := 0 to |a| + 1
      invariant forall i' :: 0 <= i' < i ==> matrix[i', 0] == i'
    {
      matrix[i, 0] := i;
    }
    for j := 0 to |b| + 1
      invariant forall i' :: 0 <= i' <= |a| ==> matrix[i', 0] == i'
      invariant forall j' :: 0 <= j' < j ==> matrix[0, j'] == j'
    {
      matrix[0, j] := j;
    }
    forall j | 0 <= j <= |b|
      ensures matrix[0, j] == Lev(a[..0], b[..j])
    {
      LevIdentity(b[..j]);
    }
    for i := 1 to |a| + 1
      invariant RowsFilled(matrix, a, b, i)
      invariant forall i' :: i <= i' <= |a| ==> matrix[i', 0] == i'
    {
      LevIdentity(a[..i]);
      FillRow(matrix, a, b, i);
    }
    assert a[..|a|] == a && b[..|b|] == b;
    d := matrix[|a|, |b|];
  }

  /** Fills row `i` from its first cell and the row above. */
  method FillRow(matrix: array2<nat>, a: string, b: string, i: int)
    requires matrix.Length0 == |a| + 1 && matrix.Length1 == |b| + 1
    requires 1 <= i <= |a|
    requires RowsFilled(matrix, a, b, i)
    requires matrix[i, 0] == Lev(a[..i], b[..0])
    modifies matrix
    ensures RowsFilled(matrix, a, b, i + 1)
    ensures forall i' :: i < i' <= |a| ==> matrix[i', 0] == old(matrix[i', 0])
  {
    for j := 1 to |b| + 1
      invariant RowsFilled(matrix, a, b, i)
      invariant forall j' :: 0 <= j' < j ==> matrix[i, j'] == Lev(a[..i], b[..j'])
      invariant forall i' :: i < i' <= |a| ==> matrix[i', 0] == old(matrix[i', 0])
    {
      FillCell(matrix, a, b, i, j);
    }
  }

  /** Fills cell (i, j) from its neighbours above, to the left and diagonally above. */
  method FillCell(matrix: array2<nat>, a: string, b: string, i: int, j: int)
    requires matrix.Length0 == |a| + 1 && matrix.Length1 == |b| + 1
    requires 1 <= i <= |a| && 1 <= j <= |b|
    requires RowsFilled(matrix, a, b, i)
    requires forall j' :: 0 <= j' < j ==> matrix[i, j'] == Lev(a[..i], b[..j'])
    modifies matrix
    ensures RowsFilled(matrix, a, b, i)
    ensures forall j' :: 0 <= j' <= j ==> matrix[i, j'] == Lev(a[..i], b[..j'])
    ensures forall i' :: i < i' <= |a| ==> matrix[i', 0] == old(matrix[i', 0])
  {
    var cost := if a[i - 1] == b[j - 1] then 0 else 1;
    var up, left, diagonal := matrix[i - 1, j], matrix[i, j - 1], matrix[i - 1, j - 1];
    CellValue(a, b, i, j, up, left, diagonal);
    matrix[i, j] := Min3(up + 1, left + 1, diagonal + cost);
  }

  /** The value the recurrence gives a cell from its three neighbours. */
  lemma CellValue(a: string, b: string, i: int, j: int, up: int, left: int, diagonal: int)
    requires 1 <= i <= |a| && 1 <= j <= |b|
    requires up == Lev(a[..i - 1], b[..j]) && left == Lev(a[..i], b[..j - 1])
    requires diagonal == Lev(a[..i - 1], b[..j - 1])
    ensures Min3(up + 1, left + 1, diagonal + (if a[i - 1] == b[j - 1] then 0 else 1)) == Lev(a[..i], b[..j])
  {
    LevStep(a, b, i, j);
  }

  /** One cell of the recurrence, stated on prefixes. */
  lemma LevStep(a: string, b: string, i: int, j: int)
    requires 1 <= i <= |a| && 1 <= j <= |b|
    ensures Lev(a[..i], b[..j])
         == Min3(Lev(a[..i - 1], b[..j]) + 1, Lev(a[..i], b[..j - 1]) + 1,
                 Lev(a[..i - 1], b[..j - 1]) + (if a[i - 1] == b[j - 1] then 0 else 1))
  {
    assert a[..i][..i - 1] == a[..i - 1];
    assert b[..j][..j - 1] == b[..j - 1];
  }

  /** `similarityRatio`: 1 for equal strings, 0 when either is empty, otherwise one less
      the distance over the longer length. */
  function SimilarityRatio(a: string, b: string): (r: real)
    ensures a == b ==> r == 1.0
    ensures a != b && (|a| == 0 || |b| == 0) ==> r == 0.0
    ensures 0.0 <= r <= 1.0
  {
    if a == b then 1.0
    else if |a| == 0 || |b| == 0 then 0.0
    else
      LevBounds(a, b);
      var maxLength := if |a| > |b| then |a| else |b|;
      RatioInUnit(Lev(a, b), maxLength);
      1.0 - (Lev(a, b) as real) / (maxLength as real)
  }

  lemma RatioInUnit(d: nat, m: nat)
    requires 0 < m && d <= m
    ensures 0.0 <= 1.0 - (d as real) / (m as real) <= 1.0
  {
    assert (d as real) / (m as real) <= 1.0 by {
      assert (d as real) <= (m as real);
    }
  }

  const MatchThreshold: real := 0.6

  /** The weight given to a description match. */
  const DescriptionWeight: real := 0.8

  datatype MatchResult = MatchResult(matches: bool, score: real)

  /** `fuzzySearchMatch`: the better of the name score and the weighted description
      score (0 without a non-empty description), matching from 0.6 up. */
  function FuzzySearchMatch(query: string, name: string, description: Option<string>,
                            fuzzyMatch: (string, string) -> real): (r: MatchResult)
    ensures r.matches <==> r.score >= MatchThreshold
    ensures r.score >= fuzzyMatch(query, name)
    ensures description.Some? && description.value != "" ==> r.score >= fuzzyMatch(query, description.value) * DescriptionWeight
    ensures r.score == fuzzyMatch(query, name)
            || (description.Some? && description.value != "" && r.score == fuzzyMatch(query, description.value) * DescriptionWeight)
            || r.score == 0.0
  {
    var nameScore := fuzzyMatch(query, name);
    var descScore := if description.Some? && description.value != "" then fuzzyMatch(query, description.value) * DescriptionWeight else 0.0;
    var maxScore := if nameScore >= descScore then nameScore else descScore;
    MatchResult(maxScore >= MatchThreshold, maxScore)
  }
}
