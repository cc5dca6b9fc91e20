/** The in-memory amenity store: the shared catalogue store with an `is_active` flag, a
    listing of the active amenities and a fuzzy search ranked by match score. The
    word-scanning score is a parameter (`Scorer`). */
module AmenityRepository {
  import opened Wrappers
  import Seqs
  import Sorting
  import Text
  import Catalogue
  import FuzzySearch

  datatype AmenityData = AmenityData(isActive: bool)

  type Amenity = Catalogue.Record<AmenityData>

  type Repository = Catalogue.InMemoryCatalogue<AmenityData>

  /** `fuzzyMatch(query, text)`: a score in [0, 1]. */
  type Scorer = (string, string) -> real

  predicate IsActive(x: Amenity) { x.data.isActive }

  /** `list_active`: the active amenities, newest first, after the cursor, paginated. */
  function ListActive(repo: Repository, cursor: Option<Catalogue.Cursor>, limit: int, maxLimit: int)
    : (page: Catalogue.Page<Amenity, Catalogue.Cursor>)
    reads repo
    ensures forall x :: x in page.items ==>
              (x in repo.items && x.data.isActive && (cursor.Some? ==> Catalogue.After(x, cursor.value)))
    ensures Sorting.SortedBy(page.items, Catalogue.NewerFirst)
  {
    Catalogue.ListWhere(repo.items, IsActive, cursor, limit, maxLimit)
  }

  /** With room for everything, the first page of `list_active` holds every active
      amenity and no inactive one. */
  lemma ListActiveComplete(repo: Repository, limit: int, maxLimit: int)
    requires |repo.items| <= limit && |repo.items| <= maxLimit
    ensures var page := ListActive(repo, None, limit, maxLimit);
            (forall x :: x in page.items <==> x in repo.items && x.data.isActive) && !page.hasMore
  {
    Catalogue.ListWhereComplete(repo.items, IsActive, limit, maxLimit);
  }

  // ---------------------------------------------------------------------------------
  // Search

  /** An amenity with the outcome of matching it against the query. */
  datatype Scored = Scored(item: Amenity, result: FuzzySearch.MatchResult)

  function Match(query: string, x: Amenity, fuzzyMatch: Scorer): FuzzySearch.MatchResult {
    FuzzySearch.FuzzySearchMatch(query, x.name, x.description, fuzzyMatch)
  }

  /** Pairs every amenity with its match outcome. */
  function ScoreAll(items: seq<Amenity>, query: string, fuzzyMatch: Scorer): (r: seq<Scored>)
    ensures |r| == |items|
    ensures forall i :: 0 <= i < |items| ==> r[i] == Scored(items[i], Match(query, items[i], fuzzyMatch))
  {
    seq(|items|, i requires 0 <= i < |items| => Scored(items[i], Match(query, items[i], fuzzyMatch)))
  }

  predicate IsMatch(e: Scored) { e.result.matches }

  /** The comparator of `search`: the higher score first, then the newer record. */
  predicate RanksBefore(a: Scored, b: Scored) {
    a.result.score > b.result.score
    || (a.result.score == b.result.score && a.item.createdAt > b.item.createdAt)
  }

  lemma RanksBeforeIsStrictOrder()
    ensures Sorting.StrictOrder(RanksBefore)
  {
  }

  /** The matches, best first. */
  function Ranked(items: seq<Amenity>, query: string, fuzzyMatch: Scorer): (r: seq<Scored>)
    ensures Sorting.SortedBy(r, RanksBefore)
    ensures forall e :: e in r <==> e in ScoreAll(items, query, fuzzyMatch) && IsMatch(e)
  {
    RanksBeforeIsStrictOrder();
    var matches := Seqs.Filter(ScoreAll(items, query, fuzzyMatch), IsMatch);
    Sorting.SortSorted(matches, RanksBefore);
    assert forall e :: e in Sorting.Sort(matches, RanksBefore) <==> e in multiset(matches);
    Sorting.Sort(matches, RanksBefore)
  }

  /** Drops the scores. */
  function Unscored(s: seq<Scored>): (r: seq<Amenity>)
    ensures |r| == |s| && forall i :: 0 <= i < |s| ==> r[i] == s[i].item
  {
    seq(|s|, i requires 0 <= i < |s| => s[i].item)
  }

  function Score(query: string, x: Amenity, fuzzyMatch: Scorer): real {
    Match(query, x, fuzzyMatch).score
  }

  /** "Comes before" for a list in order of non-increasing score. */
  function ByScore(query: string, fuzzyMatch: Scorer): (Amenity, Amenity) -> bool {
    (a: Amenity, b: Amenity) => Score(query, a, fuzzyMatch) > Score(query, b, fuzzyMatch)
  }

  /** Every ranked amenity is stored and matches, and the ranking never puts a lower
      score first. */
  lemma RankedFacts(items: seq<Amenity>, query: string, fuzzyMatch: Scorer)
    ensures var plain := Unscored(Ranked(items, query, fuzzyMatch));
            (forall x :: x in plain ==> x in items && Match(query, x, fuzzyMatch).matches)
            && Sorting.SortedBy(plain, ByScore(query, fuzzyMatch))
  {
    var ranked := Ranked(items, query, fuzzyMatch);
    var plain := Unscored(ranked);
    var scored := ScoreAll(items, query, fuzzyMatch);
    forall k | 0 <= k < |ranked|
      ensures ranked[k].item in items && ranked[k].result == Match(query, ranked[k].item, fuzzyMatch)
      ensures ranked[k].result.matches
    {
      assert ranked[k] in scored;
      var i :| 0 <= i < |scored| && scored[i] == ranked[k];
    }
    forall x | x in plain ensures x in items && Match(query, x, fuzzyMatch).matches {
      var k :| 0 <= k < |plain| && plain[k] == x;
    }
    forall i, j | 0 <= i < j < |plain| ensures !ByScore(query, fuzzyMatch)(plain[j], plain[i]) {
      assert !RanksBefore(ranked[j], ranked[i]);
    }
  }

  /** A prefix of a list in score order is in score order. */
  lemma PrefixByScore(s: seq<Amenity>, n: int, query: string, fuzzyMatch: Scorer)
    requires 0 <= n <= |s| && Sorting.SortedBy(s, ByScore(query, fuzzyMatch))
    ensures forall i, j :: 0 <= i < j < n ==> Score(query, s[j], fuzzyMatch) <= Score(query, s[i], fuzzyMatch)
  {
    forall i, j | 0 <= i < j < n ensures Score(query, s[j], fuzzyMatch) <= Score(query, s[i], fuzzyMatch) {
      assert !ByScore(query, fuzzyMatch)(s[j], s[i]);
    }
  }

  /** `search` as written: the matches ranked by score, then cut by the listing's
      (created_at, id) cursor and paginated. Every amenity it returns is stored, matches
      the query and lies after the cursor, and the page is in order of non-increasing
      score. */
  function Search(items: seq<Amenity>, query: string, cursor: Option<Catalogue.Cursor>, limit: int,
                  maxLimit: int, fuzzyMatch: Scorer): (page: Catalogue.Page<Amenity, Catalogue.Cursor>)
    ensures forall x :: x in page.items ==>
              x in items && Match(query, x, fuzzyMatch).matches && (cursor.Some? ==> Catalogue.After(x, cursor.value))
    ensures forall i, j :: 0 <= i < j < |page.items| ==>
              Score(query, page.items[j], fuzzyMatch) <= Score(query, page.items[i], fuzzyMatch)
  {
    var plain := Unscored(Ranked(items, query, fuzzyMatch));
    var filtered := Catalogue.AfterCursor(plain, cursor);
    RankedFacts(items, query, fuzzyMatch);
    assert Sorting.SortedBy(filtered, ByScore(query, fuzzyMatch)) by {
      if cursor.Some? {
        Sorting.FilterSorted(plain, ByScore(query, fuzzyMatch), (x: Amenity) => Catalogue.After(x, cursor.value));
      }
    }
    Catalogue.PageOfList(filtered, Catalogue.KeyOf, limit, maxLimit, ByScore(query, fuzzyMatch));
    var page := Catalogue.Paginate(filtered, Catalogue.KeyOf, limit, maxLimit);
    PrefixByScore(page.items, |page.items|, query, fuzzyMatch);
    page
  }

  // ---------------------------------------------------------------------------------
  // The cursor of the search as written skips matches

  /** A better-scored older amenity and a worse-scored newer one. */
  const Sauna: Amenity := Catalogue.Record("a1", "sauna", "Sauna", None, 1, AmenityData(true))
  const Spa: Amenity := Catalogue.Record("b2", "spa", "Spa", None, 2, AmenityData(true))

  function SaunaScorer(query: string, text: string): real {
    if text == "Sauna" then 0.9 else 0.7
  }

  /** One match per page: the first page holds the better-scored Sauna; the cursor it
      hands back is Sauna's creation time, which the newer Spa is not before, so the
      second page is empty and says nothing more remains. Spa matches and is never
      returned. */
  lemma SearchSkipsNewerLowerScoredMatch()
    ensures var page1 := Search([Sauna, Spa], "sa", None, 1, 100, SaunaScorer);
            page1.items == [Sauna] && page1.hasMore && page1.nextCursor == Some(Catalogue.Cursor(1, "a1"))
            && var page2 := Search([Sauna, Spa], "sa", page1.nextCursor, 1, 100, SaunaScorer);
               Match("sa", Spa, SaunaScorer).matches && Spa !in page1.items
               && page2.items == [] && !page2.hasMore
  {
    var items := [Sauna, Spa];
    var a := Scored(Sauna, FuzzySearch.MatchResult(true, 0.9));
    var b := Scored(Spa, FuzzySearch.MatchResult(true, 0.7));
    assert Match("sa", Sauna, SaunaScorer) == a.result;
    assert Match("sa", Spa, SaunaScorer) == b.result;
    var scored := ScoreAll(items, "sa", SaunaScorer);
    assert scored == [a, b];
    assert Seqs.Filter(scored, IsMatch) == [a, b] by {
      Seqs.FilterAll(scored, IsMatch);
    }
    assert Sorting.Sort([a], RanksBefore) == [a];
    assert Sorting.Insert(b, [a], RanksBefore) == [a] + Sorting.Insert(b, [], RanksBefore);
    assert [a, b][..1] == [a];
    var ranked := Ranked(items, "sa", SaunaScorer);
    assert ranked == [a, b];
    assert Unscored(ranked) == [Sauna, Spa];
    assert Catalogue.SliceTo([Sauna, Spa], 2) == [Sauna, Spa];
    assert Catalogue.SliceTo([Sauna, Spa], 1) == [Sauna];
    var c := Catalogue.Cursor(1, "a1");
    Text.StringLessAsymmetric("a1", "a1");
    var rest := Catalogue.AfterCursor([Sauna, Spa], Some(c));
    var p := (x: Amenity) => Catalogue.After(x, c);
    assert !p(Sauna) && !p(Spa);
    assert [Sauna, Spa][1..] == [Spa];
    assert Seqs.Filter([Spa], p) == [] by {
      assert [Spa][1..] == [];
    }
    assert rest == Seqs.Filter([Sauna, Spa], p);
  }

  // ---------------------------------------------------------------------------------
  // The corrected search: a cursor in the ranking's own order

  /** The position of a match in the ranking: its score, creation time and id. */
  datatype SearchCursor = SearchCursor(score: real, createdAt: int, id: string)

  function KeyOfScored(e: Scored): SearchCursor {
    SearchCursor(e.result.score, e.item.createdAt, e.item.id)
  }

  /** Strictly before in the ranking: higher score, then newer, then the greater id
      (so that, as in the listing's cursor, a smaller id comes later). */
  predicate RanksBeforeById(a: Scored, b: Scored) {
    a.result.score > b.result.score
    || (a.result.score == b.result.score
        && (a.item.createdAt > b.item.createdAt
            || (a.item.createdAt == b.item.createdAt && Text.StringLess(b.item.id, a.item.id))))
  }

  /** Strictly after the cursor in the ranking. */
  predicate AfterSearchCursor(e: Scored, c: SearchCursor) {
    e.result.score < c.score
    || (e.result.score == c.score
        && (e.item.createdAt < c.createdAt || (e.item.createdAt == c.createdAt && Text.StringLess(e.item.id, c.id))))
  }

  lemma AfterIsRanksBefore(a: Scored, e: Scored)
    ensures AfterSearchCursor(e, KeyOfScored(a)) <==> RanksBeforeById(a, e)
  {
  }

  lemma RanksBeforeByIdIsStrictOrder()
    ensures Sorting.StrictOrder(RanksBeforeById)
  {
    forall a: Scored ensures !RanksBeforeById(a, a) {
      Text.StringLessAsymmetric(a.item.id, a.item.id);
    }
    forall a: Scored, b: Scored, c: Scored | RanksBeforeById(a, b) && RanksBeforeById(b, c)
      ensures RanksBeforeById(a, c)
    {
      if a.result.score == b.result.score == c.result.score
         && a.item.createdAt == b.item.createdAt == c.item.createdAt {
        Text.StringLessTransitive(c.item.id, b.item.id, a.item.id);
      }
    }
  }

  /** The matches in ranking order, ties broken by id. */
  function RankedById(items: seq<Amenity>, query: string, fuzzyMatch: Scorer): (r: seq<Scored>)
    ensures Sorting.SortedBy(r, RanksBeforeById)
    ensures forall e :: e in r <==> e in ScoreAll(items, query, fuzzyMatch) && IsMatch(e)
  {
    RanksBeforeByIdIsStrictOrder();
    var matches := Seqs.Filter(ScoreAll(items, query, fuzzyMatch), IsMatch);
    Sorting.SortSorted(matches, RanksBeforeById);
    assert forall e :: e in Sorting.Sort(matches, RanksBeforeById) <==> e in multiset(matches);
    Sorting.Sort(matches, RanksBeforeById)
  }

  /** The ranked matches after the cursor. */
  function Remaining(items: seq<Amenity>, query: string, cursor: Option<SearchCursor>, fuzzyMatch: Scorer): seq<Scored> {
    var ranked := RankedById(items, query, fuzzyMatch);
    if cursor.None? then ranked else Seqs.Filter(ranked, (e: Scored) => AfterSearchCursor(e, cursor.value))
  }

  /** The corrected search: paginated in ranking order with a cursor naming the last
      match's place in that order. */
  function CorrectedSearch(items: seq<Amenity>, query: string, cursor: Option<SearchCursor>, limit: int,
                           maxLimit: int, fuzzyMatch: Scorer): (page: Catalogue.Page<Scored, SearchCursor>)
    ensures forall e :: e in page.items ==>
              e in ScoreAll(items, query, fuzzyMatch) && IsMatch(e) && (cursor.Some? ==> AfterSearchCursor(e, cursor.value))
    ensures Sorting.SortedBy(page.items, RanksBeforeById)
  {
    var ranked := RankedById(items, query, fuzzyMatch);
    var rest := Remaining(items, query, cursor, fuzzyMatch);
    assert Sorting.SortedBy(rest, RanksBeforeById) by {
      if cursor.Some? {
        Sorting.FilterSorted(ranked, RanksBeforeById, (e: Scored) => AfterSearchCursor(e, cursor.value));
      }
    }
    Catalogue.PageOfList(rest, KeyOfScored, limit, maxLimit, RanksBeforeById);
    Catalogue.Paginate(rest, KeyOfScored, limit, maxLimit)
  }

  /** Ids identify stored amenities. */
  predicate IdsIdentify(items: seq<Amenity>) {
    forall x, y :: x in items && y in items && x.id == y.id ==> x == y
  }

  /** With the corrected cursor nothing is skipped and nothing repeats: every match is
      either on the first page or among those the next page starts from, never both. */
  lemma CorrectedSearchSkipsNothing(items: seq<Amenity>, query: string, limit: int, maxLimit: int,
                                    fuzzyMatch: Scorer)
    requires IdsIdentify(items)
    ensures var page1 := CorrectedSearch(items, query, None, limit, maxLimit, fuzzyMatch);
            page1.nextCursor.Some? ==>
              forall e :: e in RankedById(items, query, fuzzyMatch) ==>
                (e in page1.items <==> e !in Remaining(items, query, page1.nextCursor, fuzzyMatch))
  {
    var ranked := RankedById(items, query, fuzzyMatch);
    var page1 := CorrectedSearch(items, query, None, limit, maxLimit, fuzzyMatch);
    if page1.nextCursor.Some? {
      var n := |page1.items|;
      assert page1.items == ranked[..n];
      var last := ranked[n - 1];
      assert page1.nextCursor.value == KeyOfScored(last);
      var rest := Remaining(items, query, page1.nextCursor, fuzzyMatch);
      RanksBeforeByIdIsStrictOrder();
      forall e | e in ranked
        ensures e in page1.items <==> e !in rest
      {
        AfterIsRanksBefore(last, e);
        CutAtLast(items, query, fuzzyMatch, n, e);
      }
    }
  }

  /** In the ranking, a match among the first `n` never comes after the `n`-th, and any
      other match does. */
  lemma CutAtLast(items: seq<Amenity>, query: string, fuzzyMatch: Scorer, n: int, e: Scored)
    requires IdsIdentify(items)
    requires 0 < n <= |RankedById(items, query, fuzzyMatch)|
    requires e in RankedById(items, query, fuzzyMatch)
    ensures var ranked := RankedById(items, query, fuzzyMatch);
            e in ranked[..n] <==> !RanksBeforeById(ranked[n - 1], e)
  {
    var ranked := RankedById(items, query, fuzzyMatch);
    RanksBeforeByIdIsStrictOrder();
    forall a, b | a in ranked && b in ranked && a != b
      ensures RanksBeforeById(a, b) || RanksBeforeById(b, a)
    {
      RankedTotal(items, query, fuzzyMatch, a, b);
    }
    Sorting.CutAt(ranked, RanksBeforeById, n, e);
  }

  /** Two different ranked matches of a store whose ids identify its amenities are
      ordered one way or the other. */
  lemma RankedTotal(items: seq<Amenity>, query: string, fuzzyMatch: Scorer, a: Scored, b: Scored)
    requires IdsIdentify(items)
    requires a in RankedById(items, query, fuzzyMatch) && b in RankedById(items, query, fuzzyMatch)
    requires a != b
    ensures RanksBeforeById(a, b) || RanksBeforeById(b, a)
  {
    var scored := ScoreAll(items, query, fuzzyMatch);
    var i :| 0 <= i < |scored| && scored[i] == a;
    var j :| 0 <= j < |scored| && scored[j] == b;
    assert a.item != b.item;
    assert a.item.id != b.item.id;
    Text.StringLessTotal(a.item.id, b.item.id);
  }
}
