/** The shared shape of the in-memory catalogue stores (amenities, services,
    specialties): an array of records that `create` appends to, `update` overwrites by
    index and `delete` splices, and a cursor-paginated listing ordered newest first.
    A cursor is modelled by the (created_at, id) pair it encodes. */
module Catalogue {
  import opened Wrappers
  import Seqs
  import Sorting
  import Text

  /** A stored record; `data` holds what is particular to each catalogue. */
  datatype Record<D> = Record(id: string, code: string, name: string, description: Option<string>,
                              createdAt: int, data: D)

  datatype Cursor = Cursor(createdAt: int, id: string)

  /** A page and the cursor (of type `K`) that resumes after it. */
  datatype Page<T, K> = Page(items: seq<T>, nextCursor: Option<K>, hasMore: bool)

  datatype RepoError = NotFound(id: string)

  function KeyOf<D>(r: Record<D>): Cursor { Cursor(r.createdAt, r.id) }

  /** The listing order: a strictly newer record comes first. */
  predicate NewerFirst<D>(a: Record<D>, b: Record<D>) { a.createdAt > b.createdAt }

  function SortNewestFirst<D(!new)>(items: seq<Record<D>>): (r: seq<Record<D>>)
    ensures Sorting.SortedBy(r, NewerFirst) && multiset(r) == multiset(items)
  {
    Sorting.SortSorted(items, NewerFirst);
    Sorting.Sort(items, NewerFirst)
  }

  /** Strictly after the cursor in (created_at, id) descending order. */
  predicate After<D>(r: Record<D>, c: Cursor) {
    r.createdAt < c.createdAt || (r.createdAt == c.createdAt && Text.StringLess(r.id, c.id))
  }

  /** No cursor (absent or empty) keeps everything. */
  function AfterCursor<D(!new)>(items: seq<Record<D>>, cursor: Option<Cursor>): (r: seq<Record<D>>)
    ensures forall x :: x in r <==> x in items && (cursor.Some? ==> After(x, cursor.value))
  {
    if cursor.None? then items else Seqs.Filter(items, (x: Record<D>) => After(x, cursor.value))
  }

  /** `slice(0, end)`, including JavaScript's reading of a negative end as counting from
      the back. */
  function SliceTo<T>(s: seq<T>, end: int): (r: seq<T>)
    ensures |r| <= |s| && r == s[..|r|]
    ensures 0 <= end ==> |r| == if end <= |s| then end else |s|
  {
    if end >= 0 then (if end <= |s| then s[..end] else s)
    else if |s| + end > 0 then s[..|s| + end] else []
  }

  /** One page of an ordered, cursor-filtered list: a prefix of the list. For a
      non-negative limit it holds at most `min(limit, maxLimit)` items, more remain
      exactly when the list is longer, a full page is returned then, and otherwise the
      whole list is; the next cursor is the key of the last item and is absent when
      nothing more remains. */
  function Paginate<T, K>(filtered: seq<T>, key: T -> K, limit: int, maxLimit: int): (page: Page<T, K>)
    ensures var validLimit := if limit < maxLimit then limit else maxLimit;
            |page.items| <= |filtered| && page.items == filtered[..|page.items|]
            && (!page.hasMore ==> page.nextCursor.None?)
            && (page.nextCursor.Some? ==> |page.items| > 0 && page.nextCursor.value == key(page.items[|page.items| - 1]))
            && (validLimit >= 0 ==>
                  |page.items| <= validLimit
                  && (page.hasMore <==> |filtered| > validLimit)
                  && (page.hasMore ==> |page.items| == validLimit)
                  && (!page.hasMore ==> page.items == filtered))
  {
    var validLimit := if limit < maxLimit then limit else maxLimit;
    var items := SliceTo(filtered, validLimit + 1);
    var hasMore := |items| > validLimit;
    var results := if hasMore then SliceTo(items, validLimit) else items;
    assert hasMore ==> results == items[..|results|] && items[..|results|] == filtered[..|results|];
    var nextCursor := if hasMore && |results| > 0 then Some(key(results[|results| - 1])) else None;
    Page(results, nextCursor, hasMore)
  }

  /** A page holds items of the list, in the list's order. */
  lemma PageOfList<T, K>(filtered: seq<T>, key: T -> K, limit: int, maxLimit: int, before: (T, T) -> bool)
    ensures var items := Paginate(filtered, key, limit, maxLimit).items;
            (forall x :: x in items ==> x in filtered)
            && (Sorting.SortedBy(filtered, before) ==> Sorting.SortedBy(items, before))
  {
    var items := Paginate(filtered, key, limit, maxLimit).items;
    forall x | x in items ensures x in filtered {
      var k :| 0 <= k < |items| && items[k] == x;
      assert filtered[k] == x;
    }
  }

  /** The listing: newest first, after the cursor, paginated. Every listed record is
      stored and strictly after the cursor, and the page is in newest-first order. */
  function ListPage<D(!new)>(items: seq<Record<D>>, cursor: Option<Cursor>, limit: int, maxLimit: int)
    : (page: Page<Record<D>, Cursor>)
    ensures forall x :: x in page.items ==> x in items && (cursor.Some? ==> After(x, cursor.value))
    ensures Sorting.SortedBy(page.items, NewerFirst)
  {
    var sorted := SortNewestFirst(items);
    var filtered := AfterCursor(sorted, cursor);
    FilterKeepsOrder(sorted, cursor);
    PageOfList(filtered, KeyOf, limit, maxLimit, NewerFirst);
    assert forall x :: x in filtered ==> x in items by {
      forall x | x in filtered ensures x in items {
        assert x in multiset(sorted);
      }
    }
    Paginate(filtered, KeyOf, limit, maxLimit)
  }

  /** Filtering by a cursor keeps the newest-first order. */
  lemma FilterKeepsOrder<D(!new)>(sorted: seq<Record<D>>, cursor: Option<Cursor>)
    requires Sorting.SortedBy(sorted, NewerFirst)
    ensures Sorting.SortedBy(AfterCursor(sorted, cursor), NewerFirst)
  {
    if cursor.Some? {
      Sorting.FilterSorted(sorted, NewerFirst, (x: Record<D>) => After(x, cursor.value));
    }
  }

  /** The listing of the records that satisfy `p`: filtered, then newest first, after the
      cursor, paginated. */
  function ListWhere<D(!new)>(items: seq<Record<D>>, p: Record<D> -> bool, cursor: Option<Cursor>,
                              limit: int, maxLimit: int): (page: Page<Record<D>, Cursor>)
    ensures forall x :: x in page.items ==> x in items && p(x) && (cursor.Some? ==> After(x, cursor.value))
    ensures Sorting.SortedBy(page.items, NewerFirst)
  {
    ListPage(Seqs.Filter(items, p), cursor, limit, maxLimit)
  }

  /** Without a cursor and with room for everything, a listing holds every record once:
      nothing is left out and nothing more remains. */
  lemma ListPageComplete<D(!new)>(items: seq<Record<D>>, limit: int, maxLimit: int)
    requires |items| <= limit && |items| <= maxLimit
    ensures var page := ListPage(items, None, limit, maxLimit);
            multiset(page.items) == multiset(items) && !page.hasMore && page.nextCursor.None?
  {
    assert |SortNewestFirst(items)| == |items| by {
      assert |multiset(SortNewestFirst(items))| == |multiset(items)|;
    }
  }

  /** The same for a filtered listing: it holds exactly the records that satisfy `p`. */
  lemma ListWhereComplete<D(!new)>(items: seq<Record<D>>, p: Record<D> -> bool, limit: int, maxLimit: int)
    requires |items| <= limit && |items| <= maxLimit
    ensures var page := ListWhere(items, p, None, limit, maxLimit);
            multiset(page.items) == multiset(Seqs.Filter(items, p)) && !page.hasMore
            && (forall x :: x in items && p(x) ==> x in page.items)
  {
    ListPageComplete(Seqs.Filter(items, p), limit, maxLimit);
    var page := ListWhere(items, p, None, limit, maxLimit);
    forall x | x in items && p(x) ensures x in page.items {
      assert x in Seqs.Filter(items, p);
      assert x in multiset(page.items);
    }
  }

  /** The text search of services and specialties: the lower-cased query occurs in the
      lower-cased name or in the lower-cased description, when there is one. */
  predicate MatchesText<D>(x: Record<D>, query: string) {
    Text.Contains(Text.Lower(x.name), Text.Lower(query))
    || (x.description.Some? && Text.Contains(Text.Lower(x.description.value), Text.Lower(query)))
  }

  /** The search ignores the case of the query, and the empty query matches every record. */
  lemma MatchesTextLaws<D>(x: Record<D>, query: string)
    ensures MatchesText(x, Text.Upper(query)) == MatchesText(x, query)
    ensures MatchesText(x, "")
  {
    Text.LowerIgnoresCase(query);
    assert Text.OccursAt(Text.Lower(x.name), Text.Lower(""), 0);
  }

  predicate HasId<D>(r: Record<D>, id: string) { r.id == id }

  class InMemoryCatalogue<D(==,!new)> {
    var items: seq<Record<D>>

    constructor ()
      ensures items == []
    {
      items := [];
    }

    method Create(entity: Record<D>) returns (created: Record<D>)
      modifies this
      ensures items == old(items) + [entity] && created == entity
    {
      items := items + [entity];
      created := entity;
    }

    /** The first record with the id, if any. */
    function FindById(id: string): (r: Option<Record<D>>)
      reads this
      ensures r.None? <==> forall x :: x in items ==> x.id != id
      ensures r.Some? ==> r.value in items && r.value.id == id
      ensures r.Some? ==> exists k :: 0 <= k < |items| && r.value == items[k] && forall j :: 0 <= j < k ==> items[j].id != id
    {
      Seqs.Find(items, (x: Record<D>) => x.id == id)
    }

    /** The first record with the code, if any. */
    function FindByCode(code: string): (r: Option<Record<D>>)
      reads this
      ensures r.None? <==> forall x :: x in items ==> x.code != code
      ensures r.Some? ==> r.value in items && r.value.code == code
      ensures r.Some? ==> exists k | 0 <= k < |items| :: items[k] == r.value && forall j :: 0 <= j < k ==> items[j].code != code
    {
      Seqs.Find(items, (x: Record<D>) => x.code == code)
    }

    /** Overwrites the first record with the entity's id; fails when there is none. */
    method Update(entity: Record<D>) returns (r: Result<Record<D>, RepoError>)
      modifies this
      ensures var i := Seqs.FirstIndex(old(items), (x: Record<D>) => HasId(x, entity.id));
              if i == -1 then r == Failure(NotFound(entity.id)) && items == old(items)
              else r == Success(entity) && items == old(items)[i := entity]
    {
      var i := Seqs.FirstIndex(items, (x: Record<D>) => HasId(x, entity.id));
      if i == -1 {
        return Failure(NotFound(entity.id));
      }
      items := items[i := entity];
      r := Success(entity);
    }

    /** Removes the first record with the id; says whether there was one. */
    method Delete(id: string) returns (deleted: bool)
      modifies this
      ensures var i := Seqs.FirstIndex(old(items), (x: Record<D>) => HasId(x, id));
              if i == -1 then !deleted && items == old(items)
              else deleted && items == Seqs.RemoveAt(old(items), i)
    {
      var i := Seqs.FirstIndex(items, (x: Record<D>) => HasId(x, id));
      if i == -1 {
        return false;
      }
      items := Seqs.RemoveAt(items, i);
      deleted := true;
    }

    /** `list(cursor, limit)`: stored records after the cursor, newest first. */
    function List(cursor: Option<Cursor>, limit: int, maxLimit: int): (page: Page<Record<D>, Cursor>)
      reads this
      ensures forall x :: x in page.items ==> x in items && (cursor.Some? ==> After(x, cursor.value))
      ensures Sorting.SortedBy(page.items, NewerFirst)
    {
      ListPage(items, cursor, limit, maxLimit)
    }
  }
}
