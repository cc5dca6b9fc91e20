/** The in-memory specialty store: the shared catalogue store with its listing and a
    case-insensitive text search. */
module SpecialtyRepository {
  import opened Wrappers
  import Seqs
  import Sorting
  import Catalogue

  /** A specialty carries nothing beyond the shared catalogue fields. */
  datatype SpecialtyData = SpecialtyData

  type Specialty = Catalogue.Record<SpecialtyData>

  type Repository = Catalogue.InMemoryCatalogue<SpecialtyData>

  /** `search(query, cursor, limit)`: the specialties whose name or description holds
      the query, ignoring case, newest first, after the cursor, paginated. */
  function Search(repo: Repository, query: string, cursor: Option<Catalogue.Cursor>, limit: int, maxLimit: int)
    : (page: Catalogue.Page<Specialty, Catalogue.Cursor>)
    reads repo
    ensures forall x :: x in page.items ==>
              (x in repo.items && Catalogue.MatchesText(x, query) && (cursor.Some? ==> Catalogue.After(x, cursor.value)))
    ensures Sorting.SortedBy(page.items, Catalogue.NewerFirst)
  {
    Catalogue.ListWhere(repo.items, (x: Specialty) => Catalogue.MatchesText(x, query), cursor, limit, maxLimit)
  }

  /** With room for everything, a search's first page holds every matching specialty. */
  lemma SearchComplete(repo: Repository, query: string, limit: int, maxLimit: int)
    requires |repo.items| <= limit && |repo.items| <= maxLimit
    ensures var page := Search(repo, query, None, limit, maxLimit);
            forall x :: x in page.items <==> x in repo.items && Catalogue.MatchesText(x, query)
  {
    Catalogue.ListWhereComplete(repo.items, (x: Specialty) => Catalogue.MatchesText(x, query), limit, maxLimit);
  }

  /** Searching for the empty query is listing. */
  lemma SearchEmptyIsList(repo: Repository, cursor: Option<Catalogue.Cursor>, limit: int, maxLimit: int)
    ensures Search(repo, "", cursor, limit, maxLimit) == repo.List(cursor, limit, maxLimit)
  {
    forall x: Specialty {
      Catalogue.MatchesTextLaws(x, "");
    }
    Seqs.FilterAll(repo.items, (x: Specialty) => Catalogue.MatchesText(x, ""));
  }
}
