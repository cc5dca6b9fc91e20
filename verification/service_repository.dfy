/** The in-memory service store: the shared catalogue store where every service belongs
    to a specialty, a listing that may be narrowed to one specialty, a case-insensitive
    text search and the unpaginated list of a specialty's services. */
module ServiceRepository {
  import opened Wrappers
  import Seqs
  import Sorting
  import Catalogue

  datatype ServiceData = ServiceData(specialtyId: string)

  type Service = Catalogue.Record<ServiceData>

  type Repository = Catalogue.InMemoryCatalogue<ServiceData>

  /** A specialty filter applies when it is a non-empty string. */
  predicate Narrows(specialtyId: Option<string>) { specialtyId.Some? && specialtyId.value != "" }

  predicate InSpecialty(x: Service, specialtyId: Option<string>) {
    Narrows(specialtyId) ==> x.data.specialtyId == specialtyId.value
  }

  /** `list(specialty_id, cursor, limit)`. */
  function List(repo: Repository, specialtyId: Option<string>, cursor: Option<Catalogue.Cursor>,
                limit: int, maxLimit: int): (page: Catalogue.Page<Service, Catalogue.Cursor>)
    reads repo
    ensures forall x :: x in page.items ==>
              (x in repo.items && InSpecialty(x, specialtyId) && (cursor.Some? ==> Catalogue.After(x, cursor.value)))
    ensures Sorting.SortedBy(page.items, Catalogue.NewerFirst)
  {
    Catalogue.ListWhere(repo.items, (x: Service) => InSpecialty(x, specialtyId), cursor, limit, maxLimit)
  }

  /** Without a specialty the listing is the plain catalogue listing. */
  lemma ListWithoutSpecialty(repo: Repository, specialtyId: Option<string>, cursor: Option<Catalogue.Cursor>,
                             limit: int, maxLimit: int)
    requires !Narrows(specialtyId)
    ensures List(repo, specialtyId, cursor, limit, maxLimit) == repo.List(cursor, limit, maxLimit)
  {
    Seqs.FilterAll(repo.items, (x: Service) => InSpecialty(x, specialtyId));
  }

  /** `search(query, specialty_id, cursor, limit)`: the services whose name or
      description holds the query, ignoring case, within the specialty when one is given. */
  function Search(repo: Repository, query: string, specialtyId: Option<string>, cursor: Option<Catalogue.Cursor>,
                  limit: int, maxLimit: int): (page: Catalogue.Page<Service, Catalogue.Cursor>)
    reads repo
    ensures forall x :: x in page.items ==>
              (x in repo.items && Catalogue.MatchesText(x, query) && InSpecialty(x, specialtyId)
               && (cursor.Some? ==> Catalogue.After(x, cursor.value)))
    ensures Sorting.SortedBy(page.items, Catalogue.NewerFirst)
  {
    Catalogue.ListWhere(repo.items, (x: Service) => Catalogue.MatchesText(x, query) && InSpecialty(x, specialtyId),
                        cursor, limit, maxLimit)
  }

  /** The empty query narrows nothing: searching for it is listing. */
  lemma SearchEmptyIsList(repo: Repository, specialtyId: Option<string>, cursor: Option<Catalogue.Cursor>,
                          limit: int, maxLimit: int)
    ensures Search(repo, "", specialtyId, cursor, limit, maxLimit) == List(repo, specialtyId, cursor, limit, maxLimit)
  {
    forall x: Service {
      Catalogue.MatchesTextLaws(x, "");
    }
    Seqs.FilterCongruent(repo.items, (x: Service) => Catalogue.MatchesText(x, "") && InSpecialty(x, specialtyId),
                         (x: Service) => InSpecialty(x, specialtyId));
  }

  /** `list_by_specialty_id`: the specialty's services in store order. */
  function ListBySpecialtyId(repo: Repository, specialtyId: string): (r: seq<Service>)
    reads repo
    ensures forall x :: x in r <==> x in repo.items && x.data.specialtyId == specialtyId
    ensures |r| <= |repo.items|
    ensures Seqs.SubsequenceOf(r, repo.items)
  {
    Seqs.FilterIsSubsequence(repo.items, (x: Service) => x.data.specialtyId == specialtyId);
    Seqs.Filter(repo.items, (x: Service) => x.data.specialtyId == specialtyId)
  }

  /** With room for everything, the first page of a listing narrowed to a specialty
      holds exactly the services `list_by_specialty_id` returns. */
  lemma ListAgreesWithListBySpecialtyId(repo: Repository, specialtyId: string, limit: int, maxLimit: int)
    requires specialtyId != ""
    requires |repo.items| <= limit && |repo.items| <= maxLimit
    ensures multiset(List(repo, Some(specialtyId), None, limit, maxLimit).items)
         == multiset(ListBySpecialtyId(repo, specialtyId))
  {
    Catalogue.ListWhereComplete(repo.items, (x: Service) => InSpecialty(x, Some(specialtyId)), limit, maxLimit);
    Seqs.FilterCongruent(repo.items, (x: Service) => InSpecialty(x, Some(specialtyId)),
                         (x: Service) => x.data.specialtyId == specialtyId);
  }
}
