/** The specialties step of the onboarding wizard. The specialties can be searched and
    a custom one created from the search text; the services offered are those of the
    catalogue and those already chosen under each selected specialty, listed once per
    (name, specialty) key; services can be searched, created under the first selected
    specialty, and chosen all at once. The built-in service table
    (`Professions.Services`) is the `catalogue` parameter. */
module OnboardingSpecialties {
  import Seqs
  import Text
  import opened Professions
  import opened NewUnitSpecialties

  /** `!s.trim()`. */
  predicate Blank(s: string) { Text.Trim(s) == "" }

  function ProfessionNames(ps: seq<Especialidade>): (r: seq<string>)
    ensures |r| == |ps| && forall k :: 0 <= k < |ps| ==> r[k] == ps[k].name
  {
    seq(|ps|, k requires 0 <= k < |ps| => ps[k].name)
  }

  /** `filteredProfessions` and `filteredServices`: everything for a blank search, else
      the items whose name contains the search text, ignoring case. */
  function FilteredByName<T(!new)>(items: seq<T>, nameOf: T -> string, search: string): (r: seq<T>)
    ensures Seqs.SubsequenceOf(r, items)
    ensures Blank(search) ==> r == items
    ensures !Blank(search) ==> forall x :: x in r <==> x in items && Text.Contains(Text.Lower(nameOf(x)), Text.Lower(search))
  {
    var keep := (x: T) => Text.Contains(Text.Lower(nameOf(x)), Text.Lower(search));
    Seqs.FilterIsSubsequence(items, keep);
    if Blank(search) then
      Seqs.SubsequenceOfSelf(items);
      items
    else Seqs.Filter(items, keep)
  }

  /** `specialtyExistsInSearch` and `serviceExistsInSearch` as written: a blank search
      counts as existing; otherwise some name must equal the search text, ignoring case,
      where the search text is compared as typed, surrounding spaces included. */
  predicate ExistsInSearchAsWritten(names: seq<string>, search: string) {
    Blank(search) || exists n :: n in names && Text.Lower(n) == Text.Lower(search)
  }

  /** The same test on the trimmed search text, which is the name a custom item would
      get. */
  predicate ExistsInSearch(names: seq<string>, search: string) {
    Blank(search) || exists n :: n in names && Text.Lower(n) == Text.Lower(Text.Trim(search))
  }

  function CustomSpecialty(search: string, now: nat): Especialidade {
    Especialidade("custom-" + Text.NatToString(now), Text.Trim(search), "Briefcase")
  }

  /** `addCustomSpecialty` as written. */
  function AddCustomSpecialtyAsWritten(professions: seq<Especialidade>, all: seq<Especialidade>, search: string, now: nat)
    : (r: seq<Especialidade>)
    ensures r == professions || r == professions + [CustomSpecialty(search, now)]
  {
    if !Blank(search) && !ExistsInSearchAsWritten(ProfessionNames(all), search) then
      professions + [CustomSpecialty(search, now)]
    else professions
  }

  /** Searching a specialty's own name followed by a space (say "Manicure ") offers and
      creates a custom specialty with that same name. */
  lemma TrailingSpaceDuplicatesSpecialty(existing: Especialidade, now: nat)
    requires |existing.name| > 0 && !Text.IsSpace(existing.name[0]) && !Text.IsSpace(existing.name[|existing.name| - 1])
    ensures var r := AddCustomSpecialtyAsWritten([], [existing], existing.name + " ", now);
            |r| == 1 && r[0].name == existing.name
  {
    var w := existing.name;
    Text.TrimTrailingSpace(w);
    assert ProfessionNames([existing]) == [w];
    assert |Text.Lower(w)| != |Text.Lower(w + " ")|;
  }

  /** `addCustomSpecialty`, comparing the trimmed search text: a custom specialty is
      added only when the search is not blank and no specialty already has that name,
      ignoring case. */
  function AddCustomSpecialty(professions: seq<Especialidade>, all: seq<Especialidade>, search: string, now: nat)
    : (r: seq<Especialidade>)
    ensures r == professions || r == professions + [CustomSpecialty(search, now)]
    ensures r != professions <==>
              !Text.AllSpace(search) && forall p :: p in all ==> Text.Lower(p.name) != Text.Lower(Text.Trim(search))
  {
    Text.TrimEmptyIffAllSpace(search);
    var names := ProfessionNames(all);
    assert forall p :: p in all ==> p.name in names by {
      forall p | p in all ensures p.name in names {
        var k :| 0 <= k < |all| && all[k] == p;
        assert names[k] == p.name;
      }
    }
    if !Blank(search) && !ExistsInSearch(names, search) then
      professions + [CustomSpecialty(search, now)]
    else professions
  }

  /** `toggleProfession`: a selected specialty is removed with its services; an
      unselected one is only added. */
  function ToggleProfession(c: Choices, p: Especialidade): (r: Choices)
    ensures HasId(c.professions, p.id) <==> !HasId(r.professions, p.id)
    ensures HasId(c.professions, p.id) ==>
              && (forall q :: q in r.professions <==> q in c.professions && q.id != p.id)
              && (forall s :: s in r.services <==> s in c.services && s.professionId != p.id)
    ensures !HasId(c.professions, p.id) ==> r == c.(professions := c.professions + [p])
  {
    if HasId(c.professions, p.id) then
      Choices(Seqs.Filter(c.professions, (q: Especialidade) => q.id != p.id),
              Seqs.Filter(c.services, (s: ServiceChoice) => s.professionId != p.id))
    else
      var r := c.(professions := c.professions + [p]);
      assert p in r.professions;
      r
  }

  /** `toggleService`: a chosen service is removed (every copy of it); otherwise it is
      added at the end. */
  function ToggleService(services: seq<ServiceChoice>, name: string, professionId: string): (r: seq<ServiceChoice>)
    ensures ServiceChoice(name, professionId) in services ==>
              && Seqs.SubsequenceOf(r, services)
              && forall s :: s in r <==> s in services && s != ServiceChoice(name, professionId)
    ensures ServiceChoice(name, professionId) !in services ==> r == services + [ServiceChoice(name, professionId)]
  {
    var choice := ServiceChoice(name, professionId);
    if choice in services then
      Seqs.FilterIsSubsequence(services, (s: ServiceChoice) => s != choice);
      Seqs.Filter(services, (s: ServiceChoice) => s != choice)
    else services + [choice]
  }

  /** Choosing a service and unchoosing it again restores the list. */
  lemma ToggleServiceTwice(services: seq<ServiceChoice>, name: string, professionId: string)
    requires ServiceChoice(name, professionId) !in services
    ensures ToggleService(ToggleService(services, name, professionId), name, professionId) == services
  {
    var choice := ServiceChoice(name, professionId);
    var keep := (s: ServiceChoice) => s != choice;
    Seqs.FilterAppend(services, [choice], keep);
    Seqs.FilterAll(services, keep);
    assert Seqs.Filter([choice], keep) == [];
  }

  /** An entry of `availableServices`. */
  datatype Available = Available(name: string, professionId: string, professionName: string)

  /** The `servicesMap` key of a service under a specialty. */
  function Key(name: string, professionId: string): string { name + "-" + professionId }

  function KeyOf(a: Available): string { Key(a.name, a.professionId) }

  function Keys(es: seq<Available>): set<string> {
    set e | e in es :: KeyOf(e)
  }

  predicate DistinctKeys(es: seq<Available>) {
    forall i, j :: 0 <= i < j < |es| ==> KeyOf(es[i]) != KeyOf(es[j])
  }

  lemma KeysSnoc(es: seq<Available>, e: Available)
    requires DistinctKeys(es) && KeyOf(e) !in Keys(es)
    ensures Keys(es + [e]) == Keys(es) + {KeyOf(e)}
    ensures DistinctKeys(es + [e])
  {
    var es' := es + [e];
    forall i, j | 0 <= i < j < |es'| ensures KeyOf(es'[i]) != KeyOf(es'[j]) {
      if j == |es| {
        assert es[i] in es;
      } else {
        assert es'[i] == es[i] && es'[j] == es[j];
      }
    }
  }

  function AvailableNames(es: seq<Available>): (r: seq<string>)
    ensures |r| == |es| && forall k :: 0 <= k < |es| ==> r[k] == es[k].name
  {
    seq(|es|, k requires 0 <= k < |es| => es[k].name)
  }

  /** The names of the services chosen under a specialty, in order. */
  function ChosenNames(services: seq<ServiceChoice>, professionId: string): (r: seq<string>)
    ensures forall n :: n in r <==> ServiceChoice(n, professionId) in services
  {
    var mine := Seqs.Filter(services, (s: ServiceChoice) => s.professionId == professionId);
    var r := seq(|mine|, k requires 0 <= k < |mine| => mine[k].name);
    assert forall n :: n in r <==> ServiceChoice(n, professionId) in mine by {
      forall n ensures n in r <==> ServiceChoice(n, professionId) in mine {
        if n in r {
          var k :| 0 <= k < |r| && r[k] == n;
          assert mine[k] in mine;
        }
        if ServiceChoice(n, professionId) in mine {
          var k :| 0 <= k < |mine| && mine[k] == ServiceChoice(n, professionId);
          assert r[k] == n;
        }
      }
    }
    r
  }

  /** `servicesMap.set` for one name unless its key is already there. */
  method PutOne(start: seq<Available>, entries: seq<Available>, keys: set<string>, name: string, p: Especialidade,
                ghost names: seq<string>)
    returns (entries': seq<Available>, keys': set<string>)
    requires keys == Keys(entries) && DistinctKeys(entries)
    requires |start| <= |entries| && entries[..|start|] == start
    requires name in names
    requires forall e :: e in entries[|start|..] ==> e.professionId == p.id && e.professionName == p.name && e.name in names
    ensures keys' == Keys(entries') && DistinctKeys(entries')
    ensures |start| <= |entries'| && entries'[..|start|] == start
    ensures keys' == keys + {Key(name, p.id)}
    ensures forall e :: e in entries'[|start|..] ==> e.professionId == p.id && e.professionName == p.name && e.name in names
  {
    entries', keys' := entries, keys;
    var key := Key(name, p.id);
    if key !in keys {
      var e := Available(name, p.id, p.name);
      KeysSnoc(entries, e);
      entries' := entries + [e];
      keys' := keys + {key};
      assert entries'[..|entries|] == entries;
      assert entries'[|start|..] == entries[|start|..] + [e];
    }
  }

  /** One inner `forEach`: each name whose key is not yet in the map is added under the
      specialty, in order. */
  method PutAll(entries: seq<Available>, keys: set<string>, names: seq<string>, p: Especialidade)
    returns (entries': seq<Available>, keys': set<string>)
    requires keys == Keys(entries) && DistinctKeys(entries)
    ensures keys' == Keys(entries') && DistinctKeys(entries')
    ensures |entries| <= |entries'| && entries'[..|entries|] == entries
    ensures keys' == keys + set n | n in names :: Key(n, p.id)
    ensures forall e :: e in entries'[|entries|..] ==> e.professionId == p.id && e.professionName == p.name && e.name in names
  {
    entries', keys' := entries, keys;
    for i := 0 to |names|
      invariant keys' == Keys(entries') && DistinctKeys(entries')
      invariant |entries| <= |entries'| && entries'[..|entries|] == entries
      invariant keys' == keys + set n | n in names[..i] :: Key(n, p.id)
      invariant forall e :: e in entries'[|entries|..] ==> e.professionId == p.id && e.professionName == p.name && e.name in names
    {
      entries', keys' := PutOne(entries, entries', keys', names[i], p, names);
      Seqs.PrefixPush(names, i);
    }
    assert names[..|names|] == names;
  }

  /** The entry comes from this specialty: one of its catalogue services or a service
      already chosen under it. */
  ghost predicate Origin(e: Available, p: Especialidade, catalogue: seq<Service>, services: seq<ServiceChoice>) {
    && p.id == e.professionId && p.name == e.professionName
    && (e.name in Names(ServicesOf(catalogue, p.id)) || ServiceChoice(e.name, p.id) in services)
  }

  ghost predicate FromSelected(e: Available, professions: seq<Especialidade>, catalogue: seq<Service>, services: seq<ServiceChoice>) {
    exists p :: p in professions && Origin(e, p, catalogue, services)
  }

  /** Every catalogue service of the specialty, and every service chosen under it, has
      its key among `keys`. */
  ghost predicate Covered(keys: set<string>, p: Especialidade, catalogue: seq<Service>, services: seq<ServiceChoice>) {
    && (forall s :: s in ServicesOf(catalogue, p.id) ==> Key(s.name, p.id) in keys)
    && (forall n :: ServiceChoice(n, p.id) in services ==> Key(n, p.id) in keys)
  }

  /** The entry is one of the catalogue services of its specialty. */
  predicate CatalogueEntry(e: Available, catalogue: seq<Service>) {
    e.name in Names(ServicesOf(catalogue, e.professionId))
  }

  /** `owner[i]` is the position of the selected specialty that entry `i` was added for:
      the entries follow the selection order, and within one specialty its catalogue
      services come before the services only chosen under it. */
  predicate SelectionOrder(r: seq<Available>, owner: seq<int>, professions: seq<Especialidade>, catalogue: seq<Service>) {
    && |owner| == |r|
    && (forall i :: 0 <= i < |r| ==> 0 <= owner[i] < |professions| && r[i].professionId == professions[owner[i]].id)
    && (forall i, j :: 0 <= i < j < |r| ==> owner[i] <= owner[j])
    && (forall i, j :: 0 <= i < j < |r| && owner[i] == owner[j] && CatalogueEntry(r[j], catalogue) ==>
          CatalogueEntry(r[i], catalogue))
  }

  /** `availableServices`: for each selected specialty in order, its catalogue services
      and then the services already chosen under it, each key taken once. */
  method AvailableServices(catalogue: seq<Service>, professions: seq<Especialidade>, services: seq<ServiceChoice>)
    returns (r: seq<Available>)
    ensures DistinctKeys(r)
    ensures forall e :: e in r ==> FromSelected(e, professions, catalogue, services)
    ensures forall p :: p in professions ==> Covered(Keys(r), p, catalogue, services)
    ensures exists owner :: SelectionOrder(r, owner, professions, catalogue)
  {
    r := [];
    var keys: set<string> := {};
    ghost var owner: seq<int> := [];
    for i := 0 to |professions|
      invariant keys == Keys(r) && DistinctKeys(r)
      invariant forall e :: e in r ==> FromSelected(e, professions[..i], catalogue, services)
      invariant forall p :: p in professions[..i] ==> Covered(keys, p, catalogue, services)
      invariant SelectionOrder(r, owner, professions, catalogue)
      invariant forall k :: 0 <= k < |owner| ==> owner[k] < i
    {
      var p := professions[i];
      var fromCatalogue := Names(ServicesOf(catalogue, p.id));
      var chosen := ChosenNames(services, p.id);
      ghost var r0, keys0, owner0 := r, keys, owner;
      r, keys := Step(r, keys, p, fromCatalogue, chosen);
      Seqs.PrefixPush(professions, i);
      NewEntriesFromSelected(r0, r, professions[..i], p, catalogue, services);
      StepCovers(keys0, keys, p, catalogue, services, professions[..i]);
      owner := owner0 + seq(|r| - |r0|, _ => i);
      SelectionOrderStep(r0, r, owner0, owner, professions, catalogue, i);
    }
    assert professions[..|professions|] == professions;
  }

  /** The owners after one pass: the new entries belong to specialty `i`, and among them
      the catalogue ones come first. */
  lemma SelectionOrderStep(r0: seq<Available>, r: seq<Available>, owner0: seq<int>, owner: seq<int>,
                           professions: seq<Especialidade>, catalogue: seq<Service>, i: int)
    requires 0 <= i < |professions|
    requires SelectionOrder(r0, owner0, professions, catalogue)
    requires forall k :: 0 <= k < |owner0| ==> owner0[k] < i
    requires |r0| <= |r| && r[..|r0|] == r0
    requires owner == owner0 + seq(|r| - |r0|, _ => i)
    requires forall e :: e in r[|r0|..] ==> e.professionId == professions[i].id
    requires forall a, b :: |r0| <= a < b < |r| && r[b].name in Names(ServicesOf(catalogue, professions[i].id)) ==>
               r[a].name in Names(ServicesOf(catalogue, professions[i].id))
    ensures SelectionOrder(r, owner, professions, catalogue)
    ensures forall k :: 0 <= k < |owner| ==> owner[k] < i + 1
  {
    forall k | |r0| <= k < |r| ensures r[k].professionId == professions[i].id {
      assert r[k] == r[|r0|..][k - |r0|];
    }
    forall k | 0 <= k < |r0| ensures r[k] == r0[k] && owner[k] == owner0[k] {
      assert r[..|r0|][k] == r[k];
    }
    forall a, b | 0 <= a < b < |r| && owner[a] == owner[b] && CatalogueEntry(r[b], catalogue)
      ensures CatalogueEntry(r[a], catalogue)
    {
      if b < |r0| {
      } else {
        assert a >= |r0|;
      }
    }
  }

  lemma NewEntriesFromSelected(r0: seq<Available>, r: seq<Available>, done: seq<Especialidade>, p: Especialidade,
                               catalogue: seq<Service>, services: seq<ServiceChoice>)
    requires |r0| <= |r| && r[..|r0|] == r0
    requires forall e :: e in r0 ==> FromSelected(e, done, catalogue, services)
    requires forall e :: e in r[|r0|..] ==>
               e.professionId == p.id && e.professionName == p.name
               && (e.name in Names(ServicesOf(catalogue, p.id)) || e.name in ChosenNames(services, p.id))
    ensures forall e :: e in r ==> FromSelected(e, done + [p], catalogue, services)
  {
    forall e | e in r ensures FromSelected(e, done + [p], catalogue, services) {
      var k :| 0 <= k < |r| && r[k] == e;
      if k < |r0| {
        assert r0[k] == e;
        assert e in r0;
        var q :| q in done && Origin(e, q, catalogue, services);
        assert q in done + [p];
      } else {
        assert r[|r0|..][k - |r0|] == e;
        assert Origin(e, p, catalogue, services);
        assert p in done + [p];
      }
    }
  }

  lemma StepCovers(keys0: set<string>, keys: set<string>, p: Especialidade, catalogue: seq<Service>,
                   services: seq<ServiceChoice>, done: seq<Especialidade>)
    requires forall q :: q in done ==> Covered(keys0, q, catalogue, services)
    requires keys == keys0 + (set n | n in Names(ServicesOf(catalogue, p.id)) :: Key(n, p.id))
                           + (set n | n in ChosenNames(services, p.id) :: Key(n, p.id))
    ensures forall q :: q in done + [p] ==> Covered(keys, q, catalogue, services)
  {
    var fromCatalogue := Names(ServicesOf(catalogue, p.id));
    forall s | s in ServicesOf(catalogue, p.id) ensures Key(s.name, p.id) in keys {
      var k :| 0 <= k < |ServicesOf(catalogue, p.id)| && ServicesOf(catalogue, p.id)[k] == s;
      assert fromCatalogue[k] == s.name;
    }
  }

  /** One pass of the outer `forEach`: the catalogue names, then the chosen ones, so among
      the entries it adds no catalogue name follows one that is not. */
  method Step(r: seq<Available>, keys: set<string>, p: Especialidade, fromCatalogue: seq<string>, chosen: seq<string>)
    returns (r': seq<Available>, keys': set<string>)
    requires keys == Keys(r) && DistinctKeys(r)
    ensures keys' == Keys(r') && DistinctKeys(r')
    ensures |r| <= |r'| && r'[..|r|] == r
    ensures keys' == keys + (set n | n in fromCatalogue :: Key(n, p.id)) + (set n | n in chosen :: Key(n, p.id))
    ensures forall e :: e in r'[|r|..] ==>
              e.professionId == p.id && e.professionName == p.name && (e.name in fromCatalogue || e.name in chosen)
    ensures forall a, b :: |r| <= a < b < |r'| && r'[b].name in fromCatalogue ==> r'[a].name in fromCatalogue
  {
    var r1, k1 := PutAll(r, keys, fromCatalogue, p);
    r', keys' := PutAll(r1, k1, chosen, p);
    ghost var mid := |r1|;
    assert r'[|r|..] == r1[|r|..] + r'[|r1|..];
    assert r'[..|r|] == r1[..|r|];
    forall k | |r| <= k < mid ensures r'[k].name in fromCatalogue {
      assert r'[k] == r1[|r|..][k - |r|];
    }
    forall k | mid <= k < |r'| ensures r'[k].name !in fromCatalogue {
      var e := r'[k];
      assert e == r'[|r1|..][k - |r1|];
      NewKeyNotInPrefix(r1, r', k);
      assert Key(e.name, p.id) !in k1;
    }
  }

  /** An entry past a prefix of a key-distinct sequence has a key the prefix lacks. */
  lemma NewKeyNotInPrefix(r1: seq<Available>, r: seq<Available>, k: int)
    requires DistinctKeys(r) && |r1| <= k < |r| && r[..|r1|] == r1
    ensures KeyOf(r[k]) !in Keys(r1)
  {
    forall x | x in r1 ensures KeyOf(x) != KeyOf(r[k]) {
      var j :| 0 <= j < |r1| && r1[j] == x;
      assert r[..|r1|][j] == r[j];
    }
  }

  /** `addCustomService` as written. */
  function AddCustomServiceAsWritten(services: seq<ServiceChoice>, professions: seq<Especialidade>,
                                     available: seq<Available>, search: string): (r: seq<ServiceChoice>)
    ensures r == services || (|professions| > 0 && r == services + [ServiceChoice(Text.Trim(search), professions[0].id)])
  {
    if !Blank(search) && !ExistsInSearchAsWritten(AvailableNames(available), search) && |professions| > 0 then
      services + [ServiceChoice(Text.Trim(search), professions[0].id)]
    else services
  }

  /** Searching an offered service's name followed by a space (say "Escova ") creates a
      second service with that name under the first selected specialty. */
  lemma TrailingSpaceDuplicatesService(offered: Available, p: Especialidade)
    requires |offered.name| > 0 && !Text.IsSpace(offered.name[0]) && !Text.IsSpace(offered.name[|offered.name| - 1])
    ensures AddCustomServiceAsWritten([], [p], [offered], offered.name + " ") == [ServiceChoice(offered.name, p.id)]
  {
    var w := offered.name;
    Text.TrimTrailingSpace(w);
    assert AvailableNames([offered]) == [w];
    assert |Text.Lower(w)| != |Text.Lower(w + " ")|;
  }

  /** `addCustomService`, comparing the trimmed search text: the new service goes under
      the first selected specialty, and only when the search is not blank, there is a
      selected specialty, and no offered service already has that name, ignoring case. */
  function AddCustomService(services: seq<ServiceChoice>, professions: seq<Especialidade>,
                            available: seq<Available>, search: string): (r: seq<ServiceChoice>)
    ensures r == services || (|professions| > 0 && r == services + [ServiceChoice(Text.Trim(search), professions[0].id)])
    ensures r != services <==>
              && !Text.AllSpace(search) && |professions| > 0
              && forall a :: a in available ==> Text.Lower(a.name) != Text.Lower(Text.Trim(search))
  {
    Text.TrimEmptyIffAllSpace(search);
    var names := AvailableNames(available);
    assert forall a :: a in available ==> a.name in names by {
      forall a | a in available ensures a.name in names {
        var k :| 0 <= k < |available| && available[k] == a;
        assert names[k] == a.name;
      }
    }
    if !Blank(search) && !ExistsInSearch(names, search) && |professions| > 0 then
      services + [ServiceChoice(Text.Trim(search), professions[0].id)]
    else services
  }

  /** `selectAllServices`: exactly the offered (name, specialty) pairs, in order. */
  function SelectAllServices(available: seq<Available>): (r: seq<ServiceChoice>)
    ensures |r| == |available|
    ensures forall k :: 0 <= k < |r| ==> r[k] == ServiceChoice(available[k].name, available[k].professionId)
  {
    seq(|available|, k requires 0 <= k < |available| => ServiceChoice(available[k].name, available[k].professionId))
  }

  /** After choosing all, every offered service is chosen and nothing else is. */
  lemma SelectAllChoosesOffered(available: seq<Available>, name: string, professionId: string)
    ensures ServiceChoice(name, professionId) in SelectAllServices(available)
            <==> exists a :: a in available && a.name == name && a.professionId == professionId
  {
    var r := SelectAllServices(available);
    if ServiceChoice(name, professionId) in r {
      var k :| 0 <= k < |r| && r[k] == ServiceChoice(name, professionId);
      assert available[k] in available;
    }
    if exists a :: a in available && a.name == name && a.professionId == professionId {
      var a :| a in available && a.name == name && a.professionId == professionId;
      var k :| 0 <= k < |available| && available[k] == a;
      assert r[k] == ServiceChoice(name, professionId);
    }
  }

  /** `deselectAllServices`. */
  function DeselectAllServices(): (r: seq<ServiceChoice>)
    ensures |r| == 0
  {
    []
  }
}
