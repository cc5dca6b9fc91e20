/** The specialties step of the new-unit form: the specialties offered (the catalogue's
    and any custom ones) and the services chosen for each. Every handler builds new
    lists and hands them back to the form. */
module NewUnitSpecialties {
  import Seqs
  import Text
  import opened Professions

  /** A chosen service: its name and the specialty it is offered under. */
  datatype ServiceChoice = ServiceChoice(name: string, professionId: string)

  /** The part of the form this step edits. */
  datatype Choices = Choices(professions: seq<Especialidade>, services: seq<ServiceChoice>)

  predicate HasId(ps: seq<Especialidade>, id: string) {
    exists q :: q in ps && q.id == id
  }

  /** `allProfessions`: the catalogue's specialties, then the selected ones whose id is
      not the catalogue's. */
  function AllProfessions(defaults: seq<Especialidade>, selected: seq<Especialidade>): (r: seq<Especialidade>)
    ensures |defaults| <= |r| && r[..|defaults|] == defaults
    ensures forall p :: p in r[|defaults|..] <==> p in selected && !HasId(defaults, p.id)
    ensures forall p :: p in selected ==> HasId(r, p.id)
  {
    var custom := Seqs.Filter(selected, (p: Especialidade) => !HasId(defaults, p.id));
    var r := defaults + custom;
    assert r[|defaults|..] == custom;
    assert forall p :: p in defaults ==> r[..|defaults|] == defaults && p in r;
    r
  }

  /** A service of the catalogue as it is chosen under a specialty. */
  function Entries(catalogue: seq<Service>, professionId: string): (r: seq<ServiceChoice>)
    ensures |r| == |catalogue|
    ensures forall k :: 0 <= k < |r| ==> r[k] == ServiceChoice(catalogue[k].name, professionId)
  {
    seq(|catalogue|, k requires 0 <= k < |catalogue| => ServiceChoice(catalogue[k].name, professionId))
  }

  /** `toggleProfession`: a selected specialty is removed together with every service
      chosen under it; an unselected one is added together with all its catalogue
      services. */
  function ToggleProfession(c: Choices, p: Especialidade, catalogue: seq<Service>): (r: Choices)
    ensures HasId(c.professions, p.id) <==> !HasId(r.professions, p.id)
    ensures HasId(c.professions, p.id) ==>
              && (forall q :: q in r.professions <==> q in c.professions && q.id != p.id)
              && (forall s :: s in r.services <==> s in c.services && s.professionId != p.id)
    ensures !HasId(c.professions, p.id) ==>
              && r.professions == c.professions + [p]
              && r.services == c.services + Entries(ServicesOf(catalogue, p.id), p.id)
  {
    if HasId(c.professions, p.id) then
      var ps := Seqs.Filter(c.professions, (q: Especialidade) => q.id != p.id);
      Choices(ps, Seqs.Filter(c.services, (s: ServiceChoice) => s.professionId != p.id))
    else
      var r := Choices(c.professions + [p], c.services + Entries(ServicesOf(catalogue, p.id), p.id));
      assert p in r.professions;
      r
  }

  /** Adding a specialty that nothing refers to and removing it again restores the
      choices. */
  lemma ToggleProfessionTwice(c: Choices, p: Especialidade, catalogue: seq<Service>)
    requires !HasId(c.professions, p.id)
    requires forall s :: s in c.services ==> s.professionId != p.id
    ensures ToggleProfession(ToggleProfession(c, p, catalogue), p, catalogue) == c
  {
    var entries := Entries(ServicesOf(catalogue, p.id), p.id);
    var keepP := (q: Especialidade) => q.id != p.id;
    var keepS := (s: ServiceChoice) => s.professionId != p.id;
    Seqs.FilterAppend(c.professions, [p], keepP);
    Seqs.FilterAll(c.professions, keepP);
    assert Seqs.Filter([p], keepP) == [];
    Seqs.FilterAppend(c.services, entries, keepS);
    Seqs.FilterAll(c.services, keepS);
    Seqs.FilterNone(entries, keepS);
  }

  /** `toggleService`: the first matching choice is taken out, or the choice is added at
      the end. */
  function ToggleService(services: seq<ServiceChoice>, name: string, professionId: string): (r: seq<ServiceChoice>)
    ensures ServiceChoice(name, professionId) !in services ==> r == services + [ServiceChoice(name, professionId)]
    ensures ServiceChoice(name, professionId) in services ==>
              exists i :: 0 <= i < |services| && services[i] == ServiceChoice(name, professionId)
                          && (forall k :: 0 <= k < i ==> services[k] != ServiceChoice(name, professionId))
                          && r == services[..i] + services[i + 1..]
  {
    var choice := ServiceChoice(name, professionId);
    var i := Seqs.IndexOf(services, choice);
    if i >= 0 then
      services[..i] + services[i + 1..]
    else
      services + [choice]
  }

  /** Unchoosing a chosen service removes one occurrence of it and nothing else. */
  lemma ToggleServiceRemovesOne(services: seq<ServiceChoice>, name: string, professionId: string)
    requires ServiceChoice(name, professionId) in services
    ensures multiset(ToggleService(services, name, professionId))
         == multiset(services) - multiset{ServiceChoice(name, professionId)}
  {
    var i :| 0 <= i < |services| && services[i] == ServiceChoice(name, professionId)
             && ToggleService(services, name, professionId) == services[..i] + services[i + 1..];
    assert services == services[..i] + [services[i]] + services[i + 1..];
  }

  /** Choosing a service that was not chosen and then unchoosing it restores the list. */
  lemma ToggleServiceTwice(services: seq<ServiceChoice>, name: string, professionId: string)
    requires ServiceChoice(name, professionId) !in services
    ensures ToggleService(ToggleService(services, name, professionId), name, professionId) == services
  {
    var choice := ServiceChoice(name, professionId);
    var once := services + [choice];
    assert forall k :: 0 <= k < |services| ==> once[k] != choice;
    var i :| 0 <= i < |once| && once[i] == choice
             && ToggleService(once, name, professionId) == once[..i] + once[i + 1..];
    assert once[..|services|] == services;
  }

  /** `addCustomService`: a non-blank name (trimmed) under a chosen specialty, added
      unless that exact choice is already there. */
  function AddCustomService(services: seq<ServiceChoice>, newName: string, professionId: string): (r: seq<ServiceChoice>)
    ensures r == services || r == services + [ServiceChoice(Text.Trim(newName), professionId)]
    ensures r != services <==>
              !Text.AllSpace(newName) && professionId != ""
              && ServiceChoice(Text.Trim(newName), professionId) !in services
    ensures Seqs.NoDuplicates(services) ==> Seqs.NoDuplicates(r)
  {
    Text.TrimEmptyIffAllSpace(newName);
    var choice := ServiceChoice(Text.Trim(newName), professionId);
    if Text.Trim(newName) != "" && professionId != "" && choice !in services then services + [choice]
    else services
  }

  /** `addCustomSpecialty`: a non-blank name (trimmed) becomes a new specialty whose id
      is "custom-" followed by the current time in milliseconds. */
  function AddCustomSpecialty(professions: seq<Especialidade>, newName: string, now: nat): (r: seq<Especialidade>)
    ensures r == professions <==> Text.AllSpace(newName)
    ensures r != professions ==>
              r == professions + [Especialidade("custom-" + Text.NatToString(now), Text.Trim(newName), "✨")]
  {
    Text.TrimEmptyIffAllSpace(newName);
    if Text.Trim(newName) != "" then
      professions + [Especialidade("custom-" + Text.NatToString(now), Text.Trim(newName), "✨")]
    else professions
  }

  function Names(ss: seq<Service>): (r: seq<string>)
    ensures |r| == |ss| && forall k :: 0 <= k < |ss| ==> r[k] == ss[k].name
  {
    seq(|ss|, k requires 0 <= k < |ss| => ss[k].name)
  }

  /** The services listed under a specialty: its catalogue services' names first, then
      the names chosen under it that the catalogue does not have, each name once. */
  function ServicesForProfession(catalogue: seq<Service>, services: seq<ServiceChoice>, professionId: string): (r: seq<string>)
    ensures Seqs.NoDuplicates(r)
    ensures var defaults := Names(ServicesOf(catalogue, professionId));
            && (forall n :: n in r <==> n in defaults || ServiceChoice(n, professionId) in services)
            && |Seqs.Dedupe(defaults)| <= |r| && r[..|Seqs.Dedupe(defaults)|] == Seqs.Dedupe(defaults)
  {
    var defaults := Names(ServicesOf(catalogue, professionId));
    var mine := Seqs.Filter(services, (s: ServiceChoice) => s.professionId == professionId && s.name !in defaults);
    var custom := seq(|mine|, k requires 0 <= k < |mine| => mine[k].name);
    Seqs.DedupePrefix(defaults, custom);
    assert forall n :: n in custom <==> ServiceChoice(n, professionId) in mine by {
      forall n ensures n in custom <==> ServiceChoice(n, professionId) in mine {
        if n in custom {
          var k :| 0 <= k < |custom| && custom[k] == n;
          assert mine[k] in mine;
        }
        if ServiceChoice(n, professionId) in mine {
          var k :| 0 <= k < |mine| && mine[k] == ServiceChoice(n, professionId);
          assert custom[k] == n;
        }
      }
    }
    Seqs.Dedupe(defaults + custom)
  }

  /** `isServiceSelected`: some choice has the name under the specialty. */
  function IsServiceSelected(c: Choices, name: string, professionId: string): (b: bool)
    ensures b <==> exists k :: 0 <= k < |c.services| && c.services[k].name == name && c.services[k].professionId == professionId
  {
    ServiceChoice(name, professionId) in c.services
  }

  /** `isValid`: at least one specialty and at least one service. */
  function IsValid(c: Choices): (b: bool)
    ensures b <==> c.professions != [] && c.services != []
  {
    |c.professions| > 0 && |c.services| > 0
  }
}
