/** A business unit (a salon, a clinic) and the use case that edits it: each field given
    in the request is applied through the unit's own update operations, the referenced
    specialties, services and amenities must all exist, and the unit is written back. */
module Unit {
  import opened Wrappers
  import Text
  import Phone

  /** An address record, kept as its fields. */
  type Address = map<string, string>

  datatype Preferences = Preferences(palletColor: Option<string>)

  /** The stored form of a phone; building the phone value from it never fails. */
  datatype PhoneProps = PhoneProps(
    id: Option<string>, countryCode: string, areaCode: string, number: string,
    phoneLabel: Option<string>, isWhatsapp: Option<bool>, isVerified: Option<bool>)

  datatype UnitProps = UnitProps(
    id: string,
    orgId: string,
    name: string,
    active: bool,
    amenities: seq<string>,
    especialidades: seq<string>,
    services: seq<string>,
    gallery: seq<string>,
    logo: Option<string>,
    preferences: Preferences,
    serviceType: string,
    address: Option<Address>,
    phones: seq<Phone.Phone>)

  datatype UnitError =
    | EmptyName
    | UnitNotFound(id: string)
    | SpecialtiesNotFound
    | ServicesNotFound
    | AmenitiesNotFound

  function ToPhone(p: PhoneProps): (r: Phone.Phone)
    ensures r.areaCode == p.areaCode && r.number == p.number && r.countryCode == p.countryCode
    ensures r.isWhatsapp == p.isWhatsapp.GetOr(false) && r.isVerified == p.isVerified.GetOr(false)
  {
    Phone.MakePhone(Phone.Parts(p.countryCode, p.areaCode, p.number), p.id, p.phoneLabel, p.isWhatsapp, p.isVerified).value
  }

  function ToPhones(ps: seq<PhoneProps>): (r: seq<Phone.Phone>)
    ensures |r| == |ps| && forall k :: 0 <= k < |ps| ==> r[k] == ToPhone(ps[k])
  {
    seq(|ps|, k requires 0 <= k < |ps| => ToPhone(ps[k]))
  }

  /** A name is acceptable when it has a character that is not white space. */
  function NameOk(name: string): (b: bool)
    ensures b <==> !Text.AllSpace(name)
  {
    Text.TrimEmptyIffAllSpace(name);
    Text.Trim(name) != ""
  }

  class UnitEntity {
    var props: UnitProps
    /** When the unit was last changed (`touch`). */
    var updatedAt: int

    constructor Make(p: UnitProps, updatedAt: int)
      ensures props == p && this.updatedAt == updatedAt
    {
      props := p;
      this.updatedAt := updatedAt;
    }

    /** Rejects a blank name; the current name again changes nothing, not even the
        timestamp. */
    method UpdateName(newName: string, now: int) returns (r: Outcome<UnitError>)
      modifies this
      ensures r.Fail? <==> !NameOk(newName)
      ensures r.Fail? ==> r.error == EmptyName
      ensures r.Fail? || newName == old(props).name ==> props == old(props) && updatedAt == old(updatedAt)
      ensures r.Pass? && newName != old(props).name ==> props == old(props).(name := newName) && updatedAt == now
    {
      if Text.Trim(newName) == "" {
        return Fail(EmptyName);
      }
      r := Pass;
      if newName == props.name {
        return;
      }
      props := props.(name := newName);
      updatedAt := now;
    }

    method UpdateLogo(logo: string, now: int)
      modifies this
      ensures props == old(props).(logo := Some(logo)) && updatedAt == now
    {
      props := props.(logo := Some(logo));
      updatedAt := now;
    }

    method UpdateGallery(gallery: seq<string>, now: int)
      modifies this
      ensures props == old(props).(gallery := gallery) && updatedAt == now
    {
      props := props.(gallery := gallery);
      updatedAt := now;
    }

    method Activate(now: int)
      modifies this
      ensures props == old(props).(active := true) && updatedAt == now
    {
      props := props.(active := true);
      updatedAt := now;
    }

    method Deactivate(now: int)
      modifies this
      ensures props == old(props).(active := false) && updatedAt == now
    {
      props := props.(active := false);
      updatedAt := now;
    }

    method UpdatePhones(phones: seq<Phone.Phone>, now: int)
      modifies this
      ensures props == old(props).(phones := phones) && updatedAt == now
    {
      props := props.(phones := phones);
      updatedAt := now;
    }

    method UpdateAddress(address: Option<Address>, now: int)
      modifies this
      ensures props == old(props).(address := address) && updatedAt == now
    {
      props := props.(address := address);
      updatedAt := now;
    }

    method UpdateEspecialidades(ids: seq<string>, now: int)
      modifies this
      ensures props == old(props).(especialidades := ids) && updatedAt == now
    {
      props := props.(especialidades := ids);
      updatedAt := now;
    }

    method UpdateServices(ids: seq<string>, now: int)
      modifies this
      ensures props == old(props).(services := ids) && updatedAt == now
    {
      props := props.(services := ids);
      updatedAt := now;
    }

    method UpdateServiceType(serviceType: string, now: int)
      modifies this
      ensures props == old(props).(serviceType := serviceType) && updatedAt == now
    {
      props := props.(serviceType := serviceType);
      updatedAt := now;
    }

    method UpdateAmenities(ids: seq<string>, now: int)
      modifies this
      ensures props == old(props).(amenities := ids) && updatedAt == now
    {
      props := props.(amenities := ids);
      updatedAt := now;
    }

    method UpdatePreferences(preferences: Preferences, now: int)
      modifies this
      ensures props == old(props).(preferences := preferences) && updatedAt == now
    {
      props := props.(preferences := preferences);
      updatedAt := now;
    }
  }

  /** A new unit is active unless told otherwise and has empty preferences unless given;
      an empty logo is no logo. */
  function NewUnit(id: string, orgId: string, name: string, active: Option<bool>, amenities: seq<string>,
                   especialidades: seq<string>, services: seq<string>, gallery: seq<string>,
                   logo: Option<string>, preferences: Option<Preferences>, serviceType: string,
                   address: Option<Address>, phones: seq<PhoneProps>): (u: UnitProps)
    ensures u.active == active.GetOr(true)
    ensures u.preferences == preferences.GetOr(Preferences(None))
    ensures u.logo.Some? <==> logo.Some? && logo.value != ""
    ensures |u.phones| == |phones|
  {
    UnitProps(id, orgId, name, active.GetOr(true), amenities, especialidades, services, gallery,
              if logo.Some? && logo.value != "" then logo else None,
              preferences.GetOr(Preferences(None)), serviceType, address, ToPhones(phones))
  }

  /** The edit request: `None` leaves a field alone. `address` distinguishes leaving it
      alone (`None`) from clearing it (`Some(None)`). */
  datatype UpdateInput = UpdateInput(
    id: string,
    name: Option<string>,
    preferences: Option<Preferences>,
    logo: Option<string>,
    gallery: Option<seq<string>>,
    active: Option<bool>,
    phones: Option<seq<PhoneProps>>,
    address: Option<Option<Address>>,
    especialidades: Option<seq<string>>,
    services: Option<seq<string>>,
    serviceType: Option<string>,
    amenities: Option<seq<string>>)

  /** `find_many_by_id` of each catalogue: the ids of the records found. */
  datatype Catalogues = Catalogues(
    findSpecialties: seq<string> -> seq<string>,
    findServices: seq<string> -> seq<string>,
    findAmenities: seq<string> -> seq<string>)

  predicate AllFound(ids: Option<seq<string>>, find: seq<string> -> seq<string>) {
    ids.None? || |find(ids.value)| == |ids.value|
  }

  function Found(ids: Option<seq<string>>, find: seq<string> -> seq<string>, current: seq<string>): seq<string> {
    if ids.Some? then find(ids.value) else current
  }

  /** The plain fields of the request applied: preferences, logo and gallery, then the
      active flag, phones and address. */
  function ApplyPlain(p: UnitProps, input: UpdateInput): UnitProps {
    ApplyContact(ApplyLook(p, input), input)
  }

  /** Preferences, logo and gallery. */
  function ApplyLook(p: UnitProps, input: UpdateInput): UnitProps {
    p.(preferences := input.preferences.GetOr(p.preferences),
       logo := if input.logo.Some? then input.logo else p.logo,
       gallery := input.gallery.GetOr(p.gallery))
  }

  /** The active flag, phones and address. */
  function ApplyContact(p: UnitProps, input: UpdateInput): UnitProps {
    p.(active := input.active.GetOr(p.active),
       phones := if input.phones.Some? then ToPhones(input.phones.value) else p.phones,
       address := input.address.GetOr(p.address))
  }

  predicate TouchesPlain(input: UpdateInput) {
    TouchesLook(input) || TouchesContact(input)
  }

  predicate TouchesLook(input: UpdateInput) {
    input.preferences.Some? || input.logo.Some? || input.gallery.Some?
  }

  predicate TouchesContact(input: UpdateInput) {
    input.active.Some? || input.phones.Some? || input.address.Some?
  }

  /** The catalogue fields applied: the records found for specialties, services and
      amenities, and the service type. */
  function ApplyCatalogues(p: UnitProps, input: UpdateInput, cat: Catalogues): UnitProps {
    p.(especialidades := Found(input.especialidades, cat.findSpecialties, p.especialidades),
       services := Found(input.services, cat.findServices, p.services),
       serviceType := input.serviceType.GetOr(p.serviceType),
       amenities := Found(input.amenities, cat.findAmenities, p.amenities))
  }

  predicate TouchesCatalogues(input: UpdateInput) {
    input.especialidades.Some? || input.services.Some? || input.serviceType.Some? || input.amenities.Some?
  }

  /** The first failing check of the catalogue steps, in `execute`'s order. */
  function CatalogueCheck(input: UpdateInput, cat: Catalogues): Outcome<UnitError> {
    if !AllFound(input.especialidades, cat.findSpecialties) then Fail(SpecialtiesNotFound)
    else if !AllFound(input.services, cat.findServices) then Fail(ServicesNotFound)
    else if !AllFound(input.amenities, cat.findAmenities) then Fail(AmenitiesNotFound)
    else Pass
  }

  /** The unit after the request, or the first error: a blank name, then a missing
      specialty, service or amenity. */
  function Apply(p: UnitProps, input: UpdateInput, cat: Catalogues): (r: Result<UnitProps, UnitError>)
  {
    if input.name.Some? && !NameOk(input.name.value) then Failure(EmptyName)
    else if CatalogueCheck(input, cat).Fail? then Failure(CatalogueCheck(input, cat).error)
    else Success(ApplyCatalogues(ApplyPlain(p.(name := input.name.GetOr(p.name)), input), input, cat))
  }

  /** Whether the request changes the timestamp: any field given except a name equal to
      the current one. */
  predicate Touches(p: UnitProps, input: UpdateInput) {
    (input.name.Some? && input.name.value != p.name) || TouchesPlain(input) || TouchesCatalogues(input)
  }

  /** An empty request changes nothing; every field not given keeps its value and every
      field given takes the request's value (the records the catalogue found, for the
      specialties, services and amenities). */
  lemma ApplySpec(p: UnitProps, input: UpdateInput, cat: Catalogues)
    ensures input == UpdateInput(input.id, None, None, None, None, None, None, None, None, None, None, None)
            ==> Apply(p, input, cat) == Success(p) && !Touches(p, input)
    ensures Apply(p, input, cat).Success? ==>
              var q := Apply(p, input, cat).value;
              q.id == p.id && q.orgId == p.orgId
              && q.name == input.name.GetOr(p.name)
              && q.preferences == input.preferences.GetOr(p.preferences)
              && (input.logo.None? ==> q.logo == p.logo)
              && (input.logo.Some? ==> q.logo == input.logo)
              && q.gallery == input.gallery.GetOr(p.gallery)
              && q.active == input.active.GetOr(p.active)
              && (input.phones.None? ==> q.phones == p.phones)
              && (input.phones.Some? ==> q.phones == ToPhones(input.phones.value))
              && q.address == input.address.GetOr(p.address)
              && (input.especialidades.None? ==> q.especialidades == p.especialidades)
              && (input.especialidades.Some? ==> q.especialidades == cat.findSpecialties(input.especialidades.value))
              && (input.services.None? ==> q.services == p.services)
              && (input.services.Some? ==> q.services == cat.findServices(input.services.value))
              && q.serviceType == input.serviceType.GetOr(p.serviceType)
              && (input.amenities.None? ==> q.amenities == p.amenities)
              && (input.amenities.Some? ==> q.amenities == cat.findAmenities(input.amenities.value))
    ensures input.name.Some? && Text.AllSpace(input.name.value) ==> Apply(p, input, cat) == Failure(EmptyName)
  {
    if input.name.Some? {
      Text.TrimEmptyIffAllSpace(input.name.value);
    }
  }

  /** No name is given, or the one given has a character that is not white space. */
  predicate NameAccepted(input: UpdateInput) {
    input.name.None? || !Text.AllSpace(input.name.value)
  }

  /** The request is rejected by its first failing step, in `execute`'s order: a blank
      name, then specialties, services and amenities the catalogue does not all find;
      with none of these it succeeds. */
  lemma ApplyRejections(p: UnitProps, input: UpdateInput, cat: Catalogues)
    ensures input.name.Some? && Text.AllSpace(input.name.value) ==> Apply(p, input, cat) == Failure(EmptyName)
    ensures NameAccepted(input) && !AllFound(input.especialidades, cat.findSpecialties) ==>
              Apply(p, input, cat) == Failure(SpecialtiesNotFound)
    ensures NameAccepted(input) && AllFound(input.especialidades, cat.findSpecialties) && !AllFound(input.services, cat.findServices) ==>
              Apply(p, input, cat) == Failure(ServicesNotFound)
    ensures NameAccepted(input) && AllFound(input.especialidades, cat.findSpecialties) && AllFound(input.services, cat.findServices)
            && !AllFound(input.amenities, cat.findAmenities) ==>
              Apply(p, input, cat) == Failure(AmenitiesNotFound)
    ensures NameAccepted(input) && AllFound(input.especialidades, cat.findSpecialties) && AllFound(input.services, cat.findServices)
            && AllFound(input.amenities, cat.findAmenities) ==>
              Apply(p, input, cat).Success?
  {
    if input.name.Some? {
      Text.TrimEmptyIffAllSpace(input.name.value);
    }
  }

  /** The stored units, with their timestamps. */
  datatype StoredUnit = StoredUnit(props: UnitProps, updatedAt: int)

  class UnitStore {
    var units: map<string, StoredUnit>

    constructor ()
      ensures units == map[]
    {
      units := map[];
    }
  }

  /** The edit use case: an unknown id fails before anything else; otherwise each given
      field is applied in `execute`'s order and, when all succeed, the unit is written
      back. A failing step leaves the store as it was. */
  method UpdateUnit(store: UnitStore, input: UpdateInput, cat: Catalogues, now: int)
    returns (r: Result<UnitProps, UnitError>)
    modifies store
    ensures input.id !in old(store.units) ==> r == Failure(UnitNotFound(input.id)) && store.units == old(store.units)
    ensures input.id in old(store.units) ==>
              var before := old(store.units)[input.id];
              r == Apply(before.props, input, cat)
              && (r.Failure? ==> store.units == old(store.units))
              && (r.Success? ==> store.units == old(store.units)[input.id :=
                                   StoredUnit(r.value, if Touches(before.props, input) then now else before.updatedAt)])
  {
    if input.id !in store.units {
      return Failure(UnitNotFound(input.id));
    }
    var stored := store.units[input.id];
    var unit := new UnitEntity.Make(stored.props, stored.updatedAt);
    if input.name.Some? {
      var o := unit.UpdateName(input.name.value, now);
      if o.Fail? {
        return Failure(o.error);
      }
    }
    ghost var named, namedAt := unit.props, unit.updatedAt;
    assert named == stored.props.(name := input.name.GetOr(stored.props.name));
    assert namedAt == if input.name.Some? && input.name.value != stored.props.name then now else stored.updatedAt;
    ApplyPlainFields(unit, input, now);
    var o := ApplyCatalogueFields(unit, input, cat, now);
    if o.Fail? {
      return Failure(o.error);
    }
    StepsCompose(stored.props, input, cat);
    store.units := store.units[input.id := StoredUnit(unit.props, unit.updatedAt)];
    r := Success(unit.props);
  }

  /** Applying the name, then the plain fields, then the catalogues is `Apply`, and the
      timestamp moves exactly when one of the steps changes something. */
  lemma StepsCompose(p: UnitProps, input: UpdateInput, cat: Catalogues)
    requires input.name.None? || NameOk(input.name.value)
    requires CatalogueCheck(input, cat).Pass?
    ensures Apply(p, input, cat)
         == Success(ApplyCatalogues(ApplyPlain(p.(name := input.name.GetOr(p.name)), input), input, cat))
    ensures Touches(p, input)
        <==> (input.name.Some? && input.name.value != p.name) || TouchesPlain(input) || TouchesCatalogues(input)
  {
  }

  /** The plain steps of the use case, in `execute`'s order. */
  method ApplyPlainFields(unit: UnitEntity, input: UpdateInput, now: int)
    modifies unit
    ensures unit.props == ApplyPlain(old(unit.props), input)
    ensures unit.updatedAt == if TouchesPlain(input) then now else old(unit.updatedAt)
  {
    ApplyLookFields(unit, input, now);
    ApplyContactFields(unit, input, now);
  }

  /** Preferences, logo and gallery, each through the unit's own update. */
  method ApplyLookFields(unit: UnitEntity, input: UpdateInput, now: int)
    modifies unit
    ensures unit.props == ApplyLook(old(unit.props), input)
    ensures unit.updatedAt == if TouchesLook(input) then now else old(unit.updatedAt)
  {
    if input.preferences.Some? {
      unit.UpdatePreferences(input.preferences.value, now);
    }
    if input.logo.Some? {
      unit.UpdateLogo(input.logo.value, now);
    }
    if input.gallery.Some? {
      unit.UpdateGallery(input.gallery.value, now);
    }
  }

  /** The active flag, phones and address, each through the unit's own update. */
  method ApplyContactFields(unit: UnitEntity, input: UpdateInput, now: int)
    modifies unit
    ensures unit.props == ApplyContact(old(unit.props), input)
    ensures unit.updatedAt == if TouchesContact(input) then now else old(unit.updatedAt)
  {
    if input.active.Some? {
      if input.active.value {
        unit.Activate(now);
      } else {
        unit.Deactivate(now);
      }
    }
    if input.phones.Some? {
      unit.UpdatePhones(ToPhones(input.phones.value), now);
    }
    if input.address.Some? {
      unit.UpdateAddress(input.address.value, now);
    }
  }

  /** The catalogue steps: each list of ids is looked up and must be found in full. */
  method ApplyCatalogueFields(unit: UnitEntity, input: UpdateInput, cat: Catalogues, now: int)
    returns (r: Outcome<UnitError>)
    modifies unit
    ensures r == CatalogueCheck(input, cat)
    ensures r.Pass? ==> unit.props == ApplyCatalogues(old(unit.props), input, cat)
                        && unit.updatedAt == if TouchesCatalogues(input) then now else old(unit.updatedAt)
  {
    if input.especialidades.Some? {
      var specialties := cat.findSpecialties(input.especialidades.value);
      if |specialties| != |input.especialidades.value| {
        return Fail(SpecialtiesNotFound);
      }
      unit.UpdateEspecialidades(specialties, now);
    }
    if input.services.Some? {
      var services := cat.findServices(input.services.value);
      if |services| != |input.services.value| {
        return Fail(ServicesNotFound);
      }
      unit.UpdateServices(services, now);
    }
    if input.serviceType.Some? {
      unit.UpdateServiceType(input.serviceType.value, now);
    }
    if input.amenities.Some? {
      var amenities := cat.findAmenities(input.amenities.value);
      if |amenities| != |input.amenities.value| {
        return Fail(AmenitiesNotFound);
      }
      unit.UpdateAmenities(amenities, now);
    }
    r := Pass;
  }
}
