/** The onboarding progress store: one record per user, kept for 24 hours through the
    storage gateway under "belezeiro_onboarding_user_<id>", merged field by field on
    every save. The clock is a parameter. */
module OnboardingPersistence {
  import opened Wrappers
  import Text
  import Numbers
  import G = StorageGateway

  /** 24 hours, in milliseconds. */
  const OnboardingTtl: int := 24 * 60 * 60 * 1000

  const OnboardingStoragePrefix: string := "belezeiro_onboarding_"

  /** A value of the form: text, a flag, null, a list or a nested object. */
  datatype FormValue =
    | Str(s: string)
    | Flag(b: bool)
    | Null
    | List(items: seq<FormValue>)
    | Object(fields: map<string, FormValue>)

  /** The form, by field name. */
  type FormData = map<string, FormValue>

  datatype OnboardingPersistedData = OnboardingPersistedData(
    currentStep: int,
    formData: FormData,
    lastUpdatedAt: int,
    startedAt: int)

  /** `Partial<OnboardingPersistedData>` as far as `save` reads it. */
  datatype Patch = Patch(currentStep: Option<int>, formData: Option<FormData>)

  datatype Metadata = Metadata(expiresAt: int, remainingTime: int, remainingTimeFormatted: string,
                               startedAt: int, lastUpdatedAt: int)

  function Hours(open: string, close: string, enabled: bool): FormValue {
    Object(map["open" := Str(open), "close" := Str(close), "enabled" := Flag(enabled)])
  }

  /** `getDefaultFormData`. */
  const DefaultFormData: FormData := map[
    "businessName" := Str(""), "unitName" := Str(""), "logo" := Null, "gallery" := List([]),
    "whatsapp" := Str(""), "phone" := Str(""), "cep" := Str(""), "street" := Str(""),
    "neighborhood" := Str(""), "city" := Str(""), "state" := Str(""), "number" := Str(""),
    "complement" := Str(""), "professions" := List([]), "services" := List([]),
    "serviceType" := Null, "amenities" := List([]),
    "workingHours" := Object(map[
      "monday" := Hours("09:00", "18:00", true), "tuesday" := Hours("09:00", "18:00", true),
      "wednesday" := Hours("09:00", "18:00", true), "thursday" := Hours("09:00", "18:00", true),
      "friday" := Hours("09:00", "18:00", true), "saturday" := Hours("09:00", "13:00", true),
      "sunday" := Hours("09:00", "18:00", false)]),
    "lunchBreak" := Object(map["enabled" := Flag(false), "start" := Str("12:00"), "end" := Str("13:00")]),
    "brandColor" := Str("#3b82f6")]

  /** `getUserKey`. */
  function UserKey(userId: string): (k: string)
    ensures Text.IsPrefix("user_", k) && k[5..] == userId
  {
    assert ("user_" + userId)[..5] == "user_";
    "user_" + userId
  }

  /** Different users never share a key. */
  lemma UserKeyInjective(a: string, b: string)
    requires UserKey(a) == UserKey(b)
    ensures a == b
  {
    assert a == UserKey(a)[5..];
  }

  /** The record `save` writes: the step from the patch, else the stored one, else 1; the
      stored (or default) form overlaid with the patch's fields; the original start; the
      update instant `now`. */
  function Merge(existing: Option<OnboardingPersistedData>, patch: Patch, now: int): (d: OnboardingPersistedData)
    ensures d.currentStep == (if patch.currentStep.Some? then patch.currentStep.value
                              else if existing.Some? then existing.value.currentStep else 1)
    ensures d.startedAt == (if existing.Some? then existing.value.startedAt else now)
    ensures d.lastUpdatedAt == now
    ensures var base := if existing.Some? then existing.value.formData else DefaultFormData;
            var over := patch.formData.GetOr(map[]);
            d.formData.Keys == base.Keys + over.Keys
            && (forall k :: k in over ==> d.formData[k] == over[k])
            && (forall k :: k in base && k !in over ==> d.formData[k] == base[k])
  {
    var base := match existing case Some(e) => e.formData case None => DefaultFormData;
    OnboardingPersistedData(
      match patch.currentStep case Some(s) => s case None => (match existing case Some(e) => e.currentStep case None => 1),
      base + patch.formData.GetOr(map[]),
      now,
      match existing case Some(e) => e.startedAt case None => now)
  }

  /** Saving only a step changes only the step (and the update instant). */
  lemma SaveStepChangesOnlyStep(existing: OnboardingPersistedData, step: int, now: int)
    ensures Merge(Some(existing), Patch(Some(step), None), now)
         == existing.(currentStep := step, lastUpdatedAt := now)
  {
    var d := Merge(Some(existing), Patch(Some(step), None), now);
    assert d.formData == existing.formData;
  }

  /** Saving the form with the stored form already overlaid gives that overlay. */
  lemma SaveFormDataOverlays(existing: Option<OnboardingPersistedData>, fields: FormData, now: int)
    ensures var base := if existing.Some? then existing.value.formData else DefaultFormData;
            Merge(existing, Patch(None, Some(base + fields)), now).formData == base + fields
  {
    var base := if existing.Some? then existing.value.formData else DefaultFormData;
    assert base + (base + fields) == base + fields;
  }

  /** `formatRemainingTime`: whole hours and the whole minutes left over ("Hh Mmin"), or
      only the minutes ("Mmin") when less than an hour remains. For time that has not run
      out these are the hours and minutes of a clock: M stays below 60. */
  function FormatRemainingTime(ms: int): (r: string)
    ensures ms >= 0 ==>
              var h := ms / 3600000;
              var m := (ms - h * 3600000) / 60000;
              0 <= m < 60
              && r == if h > 0 then Text.NatToString(h) + "h " + Text.NatToString(m) + "min"
                      else Text.NatToString(ms / 60000) + "min"
  {
    var hours := Numbers.FloorDiv(ms, 1000 * 60 * 60);
    var minutes := Numbers.FloorDiv(Numbers.JsRem(ms, 1000 * 60 * 60), 1000 * 60);
    assert ms >= 0 ==> ms % 3600000 == ms - (ms / 3600000) * 3600000 && (ms / 3600000 == 0 ==> ms % 3600000 == ms);
    if hours > 0 then Text.IntToString(hours) + "h " + Text.IntToString(minutes) + "min"
    else Text.IntToString(minutes) + "min"
  }

  class OnboardingPersistenceService {
    const gateway: G.StorageGateway<OnboardingPersistedData>

    /** A gateway with the onboarding lifetime and prefix, swept of expired entries. */
    constructor (storage: map<string, G.Entry<OnboardingPersistedData>>, now: int)
      ensures fresh(gateway)
      ensures gateway.ttl == OnboardingTtl && gateway.prefix == OnboardingStoragePrefix
      ensures gateway.storage == G.WithoutStale(storage, OnboardingStoragePrefix, now)
    {
      var g := new G.StorageGateway(Some(OnboardingTtl), Some(OnboardingStoragePrefix), storage);
      var _ := g.CleanupExpired(now);
      gateway := g;
    }

    function Full(userId: string): string
      reads this
    {
      G.FullKey(gateway.prefix, UserKey(userId))
    }

    /** `get`. */
    method Get(userId: string, now: int) returns (r: Option<OnboardingPersistedData>)
      modifies gateway
      ensures r == G.LiveIn(old(gateway.storage), Full(userId), now)
      ensures gateway.storage == G.Cleared(old(gateway.storage), Full(userId), now)
    {
      r := gateway.Get(UserKey(userId), now);
    }

    /** `save`: merges the patch into the live record (or the defaults) and writes it. */
    method Save(userId: string, patch: Patch, now: int) returns (ok: bool)
      modifies gateway
      ensures ok
      ensures var cleared := G.Cleared(old(gateway.storage), Full(userId), now);
              gateway.storage
              == G.Saved(cleared, Full(userId), Merge(G.LiveIn(old(gateway.storage), Full(userId), now), patch, now),
                         gateway.ttl, now)
    {
      var existing := Get(userId, now);
      ok := gateway.Save(UserKey(userId), Merge(existing, patch, now), now);
    }

    /** `saveStep`. */
    method SaveStep(userId: string, step: int, now: int) returns (ok: bool)
      modifies gateway
      ensures ok
      ensures var cleared := G.Cleared(old(gateway.storage), Full(userId), now);
              gateway.storage
              == G.Saved(cleared, Full(userId),
                         Merge(G.LiveIn(old(gateway.storage), Full(userId), now), Patch(Some(step), None), now),
                         gateway.ttl, now)
    {
      ok := Save(userId, Patch(Some(step), None), now);
    }

    /** `saveFormData`: overlays the fields on the live (or default) form and saves that. */
    method SaveFormData(userId: string, fields: FormData, now: int) returns (ok: bool)
      modifies gateway
      ensures ok
      ensures var live := G.LiveIn(old(gateway.storage), Full(userId), now);
              var base := if live.Some? then live.value.formData else DefaultFormData;
              gateway.storage
              == G.Saved(G.Cleared(old(gateway.storage), Full(userId), now), Full(userId),
                         Merge(live, Patch(None, Some(base + fields)), now), gateway.ttl, now)
    {
      var existing := Get(userId, now);
      var base := match existing case Some(e) => e.formData case None => DefaultFormData;
      ok := Save(userId, Patch(None, Some(base + fields)), now);
    }

    /** `getWithMetadata`: the live record with its expiry, the time left and the time
      left as text. */
    method GetWithMetadata(userId: string, now: int) returns (r: Option<(OnboardingPersistedData, Metadata)>)
      modifies gateway
      ensures r.Some? <==> G.LiveIn(old(gateway.storage), Full(userId), now).Some?
      ensures r.Some? ==>
                var item := G.RawItemIn(old(gateway.storage), Full(userId)).value;
                r.value.0 == item.data
                && r.value.1 == Metadata(item.expiresAt, item.expiresAt - now, FormatRemainingTime(item.expiresAt - now),
                                         item.data.startedAt, item.data.lastUpdatedAt)
      ensures gateway.storage == G.Cleared(old(gateway.storage), Full(userId), now)
    {
      ghost var before := G.RawItemIn(gateway.storage, Full(userId));
      var result := gateway.GetWithMetadata(UserKey(userId), now);
      if result.None? {
        return None;
      }
      var res := result.value;
      assert res.data == before.value.data && res.expiresAt == before.value.expiresAt;
      var left := res.remainingTime;
      r := Some((res.data, Metadata(res.expiresAt, left, FormatRemainingTime(left),
                                    res.data.startedAt, res.data.lastUpdatedAt)));
    }

    /** `clear`: removes the user's record. */
    method Clear(userId: string) returns (ok: bool)
      modifies gateway
      ensures ok && gateway.storage == old(gateway.storage) - {Full(userId)}
    {
      ok := gateway.Remove(UserKey(userId));
    }

    /** `exists`: whether `get` finds a live record. */
    method Exists(userId: string, now: int) returns (b: bool)
      modifies gateway
      ensures b <==> G.LiveIn(old(gateway.storage), Full(userId), now).Some?
      ensures gateway.storage == G.Cleared(old(gateway.storage), Full(userId), now)
    {
      b := gateway.Exists(UserKey(userId), now);
    }

    /** `refreshTTL`: a live record is written again, its lifetime restarting at `now`. */
    method RefreshTtl(userId: string, now: int) returns (ok: bool)
      modifies gateway
      ensures ok <==> G.LiveIn(old(gateway.storage), Full(userId), now).Some?
      ensures ok ==> gateway.storage
                     == G.Saved(old(gateway.storage), Full(userId),
                                G.LiveIn(old(gateway.storage), Full(userId), now).value, gateway.ttl, now)
      ensures !ok ==> gateway.storage == G.Cleared(old(gateway.storage), Full(userId), now)
    {
      ok := gateway.RefreshTtl(UserKey(userId), now);
    }

    /** `getRemainingTime`. */
    function GetRemainingTime(userId: string, now: int): (r: Option<int>)
      reads this, gateway
      ensures r.None? <==> G.LiveIn(gateway.storage, Full(userId), now).None?
      ensures r.Some? ==> r.value >= 0 && r.value == G.RawItemIn(gateway.storage, Full(userId)).value.expiresAt - now
    {
      gateway.GetRemainingTime(UserKey(userId), now)
    }

    /** `cleanupExpired`: removes every expired onboarding record and counts them. */
    method CleanupExpired(now: int) returns (count: nat)
      modifies gateway
      ensures gateway.storage == G.WithoutStale(old(gateway.storage), gateway.prefix, now)
      ensures count == |G.StaleKeys(old(gateway.storage), gateway.prefix, now)|
    {
      count := gateway.CleanupExpired(now);
    }
  }

  /** Whatever was stored, right after `save` the user's record reads back as the merge,
      for the whole lifetime. */
  lemma SaveThenGet(st: map<string, G.Entry<OnboardingPersistedData>>, full: string, patch: Patch, now: int, t: int)
    requires now <= t <= now + OnboardingTtl
    ensures var merged := Merge(G.LiveIn(st, full, now), patch, now);
            G.LiveIn(G.Saved(G.Cleared(st, full, now), full, merged, OnboardingTtl, now), full, t) == Some(merged)
  {
    var merged := Merge(G.LiveIn(st, full, now), patch, now);
    G.SaveThenRead(G.Cleared(st, full, now), full, merged, OnboardingTtl, now, t);
  }
}
