/** Sending a notification: the requested channels are checked, narrowed by the user's
    preference for the category unless preferences are overridden, and, unless the
    message id was already used, one notification per enabled channel is stored and one
    event is published to that channel's topic. The notification store and the queue are
    fields of the class; new notification ids and the generated message id are
    parameters. */
module SendNotification {
  import opened Wrappers
  import Seqs

  datatype Priority = Low | Normal | High

  type Payload = map<string, string>

  /** A user's channel settings for one category. */
  datatype Preference = Preference(category: string, enabledChannels: set<string>)

  datatype Input = Input(
    targetUserId: Option<string>,
    channels: seq<string>,
    templateId: string,
    payload: Payload,
    priority: Option<Priority>,
    metadata: Option<Payload>,
    category: Option<string>,
    overridePreferences: Option<bool>,
    messageId: Option<string>)

  datatype Notification = Notification(
    id: string,
    targetUserId: string,
    channel: string,
    templateId: string,
    payload: Payload,
    priority: Option<Priority>,
    messageId: string,
    metadata: Option<Payload>)

  /** A published event: the topic and the notification it carries. */
  datatype Published = Published(topic: string, event: Notification)

  datatype SendError = InvalidChannel(channel: string)

  /** The channels a notification can go out on. */
  function ValidChannel(c: string): (b: bool)
    ensures b <==> c in {"email", "whatsapp", "push"}
  {
    c == "email" || c == "whatsapp" || c == "push"
  }

  /** JavaScript truthiness of an optional string. */
  predicate Present(s: Option<string>) { s.Some? && s.value != "" }

  predicate Overrides(input: Input) { input.overridePreferences == Some(true) }

  function Category(input: Input): string {
    if Present(input.category) then input.category.value else "transactional"
  }

  /** The channels left after the preferences are applied. With an override, or without
      a target user, or without a preference for the category, every requested channel
      stays enabled; otherwise only requested channels stay, in their order. */
  function EnabledChannels(input: Input, preferencesOf: string -> seq<Preference>): (r: seq<string>)
    ensures Overrides(input) ==> r == input.channels
    ensures !Present(input.targetUserId) ==> r == input.channels
    ensures Present(input.targetUserId) &&
            (forall p :: p in preferencesOf(input.targetUserId.value) ==> p.category != Category(input)) ==>
              r == input.channels
    ensures Seqs.SubsequenceOf(r, input.channels)
    ensures forall c :: c in r ==> c in input.channels
  {
    if Overrides(input) || !Present(input.targetUserId) then
      Seqs.SubsequenceOfSelf(input.channels);
      input.channels
    else
      var prefs := preferencesOf(input.targetUserId.value);
      var pref := Seqs.Find(prefs, (p: Preference) => p.category == Category(input));
      if pref.None? then
        Seqs.SubsequenceOfSelf(input.channels);
        input.channels
      else
        assert pref.value in prefs;
        Seqs.FilterIsSubsequence(input.channels, (c: string) => c in pref.value.enabledChannels);
        Seqs.Filter(input.channels, (c: string) => c in pref.value.enabledChannels)
  }

  /** The preference for the category filters by membership: a requested channel stays
      exactly when that preference enables it. */
  lemma PreferenceFilters(input: Input, preferencesOf: string -> seq<Preference>, pref: Preference, c: string)
    requires !Overrides(input) && Present(input.targetUserId)
    requires Seqs.Find(preferencesOf(input.targetUserId.value), (p: Preference) => p.category == Category(input)) == Some(pref)
    ensures c in EnabledChannels(input, preferencesOf) <==> c in input.channels && c in pref.enabledChannels
  {
  }

  /** The notification for one channel; with no target user it goes to "system". */
  function MakeNotification(input: Input, id: string, channel: string, messageId: string): (n: Notification)
    ensures n.targetUserId == (if Present(input.targetUserId) then input.targetUserId.value else "system")
    ensures n.channel == channel && n.messageId == messageId && n.id == id
  {
    Notification(id, if Present(input.targetUserId) then input.targetUserId.value else "system",
                 channel, input.templateId, input.payload, input.priority, messageId, input.metadata)
  }

  function Topic(channel: string): string { "notifications." + channel }

  /** The notifications for the channels, in order; the `k`-th gets the id `idFor(k)`. */
  function MakeAll(input: Input, channels: seq<string>, idFor: nat -> string, messageId: string): (ns: seq<Notification>)
    ensures |ns| == |channels|
    ensures forall k :: 0 <= k < |ns| ==> ns[k] == MakeNotification(input, idFor(k), channels[k], messageId)
  {
    seq(|channels|, k requires 0 <= k < |channels| => MakeNotification(input, idFor(k), channels[k], messageId))
  }

  function PublishAll(ns: seq<Notification>): (ps: seq<Published>)
    ensures |ps| == |ns|
    ensures forall k :: 0 <= k < |ps| ==> ps[k] == Published(Topic(ns[k].channel), ns[k])
  {
    seq(|ns|, k requires 0 <= k < |ns| => Published(Topic(ns[k].channel), ns[k]))
  }

  function FirstInvalid(channels: seq<string>): Option<string> {
    Seqs.Find(channels, (c: string) => !ValidChannel(c))
  }

  class NotificationCenter {
    /** The notification store. */
    var notifications: seq<Notification>
    /** Everything published to the queue, in order. */
    var published: seq<Published>

    constructor ()
      ensures notifications == [] && published == []
    {
      notifications := [];
      published := [];
    }

    predicate MessageIdUsed(messageId: string)
      reads this
    {
      exists k | 0 <= k < |notifications| :: notifications[k].messageId == messageId
    }

    /** An invalid channel rejects the request before anything happens; an already used
        message id gives [] and changes nothing; otherwise one notification per enabled
        channel is stored and published, in order. */
    method Execute(input: Input, preferencesOf: string -> seq<Preference>, idFor: nat -> string, generatedMessageId: string)
      returns (r: Result<seq<Notification>, SendError>)
      modifies this
      ensures FirstInvalid(input.channels).Some? ==>
                r == Failure(InvalidChannel(FirstInvalid(input.channels).value))
                && notifications == old(notifications) && published == old(published)
      ensures FirstInvalid(input.channels).None? ==>
                var messageId := if Present(input.messageId) then input.messageId.value else generatedMessageId;
                var created := MakeAll(input, EnabledChannels(input, preferencesOf), idFor, messageId);
                if old(MessageIdUsed(messageId)) then
                  r == Success([]) && notifications == old(notifications) && published == old(published)
                else
                  r == Success(created) && notifications == old(notifications) + created
                  && published == old(published) + PublishAll(created)
    {
      var valid := ValidateChannels(input.channels);
      if valid.Fail? {
        return Failure(valid.error);
      }
      var enabled := input.channels;
      if Present(input.targetUserId) && !Overrides(input) {
        var preferences := preferencesOf(input.targetUserId.value);
        if |preferences| > 0 {
          var category := Category(input);
          var userPref := Seqs.Find(preferences, (p: Preference) => p.category == category);
          if userPref.Some? {
            enabled := Seqs.Filter(input.channels, (c: string) => c in userPref.value.enabledChannels);
          }
        }
      }
      if Overrides(input) {
        enabled := input.channels;
      }
      assert enabled == EnabledChannels(input, preferencesOf);
      var messageId := if Present(input.messageId) then input.messageId.value else generatedMessageId;
      if MessageIdUsed(messageId) {
        return Success([]);
      }
      var created := CreateAndPublish(input, enabled, idFor, messageId);
      r := Success(created);
    }

    /** Stores and publishes one notification per channel, in order. */
    method CreateAndPublish(input: Input, enabled: seq<string>, idFor: nat -> string, messageId: string)
      returns (created: seq<Notification>)
      modifies this
      ensures created == MakeAll(input, enabled, idFor, messageId)
      ensures notifications == old(notifications) + created
      ensures published == old(published) + PublishAll(created)
    {
      created := [];
      for i := 0 to |enabled|
        invariant created == MakeAll(input, enabled[..i], idFor, messageId)
        invariant notifications == old(notifications) + created
        invariant published == old(published) + PublishAll(created)
      {
        var notification := MakeNotification(input, idFor(i), enabled[i], messageId);
        notifications := notifications + [notification];
        created := created + [notification];
        published := published + [Published(Topic(enabled[i]), notification)];
      }
      assert enabled[..|enabled|] == enabled;
    }
  }

  /** Rejects the first channel that is not email, whatsapp or push. */
  method ValidateChannels(channels: seq<string>) returns (r: Outcome<SendError>)
    ensures r.Pass? <==> FirstInvalid(channels).None?
    ensures r.Fail? ==> r.error == InvalidChannel(FirstInvalid(channels).value)
  {
    for i := 0 to |channels|
      invariant forall k :: 0 <= k < i ==> ValidChannel(channels[k])
    {
      if !ValidChannel(channels[i]) {
        assert FirstInvalid(channels) == Some(channels[i]);
        return Fail(InvalidChannel(channels[i]));
      }
    }
    r := Pass;
  }

  /** A repeated message id is idempotent: after a send that created something, the same
      message id sends nothing. */
  lemma SentMessageIdIsUsed(c: NotificationCenter, before: seq<Notification>, created: seq<Notification>, messageId: string)
    requires c.notifications == before + created
    requires |created| > 0 && created[0].messageId == messageId
    ensures c.MessageIdUsed(messageId)
  {
    assert c.notifications[|before|] == created[0];
  }
}
