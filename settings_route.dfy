/** The settings API route (src/app/api/settings/route.ts): GET returns
    the user's three sync flags, creating the settings row on first use;
    PUT keeps only the allowed boolean fields of the request body and
    stores them. Both answer 401 without a token subject and a generic 500
    when anything below them fails. */
module SettingsRoute {
  import opened Wrappers
  import opened SettingsDb

  const SyncChatHistory: string := "sync_chat_history"
  const SyncSettings: string := "sync_settings"
  const ContinueConversations: string := "continue_conversations"

  /** The fields a client may set, in the order they are examined. */
  const AllowedFields: seq<string> := [SyncChatHistory, SyncSettings, ContinueConversations]

  /** A JSON value of the request body: a boolean, or anything else. */
  datatype JsonValue = JBool(b: bool) | JOther

  /** What the route answers. */
  datatype Response =
    | Flags(syncChatHistory: bool, syncSettings: bool, continueConversations: bool)  // 200
    | Error(status: int, error: string)

  /** JavaScript truthiness of `token?.sub`. */
  predicate HasSubject(sub: Option<string>) {
    sub.Some? && sub.value != ""
  }

  /** The client-side view of a settings row: the three flags and nothing
      else. */
  function Project(s: Settings): (r: Response)
    ensures r.Flags?
    ensures r.syncChatHistory == s.syncChatHistory && r.syncSettings == s.syncSettings
    ensures r.continueConversations == s.continueConversations
  {
    Flags(s.syncChatHistory, s.syncSettings, s.continueConversations)
  }

  /** The loop over `allowedFields`: a field is copied into the updates when
      the body has it with a boolean value. */
  method FilterUpdates(body: map<string, JsonValue>) returns (updates: map<string, bool>)
    ensures updates.Keys <= {SyncChatHistory, SyncSettings, ContinueConversations}
    ensures forall f :: f in updates ==> f in body && body[f] == JBool(updates[f])
    ensures forall f :: f in AllowedFields && f in body && body[f].JBool? ==> f in updates
  {
    updates := map[];
    for i := 0 to |AllowedFields|
      invariant updates.Keys <= set j | 0 <= j < i :: AllowedFields[j]
      invariant forall f :: f in updates ==> f in body && body[f] == JBool(updates[f])
      invariant forall j :: 0 <= j < i && AllowedFields[j] in body && body[AllowedFields[j]].JBool? ==>
                  AllowedFields[j] in updates
    {
      var field := AllowedFields[i];
      if field in body && body[field].JBool? {
        updates := updates[field := body[field].b];
      }
    }
  }

  /** The updates as the settings store takes them. */
  function ToSettingsUpdate(updates: map<string, bool>): (u: SettingsUpdate)
    ensures u.syncChatHistory.Some? <==> SyncChatHistory in updates
    ensures u.syncSettings.Some? <==> SyncSettings in updates
    ensures u.continueConversations.Some? <==> ContinueConversations in updates
    ensures SyncChatHistory in updates ==> u.syncChatHistory.value == updates[SyncChatHistory]
    ensures SyncSettings in updates ==> u.syncSettings.value == updates[SyncSettings]
    ensures ContinueConversations in updates ==> u.continueConversations.value == updates[ContinueConversations]
    ensures u.settingsData.None?
  {
    SettingsUpdate(
      if SyncChatHistory in updates then Some(updates[SyncChatHistory]) else None,
      if SyncSettings in updates then Some(updates[SyncSettings]) else None,
      if ContinueConversations in updates then Some(updates[ContinueConversations]) else None,
      None)
  }

  /** `GET`: the caller's flags, creating their row with the defaults on
      first use. */
  method Get(table: SettingsTable, sub: Option<string>, isUuid: string -> bool, faults: Faults)
    returns (response: Response)
    modifies table
    ensures !HasSubject(sub) ==> response == Error(401, "Unauthorized") && table.rows == old(table.rows)
    ensures HasSubject(sub) ==>
      var o := GetOrCreateSpec(old(table.rows), sub.value, isUuid, faults);
      && table.rows == o.rows
      && response == (if o.result.Success? then Project(o.result.value) else Error(500, "Failed to fetch settings"))
  {
    if !HasSubject(sub) {
      return Error(401, "Unauthorized");
    }
    var settings := table.GetOrCreateUserSettings(sub.value, isUuid, faults);
    if settings.Failure? {
      return Error(500, "Failed to fetch settings");
    }
    return Project(settings.value);
  }

  /** `PUT` with the parsed request body, or `None` when the body is not
      JSON or not something `in` can look into. */
  method Put(table: SettingsTable, sub: Option<string>, body: Option<map<string, JsonValue>>,
             isUuid: string -> bool, faults: Faults)
    returns (response: Response)
    modifies table
    ensures !HasSubject(sub) ==> response == Error(401, "Unauthorized") && table.rows == old(table.rows)
    ensures HasSubject(sub) && body.None? ==>
              response == Error(500, "Failed to update settings") && table.rows == old(table.rows)
    ensures HasSubject(sub) && body.Some? ==>
      exists updates: map<string, bool> ::
        && updates.Keys <= {SyncChatHistory, SyncSettings, ContinueConversations}
        && (forall f :: f in updates ==> f in body.value && body.value[f] == JBool(updates[f]))
        && (forall f :: f in AllowedFields && f in body.value && body.value[f].JBool? ==> f in updates)
        && var o := UpdateSpec(old(table.rows), sub.value, ToSettingsUpdate(updates), isUuid, faults);
        && table.rows == o.rows
        && response == (if o.result.Success? then Project(o.result.value) else Error(500, "Failed to update settings"))
  {
    if !HasSubject(sub) {
      return Error(401, "Unauthorized");
    }
    if body.None? {
      return Error(500, "Failed to update settings");
    }
    var updates := FilterUpdates(body.value);
    var updated := table.UpdateUserSettings(sub.value, ToSettingsUpdate(updates), isUuid, faults);
    if updated.Failure? {
      response := Error(500, "Failed to update settings");
    } else {
      response := Project(updated.value);
    }
  }

  /** Only the three allowed fields, and only with boolean values, can
      reach the store: whatever else the body holds, the update carries
      no `settings_data`, and a field with a non-boolean value is left as
      it was. */
  lemma PutChangesOnlyBooleanFlags(existing: Settings, updates: map<string, bool>, body: map<string, JsonValue>)
    requires forall f :: f in updates ==> f in body && body[f] == JBool(updates[f])
    ensures var r := Apply(existing, ToSettingsUpdate(updates));
      && r.settingsData == existing.settingsData
      && r.userId == existing.userId
      && (SyncChatHistory !in body || !body[SyncChatHistory].JBool? ==> r.syncChatHistory == existing.syncChatHistory)
      && (SyncSettings !in body || !body[SyncSettings].JBool? ==> r.syncSettings == existing.syncSettings)
      && (ContinueConversations !in body || !body[ContinueConversations].JBool? ==>
            r.continueConversations == existing.continueConversations)
  {
  }
}
