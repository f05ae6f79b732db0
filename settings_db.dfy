/** Per-user settings over the `user_settings` table
    (src/server/db/settings.ts): read a user's row, create one, update one
    (creating it with defaults when missing), and get-or-create.

    The table is a map from user id to row. Each Supabase call can fail;
    which calls fail is a parameter (`Faults`): `fetch` for the select of
    the row, `write` for the insert or update that follows. A row that is
    absent shows up, as with `.single()`, as the not-found error code. */
module SettingsDb {
  import opened Wrappers
  import opened Strings

  /** PostgREST's code for "no row" from `.single()`. */
  const NotFoundCode: string := "PGRST116"
  /** The issue the schema reports for a `user_id` that is not a UUID. */
  const InvalidUuid: string := "Invalid uuid"

  /** The free-form `settings_data` record, values shown as text. */
  type SettingsData = map<string, string>

  /** A row; the generated `id` and the timestamps are not modelled. */
  datatype Settings = Settings(
    userId: string,
    syncChatHistory: bool,
    syncSettings: bool,
    continueConversations: bool,
    settingsData: SettingsData)

  /** The validated update: every field optional. */
  datatype SettingsUpdate = SettingsUpdate(
    syncChatHistory: Option<bool>,
    syncSettings: Option<bool>,
    continueConversations: Option<bool>,
    settingsData: Option<SettingsData>)

  /** A Supabase error as the code throws it; `isError` says whether the
      thrown value is an `Error` instance, which is all `handleSupabaseError`
      asks of it. */
  datatype DbError = DbError(code: string, message: string, isError: bool)

  /** Which of the Supabase calls of one operation fail, and how. */
  datatype Faults = Faults(fetch: Option<DbError>, write: Option<DbError>)

  const NoFaults: Faults := Faults(None, None)

  type Table = map<string, Settings>

  /** The result of an operation and the table after it. */
  datatype Outcome<T> = Outcome(result: Result<T, string>, rows: Table)

  /** `handleSupabaseError`: the message a failed operation throws. */
  function Failed(operation: string, message: string): string {
    "Failed to " + operation + ": " + message
  }

  const UnknownError: string := "Unknown error"

  /** What `handleSupabaseError` reports of a thrown Supabase error: its
      message when it is an `Error`, otherwise "Unknown error". */
  function Detail(e: DbError): string {
    if e.isError then e.message else UnknownError
  }

  /** The row a new user gets: every flag on, no extra data. */
  function Defaults(userId: string): Settings {
    Settings(userId, true, true, true, map[])
  }

  /** The row created by `updateUserSettings` for a user without one: the
      given values, and the defaults for the rest. */
  function CreatedFrom(userId: string, u: SettingsUpdate): (s: Settings)
    ensures s.userId == userId
    ensures s.syncChatHistory == u.syncChatHistory.GetOr(true)
    ensures s.syncSettings == u.syncSettings.GetOr(true)
    ensures s.continueConversations == u.continueConversations.GetOr(true)
    ensures s.settingsData == u.settingsData.GetOr(map[])
    ensures u == SettingsUpdate(None, None, None, None) ==> s == Defaults(userId)
  {
    Settings(userId, u.syncChatHistory.GetOr(true), u.syncSettings.GetOr(true),
             u.continueConversations.GetOr(true), u.settingsData.GetOr(map[]))
  }

  /** A row with the given fields of an update laid over it. */
  function Apply(s: Settings, u: SettingsUpdate): (r: Settings)
    ensures r.userId == s.userId
    ensures u == SettingsUpdate(None, None, None, None) ==> r == s
    ensures r.syncChatHistory == u.syncChatHistory.GetOr(s.syncChatHistory)
    ensures r.syncSettings == u.syncSettings.GetOr(s.syncSettings)
    ensures r.continueConversations == u.continueConversations.GetOr(s.continueConversations)
    ensures r.settingsData == u.settingsData.GetOr(s.settingsData)
  {
    Settings(s.userId, u.syncChatHistory.GetOr(s.syncChatHistory), u.syncSettings.GetOr(s.syncSettings),
             u.continueConversations.GetOr(s.continueConversations), u.settingsData.GetOr(s.settingsData))
  }

  // ---------------------------------------------------------------------
  // The operations, on the table as a value

  /** `getUserSettings`. */
  function GetSpec(rows: Table, userId: string, fetch: Option<DbError>): Result<Option<Settings>, string> {
    match fetch
    case None => Success(if userId in rows then Some(rows[userId]) else None)
    case Some(e) =>
      if e.code == NotFoundCode then Success(None) else Failure(Failed("fetch user settings", Detail(e)))
  }

  /** `createUserSettings`: the schema rejects a `user_id` that is not a
      UUID before anything is sent. */
  function CreateSpec(rows: Table, data: Settings, isUuid: string -> bool, write: Option<DbError>): Outcome<Settings> {
    if !isUuid(data.userId) then Outcome(Failure(InvalidUuid), rows)
    else match write
      case Some(e) => Outcome(Failure(Failed("create user settings", Detail(e))), rows)
      case None => Outcome(Success(data), rows[data.userId := data])
  }

  /** `updateUserSettings`. */
  function UpdateSpec(rows: Table, userId: string, u: SettingsUpdate, isUuid: string -> bool, faults: Faults): Outcome<Settings> {
    match GetSpec(rows, userId, faults.fetch)
    case Failure(m) => Outcome(Failure(Failed("update user settings", m)), rows)
    case Success(None) =>
      var created := CreateSpec(rows, CreatedFrom(userId, u), isUuid, faults.write);
      if created.result.Failure? then Outcome(Failure(Failed("update user settings", created.result.error)), rows)
      else created
    case Success(Some(existing)) =>
      match faults.write
      case Some(e) => Outcome(Failure(Failed("update user settings", Detail(e))), rows)
      case None =>
        // `.update(...).eq("user_id", userId)`: the user's own row only.
        var updated := Apply(rows[userId], u);
        Outcome(Success(updated), rows[userId := updated])
  }

  /** `getOrCreateUserSettings`. */
  function GetOrCreateSpec(rows: Table, userId: string, isUuid: string -> bool, faults: Faults): Outcome<Settings> {
    match GetSpec(rows, userId, faults.fetch)
    case Failure(m) => Outcome(Failure(Failed("get or create user settings", m)), rows)
    case Success(Some(existing)) => Outcome(Success(existing), rows)
    case Success(None) =>
      var created := CreateSpec(rows, Defaults(userId), isUuid, faults.write);
      if created.result.Failure? then Outcome(Failure(Failed("get or create user settings", created.result.error)), rows)
      else created
  }

  // ---------------------------------------------------------------------
  // What the operations promise

  /** Reading reports a missing row, or the not-found code, as no settings,
      a row as itself, and any other failure as a fetch failure. */
  lemma GetSettingsCases(rows: Table, userId: string, fetch: Option<DbError>)
    ensures fetch.None? ==> (GetSpec(rows, userId, fetch) == Success(None) <==> userId !in rows)
    ensures fetch.None? && userId in rows ==> GetSpec(rows, userId, fetch) == Success(Some(rows[userId]))
    ensures fetch.Some? && fetch.value.code == NotFoundCode ==> GetSpec(rows, userId, fetch) == Success(None)
    ensures GetSpec(rows, userId, fetch).Failure? <==> fetch.Some? && fetch.value.code != NotFoundCode
    ensures GetSpec(rows, userId, fetch).Failure? ==>
              StartsWith(GetSpec(rows, userId, fetch).error, "Failed to fetch user settings: ")
    ensures fetch.Some? && fetch.value.code != NotFoundCode && fetch.value.isError ==>
              GetSpec(rows, userId, fetch) == Failure("Failed to fetch user settings: " + fetch.value.message)
    ensures fetch.Some? && fetch.value.code != NotFoundCode && !fetch.value.isError ==>
              GetSpec(rows, userId, fetch) == Failure("Failed to fetch user settings: Unknown error")
  {
    if fetch.Some? && fetch.value.code != NotFoundCode {
      var prefix := "Failed to " + "fetch user settings" + ": ";
      assert prefix == "Failed to fetch user settings: ";
      assert Failed("fetch user settings", Detail(fetch.value)) == prefix + Detail(fetch.value);
      assert (prefix + Detail(fetch.value))[..|prefix|] == prefix;
      if !fetch.value.isError {
        assert prefix + UnknownError == "Failed to fetch user settings: Unknown error";
      }
    }
  }

  /** A user who has a row gets it back unchanged, and nothing is written. */
  lemma GetOrCreateExisting(rows: Table, userId: string, isUuid: string -> bool, faults: Faults)
    requires userId in rows && faults.fetch.None?
    ensures GetOrCreateSpec(rows, userId, isUuid, faults) == Outcome(Success(rows[userId]), rows)
  {
  }

  /** A user without a row gets one with every flag on and no extra data. */
  lemma GetOrCreateMissing(rows: Table, userId: string, isUuid: string -> bool)
    requires userId !in rows && isUuid(userId)
    ensures var o := GetOrCreateSpec(rows, userId, isUuid, NoFaults);
      && o.result == Success(Settings(userId, true, true, true, map[]))
      && o.rows == rows[userId := Settings(userId, true, true, true, map[])]
  {
  }

  /** Asking twice gives the same settings, and the second time nothing is
      written. */
  lemma GetOrCreateIdempotent(rows: Table, userId: string, isUuid: string -> bool)
    requires GetOrCreateSpec(rows, userId, isUuid, NoFaults).result.Success?
    ensures var first := GetOrCreateSpec(rows, userId, isUuid, NoFaults);
      var second := GetOrCreateSpec(first.rows, userId, isUuid, NoFaults);
      second == Outcome(first.result, first.rows)
  {
    var first := GetOrCreateSpec(rows, userId, isUuid, NoFaults);
    assert userId in first.rows && first.rows[userId] == first.result.value;
  }

  /** Updating a user without a row creates it from the given values, with
      the defaults for the rest. */
  lemma UpdateMissing(rows: Table, userId: string, u: SettingsUpdate, isUuid: string -> bool)
    requires userId !in rows && isUuid(userId)
    ensures var o := UpdateSpec(rows, userId, u, isUuid, NoFaults);
      && o.result == Success(CreatedFrom(userId, u))
      && o.rows == rows[userId := CreatedFrom(userId, u)]
  {
  }

  /** Updating a user with a row changes exactly the given fields of that
      row. */
  lemma UpdateExisting(rows: Table, userId: string, u: SettingsUpdate, isUuid: string -> bool)
    requires userId in rows
    ensures var o := UpdateSpec(rows, userId, u, isUuid, NoFaults);
      && o.result == Success(Apply(rows[userId], u))
      && o.rows == rows[userId := Apply(rows[userId], u)]
  {
  }

  /** What an operation on `userId`'s settings may do to the table: touch
      only that user's row; on failure, touch nothing and report the
      operation first; on success, store the row it returns. */
  predicate StaysWithUser(rows: Table, userId: string, o: Outcome<Settings>, operation: string) {
    && o.rows.Keys <= rows.Keys + {userId}
    && (forall other :: other in rows && other != userId ==> other in o.rows && o.rows[other] == rows[other])
    && (o.result.Failure? ==> o.rows == rows && StartsWith(o.result.error, "Failed to " + operation + ": "))
    && (o.result.Success? ==> userId in o.rows && o.rows[userId] == o.result.value)
  }

  lemma FailureStays(rows: Table, userId: string, operation: string, message: string)
    ensures StaysWithUser(rows, userId, Outcome(Failure(Failed(operation, message)), rows), operation)
  {
    var prefix := "Failed to " + operation + ": ";
    assert Failed(operation, message)[..|prefix|] == prefix;
  }

  lemma WriteStays(rows: Table, userId: string, s: Settings, operation: string)
    ensures StaysWithUser(rows, userId, Outcome(Success(s), rows[userId := s]), operation)
  {
  }

  /** An update leaves the other users' rows alone; a failed one leaves the
      table as it was and names the update first in its message. */
  lemma UpdateStaysWithTheUser(rows: Table, userId: string, u: SettingsUpdate, isUuid: string -> bool, faults: Faults)
    ensures StaysWithUser(rows, userId, UpdateSpec(rows, userId, u, isUuid, faults), "update user settings")
  {
    var op := "update user settings";
    match GetSpec(rows, userId, faults.fetch)
    case Failure(m) =>
      FailureStays(rows, userId, op, m);
    case Success(None) =>
      if !isUuid(userId) {
        FailureStays(rows, userId, op, InvalidUuid);
      } else if faults.write.Some? {
        FailureStays(rows, userId, op, Failed("create user settings", Detail(faults.write.value)));
      } else {
        WriteStays(rows, userId, CreatedFrom(userId, u), op);
      }
    case Success(Some(_)) =>
      if faults.write.Some? {
        FailureStays(rows, userId, op, Detail(faults.write.value));
      } else {
        WriteStays(rows, userId, Apply(rows[userId], u), op);
      }
  }

  /** Get-or-create leaves the other users' rows alone; a failed one leaves
      the table as it was and names the operation first in its message. */
  lemma GetOrCreateStaysWithTheUser(rows: Table, userId: string, isUuid: string -> bool, faults: Faults)
    ensures StaysWithUser(rows, userId, GetOrCreateSpec(rows, userId, isUuid, faults), "get or create user settings")
  {
    var op := "get or create user settings";
    match GetSpec(rows, userId, faults.fetch)
    case Failure(m) =>
      FailureStays(rows, userId, op, m);
    case Success(None) =>
      if !isUuid(userId) {
        FailureStays(rows, userId, op, InvalidUuid);
      } else if faults.write.Some? {
        FailureStays(rows, userId, op, Failed("create user settings", Detail(faults.write.value)));
      } else {
        WriteStays(rows, userId, Defaults(userId), op);
      }
    case Success(Some(_)) =>
  }

  // ---------------------------------------------------------------------
  // The table

  class SettingsTable {
    var rows: Table

    constructor (rows: Table)
      ensures this.rows == rows
    {
      this.rows := rows;
    }

    method GetUserSettings(userId: string, fetch: Option<DbError>) returns (r: Result<Option<Settings>, string>)
      ensures r == GetSpec(rows, userId, fetch)
    {
      if fetch.Some? {
        if fetch.value.code == NotFoundCode {
          return Success(None);
        }
        return Failure(Failed("fetch user settings", Detail(fetch.value)));
      }
      if userId in rows {
        return Success(Some(rows[userId]));
      }
      return Success(None);
    }

    method CreateUserSettings(data: Settings, isUuid: string -> bool, write: Option<DbError>)
      returns (r: Result<Settings, string>)
      modifies this
      ensures Outcome(r, rows) == CreateSpec(old(rows), data, isUuid, write)
    {
      if !isUuid(data.userId) {
        return Failure(InvalidUuid);
      }
      if write.Some? {
        return Failure(Failed("create user settings", Detail(write.value)));
      }
      rows := rows[data.userId := data];
      return Success(data);
    }

    method UpdateUserSettings(userId: string, u: SettingsUpdate, isUuid: string -> bool, faults: Faults)
      returns (r: Result<Settings, string>)
      modifies this
      ensures Outcome(r, rows) == UpdateSpec(old(rows), userId, u, isUuid, faults)
    {
      var existing := GetUserSettings(userId, faults.fetch);
      if existing.Failure? {
        return Failure(Failed("update user settings", existing.error));
      }
      if existing.value.None? {
        var created := CreateUserSettings(CreatedFrom(userId, u), isUuid, faults.write);
        if created.Failure? {
          return Failure(Failed("update user settings", created.error));
        }
        return created;
      }
      if faults.write.Some? {
        return Failure(Failed("update user settings", Detail(faults.write.value)));
      }
      var updated := Apply(rows[userId], u);
      rows := rows[userId := updated];
      return Success(updated);
    }

    method GetOrCreateUserSettings(userId: string, isUuid: string -> bool, faults: Faults)
      returns (r: Result<Settings, string>)
      modifies this
      ensures Outcome(r, rows) == GetOrCreateSpec(old(rows), userId, isUuid, faults)
    {
      var existing := GetUserSettings(userId, faults.fetch);
      if existing.Failure? {
        return Failure(Failed("get or create user settings", existing.error));
      }
      if existing.value.Some? {
        return Success(existing.value.value);
      }
      var created := CreateUserSettings(Defaults(userId), isUuid, faults.write);
      if created.Failure? {
        return Failure(Failed("get or create user settings", created.error));
      }
      return created;
    }
  }
}
