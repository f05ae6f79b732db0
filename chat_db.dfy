/** Chat sessions and messages over the `chat_sessions` and `chat_messages`
    tables (src/server/db/chat.ts). The rules are about ownership: a user
    sees and changes only the sessions whose `user_id` is theirs, and a
    message only through the session it belongs to.

    Both tables are maps from id to row. New ids and the clock are
    parameters; the table is taken to refresh `updated_at` on every update
    of a session row. */
module ChatDb {
  import opened Wrappers

  const AccessDenied: string := "Chat session not found or access denied"
  const MessageNotFound: string := "Message not found"
  /** PostgREST's message for `.single()` on no rows. */
  const NoRowsMessage: string := "JSON object requested, multiple (or no) rows returned"

  type Metadata = map<string, string>

  datatype Role = User | Assistant | System

  datatype ChatSession = ChatSession(
    id: string, userId: string, title: string, isFavorite: bool, metadata: Metadata, updatedAt: int)

  datatype ChatMessage = ChatMessage(
    id: string, sessionId: string, role: Role, content: string, metadata: Metadata)

  /** The fields `createChatSession` takes; the schema defaults apply. */
  datatype NewSession = NewSession(userId: string, title: string, isFavorite: Option<bool>, metadata: Option<Metadata>)

  datatype SessionUpdate = SessionUpdate(title: Option<string>, isFavorite: Option<bool>, metadata: Option<Metadata>)

  datatype NewMessage = NewMessage(sessionId: string, role: Role, content: string, metadata: Option<Metadata>)

  datatype MessageUpdate = MessageUpdate(content: Option<string>, metadata: Option<Metadata>)

  /** `handleSupabaseError`: the message a failed operation throws. */
  function Failed(operation: string, message: string): string {
    "Failed to " + operation + ": " + message
  }

  const UnknownError: string := "Unknown error"

  /** A session row with the given fields of an update laid over it. */
  function ApplySession(s: ChatSession, u: SessionUpdate, now: int): (r: ChatSession)
    ensures r.id == s.id && r.userId == s.userId && r.updatedAt == now
    ensures r.title == u.title.GetOr(s.title) && r.isFavorite == u.isFavorite.GetOr(s.isFavorite)
    ensures r.metadata == u.metadata.GetOr(s.metadata)
  {
    ChatSession(s.id, s.userId, u.title.GetOr(s.title), u.isFavorite.GetOr(s.isFavorite), u.metadata.GetOr(s.metadata), now)
  }

  function ApplyMessage(m: ChatMessage, u: MessageUpdate): (r: ChatMessage)
    ensures r.id == m.id && r.sessionId == m.sessionId && r.role == m.role
    ensures r.content == u.content.GetOr(m.content) && r.metadata == u.metadata.GetOr(m.metadata)
  {
    m.(content := u.content.GetOr(m.content), metadata := u.metadata.GetOr(m.metadata))
  }

  class ChatStore {
    var sessions: map<string, ChatSession>
    var messages: map<string, ChatMessage>

    /** Every row is stored under its own id. */
    ghost predicate Valid()
      reads this
    {
      && (forall id :: id in sessions ==> sessions[id].id == id)
      && (forall id :: id in messages ==> messages[id].id == id)
    }

    constructor ()
      ensures Valid() && sessions == map[] && messages == map[]
    {
      sessions := map[];
      messages := map[];
    }

    /** The session is there and belongs to the user. */
    predicate Owns(userId: string, sessionId: string)
      reads this
    {
      sessionId in sessions && sessions[sessionId].userId == userId
    }

    /** `getChatSessions`: the user's sessions (the newest-first order of
        the query is not modelled). */
    function GetChatSessions(userId: string): (r: set<ChatSession>)
      reads this
      ensures forall s :: s in r <==> s in sessions.Values && s.userId == userId
    {
      set s | s in sessions.Values && s.userId == userId
    }

    /** `getChatSessionById`: the session, or `None` when it is missing or
        belongs to someone else. */
    function GetChatSessionById(sessionId: string, userId: string): (r: Option<ChatSession>)
      reads this
      ensures r.Some? <==> Owns(userId, sessionId)
      ensures r.Some? ==> r.value == sessions[sessionId] && r.value.userId == userId
    {
      if sessionId in sessions && sessions[sessionId].userId == userId then Some(sessions[sessionId]) else None
    }

    /** `getMessageById`: the session of the message, if the message is
        there. */
    function GetMessageById(messageId: string): (r: Option<string>)
      reads this
      ensures r.Some? <==> messageId in messages
      ensures r.Some? ==> r.value == messages[messageId].sessionId
    {
      if messageId in messages then Some(messages[messageId].sessionId) else None
    }

    /** `getChatMessages`: the messages of a session the user owns; anyone
        else is refused with an error that is not wrapped. */
    function GetChatMessages(sessionId: string, userId: string): (r: Result<set<ChatMessage>, string>)
      reads this
      ensures r.Failure? <==> !Owns(userId, sessionId)
      ensures r.Failure? ==> r.error == AccessDenied
      ensures r.Success? ==> forall m :: m in r.value <==> m in messages.Values && m.sessionId == sessionId
    {
      if GetChatSessionById(sessionId, userId).None? then Failure(AccessDenied)
      else Success(set m | m in messages.Values && m.sessionId == sessionId)
    }

    /** `createChatSession` with the id the table generates. */
    method CreateChatSession(data: NewSession, newId: string, now: int) returns (r: ChatSession)
      requires Valid() && newId !in sessions
      modifies this
      ensures Valid()
      ensures r == ChatSession(newId, data.userId, data.title, data.isFavorite.GetOr(false), data.metadata.GetOr(map[]), now)
      ensures sessions == old(sessions)[newId := r] && messages == old(messages)
    {
      r := ChatSession(newId, data.userId, data.title, data.isFavorite.GetOr(false), data.metadata.GetOr(map[]), now);
      sessions := sessions[newId := r];
    }

    /** `updateChatSession`: the update is filtered on both id and owner,
        the read-back only on id. An owner's session is updated; another
        user's session is left alone but still read back; a missing one is
        an error, whose message survives the wrapping only when the client
        hands it over as an `Error` (`noRowsIsError`). */
    method UpdateChatSession(sessionId: string, userId: string, u: SessionUpdate, now: int, noRowsIsError: bool)
      returns (r: Result<ChatSession, string>)
      requires Valid()
      modifies this
      ensures Valid() && messages == old(messages)
      ensures old(Owns(userId, sessionId)) ==>
                && sessions == old(sessions)[sessionId := ApplySession(old(sessions)[sessionId], u, now)]
                && r == Success(sessions[sessionId])
      ensures !old(Owns(userId, sessionId)) ==> sessions == old(sessions)
      ensures sessionId in old(sessions) && !old(Owns(userId, sessionId)) ==> r == Success(old(sessions)[sessionId])
      ensures sessionId !in old(sessions) && noRowsIsError ==> r == Failure(Failed("update chat session", NoRowsMessage))
      ensures sessionId !in old(sessions) && !noRowsIsError ==> r == Failure("Failed to update chat session: Unknown error")
    {
      if sessionId in sessions && sessions[sessionId].userId == userId {
        sessions := sessions[sessionId := ApplySession(sessions[sessionId], u, now)];
      }
      if sessionId !in sessions {
        assert Failed("update chat session", UnknownError) == "Failed to update chat session: Unknown error";
        return Failure(Failed("update chat session", if noRowsIsError then NoRowsMessage else UnknownError));
      }
      return Success(sessions[sessionId]);
    }

    /** `deleteChatSession`: removes the session only when the user owns
        it; never an error. */
    method DeleteChatSession(sessionId: string, userId: string)
      requires Valid()
      modifies this
      ensures Valid() && messages == old(messages)
      ensures old(Owns(userId, sessionId)) ==> sessions == old(sessions) - {sessionId}
      ensures !old(Owns(userId, sessionId)) ==> sessions == old(sessions)
    {
      if sessionId in sessions && sessions[sessionId].userId == userId {
        sessions := sessions - {sessionId};
      }
    }

    /** `createChatMessage`: refused, unwrapped, unless the user owns the
        session; otherwise the message is stored and the session touched. */
    method CreateChatMessage(data: NewMessage, userId: string, newId: string, now: int)
      returns (r: Result<ChatMessage, string>)
      requires Valid() && newId !in messages
      modifies this
      ensures Valid()
      ensures !old(Owns(userId, data.sessionId)) ==>
                r == Failure(AccessDenied) && sessions == old(sessions) && messages == old(messages)
      ensures old(Owns(userId, data.sessionId)) ==>
                var m := ChatMessage(newId, data.sessionId, data.role, data.content, data.metadata.GetOr(map[]));
                && r == Success(m)
                && messages == old(messages)[newId := m]
                && sessions == old(sessions)[data.sessionId := old(sessions)[data.sessionId].(updatedAt := now)]
    {
      if GetChatSessionById(data.sessionId, userId).None? {
        return Failure(AccessDenied);
      }
      var m := ChatMessage(newId, data.sessionId, data.role, data.content, data.metadata.GetOr(map[]));
      messages := messages[newId := m];
      var touched := UpdateChatSession(data.sessionId, userId, SessionUpdate(None, None, None), now, true);
      return Success(m);
    }

    /** The check shared by message update and delete: the message must be
        there and its session must belong to the user. */
    function MessageAccess(messageId: string, userId: string): (r: Option<string>)
      reads this
      ensures r == None <==> messageId in messages && Owns(userId, messages[messageId].sessionId)
      ensures messageId !in messages ==> r == Some(MessageNotFound)
      ensures messageId in messages && !Owns(userId, messages[messageId].sessionId) ==> r == Some(AccessDenied)
    {
      match GetMessageById(messageId)
      case None => Some(MessageNotFound)
      case Some(sessionId) => if GetChatSessionById(sessionId, userId).None? then Some(AccessDenied) else None
    }

    /** `updateChatMessage`: both refusals are wrapped as update failures
        and change nothing. */
    method UpdateChatMessage(messageId: string, userId: string, u: MessageUpdate)
      returns (r: Result<ChatMessage, string>)
      requires Valid()
      modifies this
      ensures Valid() && sessions == old(sessions)
      ensures old(MessageAccess(messageId, userId)).Some? ==>
                && r == Failure(Failed("update chat message", old(MessageAccess(messageId, userId)).value))
                && messages == old(messages)
      ensures old(MessageAccess(messageId, userId)).None? ==>
                && messages == old(messages)[messageId := ApplyMessage(old(messages)[messageId], u)]
                && r == Success(messages[messageId])
    {
      var denied := MessageAccess(messageId, userId);
      if denied.Some? {
        return Failure(Failed("update chat message", denied.value));
      }
      messages := messages[messageId := ApplyMessage(messages[messageId], u)];
      return Success(messages[messageId]);
    }

    /** `deleteChatMessage`: both refusals are wrapped as delete failures
        and change nothing. */
    method DeleteChatMessage(messageId: string, userId: string) returns (r: Result<(), string>)
      requires Valid()
      modifies this
      ensures Valid() && sessions == old(sessions)
      ensures old(MessageAccess(messageId, userId)).Some? ==>
                && r == Failure(Failed("delete chat message", old(MessageAccess(messageId, userId)).value))
                && messages == old(messages)
      ensures old(MessageAccess(messageId, userId)).None? ==>
                r == Success(()) && messages == old(messages) - {messageId}
    {
      var denied := MessageAccess(messageId, userId);
      if denied.Some? {
        return Failure(Failed("delete chat message", denied.value));
      }
      messages := messages - {messageId};
      return Success(());
    }
  }

  /** Another user can neither read, extend, edit nor delete the messages
      of a session: every such request is refused and the store keeps its
      rows. */
  method StrangerIsRefused(store: ChatStore, sessionId: string, messageId: string, stranger: string,
                           data: NewMessage, newId: string, now: int)
    returns (read: Result<set<ChatMessage>, string>, created: Result<ChatMessage, string>,
             updated: Result<ChatMessage, string>, deleted: Result<(), string>)
    requires store.Valid() && newId !in store.messages
    requires sessionId in store.sessions && store.sessions[sessionId].userId != stranger
    requires data.sessionId == sessionId
    requires messageId in store.messages && store.messages[messageId].sessionId == sessionId
    modifies store
    ensures read.Failure? && created.Failure? && updated.Failure? && deleted.Failure?
    ensures store.sessions == old(store.sessions) && store.messages == old(store.messages)
  {
    read := store.GetChatMessages(sessionId, stranger);
    created := store.CreateChatMessage(data, stranger, newId, now);
    updated := store.UpdateChatMessage(messageId, stranger, MessageUpdate(Some("edited"), None));
    deleted := store.DeleteChatMessage(messageId, stranger);
  }
}
