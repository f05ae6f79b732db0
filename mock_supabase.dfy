/** The in-memory stand-in for Supabase that the database tests run against
    (tests/setup/mockSupabase.ts). Two dictionaries, `chat_sessions` and
    `chat_messages`, are shared by every client; each client remembers the
    last row it wrote (`lastData`).

    A JavaScript object used as a dictionary keeps its keys in insertion
    order, and `Object.values`, `find` and `forEach` follow that order, so a
    dictionary is modelled as a sequence of (key, row) pairs: assigning an
    existing key replaces the pair where it stands, a new key is appended,
    `delete` takes the pair out. Fresh ids and the clock are parameters. */
module MockSupabase {
  import opened Wrappers

  const ChatSessions: string := "chat_sessions"
  const ChatMessages: string := "chat_messages"
  const NotFoundCode: string := "PGRST116"
  const RecordNotFound: string := "Record not found"

  // ---------------------------------------------------------------------
  // Dictionaries in insertion order

  type Dict<V> = seq<(string, V)>

  predicate HasKey<V>(d: Dict<V>, k: string) {
    exists j :: 0 <= j < |d| && d[j].0 == k
  }

  predicate DistinctKeys<V>(d: Dict<V>) {
    forall i, j :: 0 <= i < j < |d| ==> d[i].0 != d[j].0
  }

  /** Where key `k` stands, if anywhere. */
  function KeyIndex<V>(d: Dict<V>, k: string): (i: Option<nat>)
    ensures i.Some? ==> i.value < |d| && d[i.value].0 == k && forall j :: 0 <= j < i.value ==> d[j].0 != k
    ensures i.None? <==> !HasKey(d, k)
  {
    if |d| == 0 then None
    else if d[0].0 == k then Some(0)
    else match KeyIndex(d[1..], k)
      case None => None
      case Some(i) => Some(i + 1)
  }

  /** `d[k]`. */
  function Get<V>(d: Dict<V>, k: string): (v: Option<V>)
    ensures v.None? <==> !HasKey(d, k)
  {
    match KeyIndex(d, k)
    case None => None
    case Some(i) => Some(d[i].1)
  }

  /** The first pair with key `k` stands at `i`. */
  lemma KeyIndexAt<V>(d: Dict<V>, k: string, i: nat)
    requires i < |d| && d[i].0 == k && forall j :: 0 <= j < i ==> d[j].0 != k
    ensures KeyIndex(d, k) == Some(i)
  {
    assert HasKey(d, k);
  }

  /** `d[k] = v`: the pair stays where the key already stood, or is
      appended. */
  function Put<V>(d: Dict<V>, k: string, v: V): (r: Dict<V>)
    ensures HasKey(d, k) ==> |r| == |d|
    ensures !HasKey(d, k) ==> r == d + [(k, v)]
    ensures forall j :: 0 <= j < |d| && d[j].0 != k ==> r[j] == d[j]
    ensures DistinctKeys(d) ==> forall j :: 0 <= j < |d| && d[j].0 == k ==> r[j] == (k, v)
    ensures DistinctKeys(d) ==> DistinctKeys(r)
    ensures Get(r, k) == Some(v)
  {
    match KeyIndex(d, k)
    case None =>
      var r := d + [(k, v)];
      KeyIndexAt(r, k, |d|);
      r
    case Some(i) =>
      var r := d[i := (k, v)];
      KeyIndexAt(r, k, i);
      r
  }

  /** `delete d[k]`: every pair with key `k` goes, the rest keep their
      order. */
  function Remove<V(!new)>(d: Dict<V>, k: string): (r: Dict<V>)
    ensures !HasKey(r, k) && |r| <= |d|
    ensures forall e :: e in r <==> e in d && e.0 != k
    ensures DistinctKeys(d) ==> DistinctKeys(r)
  {
    if |d| == 0 then []
    else
      var rest := Remove(d[1..], k);
      if d[0].0 == k then rest
      else
        assert DistinctKeys(d) ==> forall e :: e in rest ==> e.0 != d[0].0 by {
          if DistinctKeys(d) {
            forall e | e in rest ensures e.0 != d[0].0 {
              var j :| 0 <= j < |d[1..]| && d[1..][j] == e;
              assert d[j + 1] == e;
            }
          }
        }
        [d[0]] + rest
  }

  /** `Object.values(d)`. */
  function Values<V>(d: Dict<V>): (vs: seq<V>)
    ensures |vs| == |d| && forall j :: 0 <= j < |d| ==> vs[j] == d[j].1
  {
    seq(|d|, j requires 0 <= j < |d| => d[j].1)
  }

  lemma GetAt<V>(d: Dict<V>, j: nat)
    requires DistinctKeys(d) && j < |d|
    ensures Get(d, d[j].0) == Some(d[j].1)
  {
    KeyIndexAt(d, d[j].0, j);
  }

  /** Writing one key changes what no other key reads. */
  lemma {:induction false} PutOthers<V>(d: Dict<V>, k: string, v: V, k': string)
    requires DistinctKeys(d) && k' != k
    ensures Get(Put(d, k, v), k') == Get(d, k')
  {
    var r := Put(d, k, v);
    if HasKey(d, k') {
      var j := KeyIndex(d, k').value;
      GetAt(d, j);
      assert r[j] == d[j];
      GetAt(r, j);
    } else {
      forall j | 0 <= j < |r| ensures r[j].0 != k' {
        if j < |d| {
          assert d[j].0 != k';
        }
      }
    }
  }

  // ---------------------------------------------------------------------
  // Rows

  type Metadata = map<string, string>

  datatype MockChatSession = MockChatSession(
    id: string, userId: string, title: string, createdAt: string, updatedAt: string,
    isFavorite: bool, metadata: Metadata)

  datatype MockChatMessage = MockChatMessage(
    id: string, sessionId: string, role: string, content: string, createdAt: string, metadata: Metadata)

  /** `MockData`: what `lastData` holds. */
  datatype MockData = Session(session: MockChatSession) | Message(message: MockChatMessage)

  /** The `data` of a reply: one row, or the rows of a message filter. */
  datatype Data = One(row: MockData) | Many(rows: seq<MockChatMessage>)

  datatype PostgrestError = PostgrestError(message: string, details: string, hint: string, code: string, name: string)

  /** `{ data, error }`; `None` stands for `null`. */
  datatype Reply = Reply(data: Option<Data>, error: Option<PostgrestError>)

  /** `createErrorObject`. */
  function ErrorObject(message: string): (e: PostgrestError)
    ensures e.message == message && e.code == NotFoundCode
  {
    PostgrestError(message, "", "", NotFoundCode, "PostgrestError")
  }

  /** `s[column] === value` for a string `value`: only the string-valued
      columns can match. */
  function SessionField(s: MockChatSession, column: string): Option<string> {
    if column == "id" then Some(s.id)
    else if column == "user_id" then Some(s.userId)
    else if column == "title" then Some(s.title)
    else if column == "created_at" then Some(s.createdAt)
    else if column == "updated_at" then Some(s.updatedAt)
    else None
  }

  function MessageField(m: MockChatMessage, column: string): Option<string> {
    if column == "id" then Some(m.id)
    else if column == "session_id" then Some(m.sessionId)
    else if column == "role" then Some(m.role)
    else if column == "content" then Some(m.content)
    else if column == "created_at" then Some(m.createdAt)
    else None
  }

  /** The session meets every `(column, value)` condition. */
  predicate Matches(s: MockChatSession, conditions: seq<(string, string)>) {
    forall c :: c in conditions ==> SessionField(s, c.0) == Some(c.1)
  }

  /** `sessions.find(...)`: where the first session meeting the conditions
      stands. */
  function FindSession(sessions: seq<MockChatSession>, conditions: seq<(string, string)>): (i: Option<nat>)
    ensures i.None? <==> forall j :: 0 <= j < |sessions| ==> !Matches(sessions[j], conditions)
    ensures i.Some? ==> i.value < |sessions| && Matches(sessions[i.value], conditions)
                          && forall j :: 0 <= j < i.value ==> !Matches(sessions[j], conditions)
  {
    if |sessions| == 0 then None
    else if Matches(sessions[0], conditions) then Some(0)
    else match FindSession(sessions[1..], conditions)
      case None => None
      case Some(i) => Some(i + 1)
  }

  /** Every row is stored under its own id. */
  predicate KeyedById(d: Dict<MockChatSession>) {
    forall j :: 0 <= j < |d| ==> d[j].1.id == d[j].0
  }

  /** Every message is stored under its own id. */
  predicate MessagesKeyedById(d: Dict<MockChatMessage>) {
    forall j :: 0 <= j < |d| ==> d[j].1.id == d[j].0
  }

  /** Looking a session up by its `id` column finds the row stored under
      that key, and nothing when there is none. */
  lemma SelectById(d: Dict<MockChatSession>, k: string)
    requires DistinctKeys(d) && KeyedById(d)
    ensures var f := FindSession(Values(d), [("id", k)]);
      && (f.None? <==> Get(d, k).None?)
      && (f.Some? ==> Values(d)[f.value] == Get(d, k).value)
  {
    var f := FindSession(Values(d), [("id", k)]);
    forall s ensures Matches(s, [("id", k)]) <==> s.id == k {
      assert ("id", k) in [("id", k)];
    }
    if HasKey(d, k) {
      var i := KeyIndex(d, k).value;
      assert Matches(Values(d)[i], [("id", k)]);
      assert f.value == i;
    }
  }

  /** `messages.filter(m => m[column] === value)`. */
  function MessagesWhere(messages: seq<MockChatMessage>, column: string, value: string): (r: seq<MockChatMessage>)
    ensures forall m :: m in r <==> m in messages && MessageField(m, column) == Some(value)
    ensures |r| <= |messages|
  {
    if |messages| == 0 then []
    else (if MessageField(messages[0], column) == Some(value) then [messages[0]] else [])
         + MessagesWhere(messages[1..], column, value)
  }

  /** The messages left once a session's messages are gone, in their
      order. */
  function DropSession(messages: Dict<MockChatMessage>, sessionId: string): (r: Dict<MockChatMessage>)
    ensures |r| <= |messages|
  {
    if |messages| == 0 then []
    else (if messages[0].1.sessionId == sessionId then [] else [messages[0]]) + DropSession(messages[1..], sessionId)
  }

  /** The cascade keeps exactly the messages of other sessions. */
  lemma {:induction false} DropSessionMembers(messages: Dict<MockChatMessage>, sessionId: string)
    ensures forall e :: e in DropSession(messages, sessionId) <==> e in messages && e.1.sessionId != sessionId
  {
    if |messages| > 0 {
      DropSessionMembers(messages[1..], sessionId);
      assert messages == [messages[0]] + messages[1..];
    }
  }

  lemma {:induction false} DropSessionAppend(a: Dict<MockChatMessage>, b: Dict<MockChatMessage>, sessionId: string)
    ensures DropSession(a + b, sessionId) == DropSession(a, sessionId) + DropSession(b, sessionId)
  {
    if |a| > 0 {
      var head: Dict<MockChatMessage> := if a[0].1.sessionId == sessionId then [] else [a[0]];
      assert (a + b)[0] == a[0];
      assert (a + b)[1..] == a[1..] + b;
      DropSessionAppend(a[1..], b, sessionId);
      assert DropSession(a + b, sessionId) == head + DropSession(a[1..] + b, sessionId);
      assert DropSession(a, sessionId) == head + DropSession(a[1..], sessionId);
      assert head + (DropSession(a[1..], sessionId) + DropSession(b, sessionId))
          == (head + DropSession(a[1..], sessionId)) + DropSession(b, sessionId);
    } else {
      assert a + b == b;
    }
  }

  lemma {:induction false} RemoveAbsent<V(!new)>(d: Dict<V>, k: string)
    requires !HasKey(d, k)
    ensures Remove(d, k) == d
  {
    if |d| > 0 {
      assert d[0].0 != k;
      assert !HasKey(d[1..], k);
      RemoveAbsent(d[1..], k);
    }
  }

  lemma {:induction false} RemoveAppend<V(!new)>(x: Dict<V>, y: Dict<V>, k: string)
    ensures Remove(x + y, k) == Remove(x, k) + Remove(y, k)
  {
    if |x| > 0 {
      assert (x + y)[1..] == x[1..] + y;
      RemoveAppend(x[1..], y, k);
    } else {
      assert x + y == y;
    }
  }

  /** Removing the one pair with key `e.0` from `a + [e] + b`. */
  lemma RemoveOnly<V(!new)>(a: Dict<V>, e: (string, V), b: Dict<V>)
    requires !HasKey(a, e.0) && !HasKey(b, e.0)
    ensures Remove(a + [e] + b, e.0) == a + b
  {
    var k := e.0;
    assert Remove(a + [e] + b, k) == Remove(a + [e], k) + Remove(b, k) by {
      RemoveAppend(a + [e], b, k);
    }
    assert Remove(a + [e], k) == a by {
      RemoveAppend(a, [e], k);
      RemoveAbsent(a, k);
      assert [e][1..] == [];
      assert Remove([e], k) == [];
    }
    assert Remove(b, k) == b by {
      RemoveAbsent(b, k);
    }
  }

  /** One step of the cascade that deletes: the message at `i` belongs to
      the session and is the only pair with its key, so removing its key
      drops exactly that message. */
  lemma CascadeDrops(entries: Dict<MockChatMessage>, i: nat, sessionId: string)
    requires i < |entries| && entries[i].1.sessionId == sessionId
    requires !HasKey(entries[..i], entries[i].0) && !HasKey(entries[i + 1..], entries[i].0)
    ensures Remove(DropSession(entries[..i], sessionId) + entries[i..], entries[i].0)
              == DropSession(entries[..i + 1], sessionId) + entries[i + 1..]
  {
    var kept := DropSession(entries[..i], sessionId);
    var e := entries[i];
    var rest := entries[i + 1..];
    SliceAt(entries, i);
    assert DropSession(entries[..i + 1], sessionId) == kept by {
      DropSessionSnoc(entries[..i], e, sessionId);
      assert kept + [] == kept;
    }
    assert kept + ([e] + rest) == kept + [e] + rest;
    DropSessionNoKey(entries[..i], sessionId, e.0);
    RemoveOnly(kept, e, rest);
  }

  /** One step of the cascade that keeps: a message of another session
      stays where it is. */
  lemma CascadeKeeps(entries: Dict<MockChatMessage>, i: nat, sessionId: string)
    requires i < |entries| && entries[i].1.sessionId != sessionId
    ensures DropSession(entries[..i], sessionId) + entries[i..]
              == DropSession(entries[..i + 1], sessionId) + entries[i + 1..]
  {
    var kept := DropSession(entries[..i], sessionId);
    var e := entries[i];
    SliceAt(entries, i);
    assert DropSession(entries[..i + 1], sessionId) == kept + [e] by {
      DropSessionSnoc(entries[..i], e, sessionId);
    }
    assert kept + ([e] + entries[i + 1..]) == (kept + [e]) + entries[i + 1..];
  }

  /** Cutting a sequence around position `i`. */
  lemma SliceAt<T>(s: seq<T>, i: nat)
    requires i < |s|
    ensures s[i..] == [s[i]] + s[i + 1..]
    ensures s[..i + 1] == s[..i] + [s[i]]
  {
  }

  /** With distinct keys, the key at `i` occurs nowhere else. */
  lemma KeyOnlyAt<V>(d: Dict<V>, i: nat)
    requires DistinctKeys(d) && i < |d|
    ensures !HasKey(d[..i], d[i].0) && !HasKey(d[i + 1..], d[i].0)
  {
    var before, after := d[..i], d[i + 1..];
    forall j | 0 <= j < |before| ensures before[j].0 != d[i].0 {
      assert before[j] == d[j];
    }
    forall j | 0 <= j < |after| ensures after[j].0 != d[i].0 {
      assert after[j] == d[i + 1 + j];
    }
  }

  /** The cascade only ever drops pairs, so it brings in no key. */
  lemma DropSessionNoKey(d: Dict<MockChatMessage>, sessionId: string, k: string)
    requires !HasKey(d, k)
    ensures !HasKey(DropSession(d, sessionId), k)
  {
    var r := DropSession(d, sessionId);
    DropSessionMembers(d, sessionId);
    forall j | 0 <= j < |r| ensures r[j].0 != k {
      assert r[j] in r;
      var m :| 0 <= m < |d| && d[m] == r[j];
    }
  }

  /** The cascade on one more pair: the pair is dropped or kept. */
  lemma DropSessionSnoc(a: Dict<MockChatMessage>, e: (string, MockChatMessage), sessionId: string)
    ensures DropSession(a + [e], sessionId)
              == DropSession(a, sessionId) + (if e.1.sessionId == sessionId then [] else [e])
  {
    DropSessionAppend(a, [e], sessionId);
    assert [e][1..] == [];
  }

  // ---------------------------------------------------------------------
  // Storage and client

  /** `mockStorage`, shared by every client. */
  class MockStorage {
    var sessions: Dict<MockChatSession>
    var messages: Dict<MockChatMessage>

    /** Every row is stored under its own id, once. */
    ghost predicate Valid()
      reads this
    {
      && DistinctKeys(sessions) && DistinctKeys(messages)
      && KeyedById(sessions)
      && MessagesKeyedById(messages)
    }

    constructor ()
      ensures Valid() && sessions == [] && messages == []
    {
      sessions := [];
      messages := [];
    }
  }

  /** `setupTestEnv`: both dictionaries emptied (the environment variables
      it sets are not modelled). */
  method SetupTestEnv(storage: MockStorage)
    modifies storage
    ensures storage.Valid() && storage.sessions == [] && storage.messages == []
  {
    storage.sessions := [];
    storage.messages := [];
  }

  /** `data.f ?? fallback` for an insert payload given as its string fields. */
  function Field(data: map<string, string>, f: string, fallback: string): (r: string)
    ensures f in data ==> r == data[f]
    ensures f !in data ==> r == fallback
  {
    if f in data then data[f] else fallback
  }

  /** The fields an update payload can spread over a session. */
  datatype SessionPatch = SessionPatch(
    title: Option<string>, createdAt: Option<string>, isFavorite: Option<bool>, metadata: Option<Metadata>)

  /** `{ ...session, ...data, updated_at: now, id, user_id }`. */
  function Patched(s: MockChatSession, p: SessionPatch, now: string, id: string, userId: string): (r: MockChatSession)
    ensures r.id == id && r.userId == userId && r.updatedAt == now
    ensures r.title == p.title.GetOr(s.title) && r.createdAt == p.createdAt.GetOr(s.createdAt)
    ensures r.isFavorite == p.isFavorite.GetOr(s.isFavorite) && r.metadata == p.metadata.GetOr(s.metadata)
  {
    MockChatSession(id, userId, p.title.GetOr(s.title), p.createdAt.GetOr(s.createdAt), now,
                    p.isFavorite.GetOr(s.isFavorite), p.metadata.GetOr(s.metadata))
  }

  /** A client from `createMockSupabaseClient`. */
  class MockClient {
    const storage: MockStorage
    var lastData: Option<MockData>

    constructor (storage: MockStorage)
      ensures this.storage == storage && lastData == None
    {
      this.storage := storage;
      lastData := None;
    }

    /** `from(table).select().single()`: the last written row, once. */
    method SelectSingle() returns (reply: Reply)
      modifies this
      ensures old(lastData).Some? ==> reply == Reply(Some(One(old(lastData).value)), None)
      ensures old(lastData).None? ==> reply == Reply(None, None)
      ensures lastData == None
    {
      if lastData.Some? {
        reply := Reply(Some(One(lastData.value)), None);
        lastData := None;
      } else {
        reply := Reply(None, None);
      }
    }

    /** `from(table).select().eq(column, value).single()`. */
    function SelectEqSingle(table: string, column: string, value: string): (reply: Reply)
      reads storage
      ensures reply.error.None?
      ensures table == ChatSessions ==>
                (reply.data.Some? <==> exists j :: 0 <= j < |storage.sessions| && SessionField(storage.sessions[j].1, column) == Some(value))
      ensures table == ChatSessions && reply.data.Some? ==>
                reply.data.value.One? && reply.data.value.row.Session? && SessionField(reply.data.value.row.session, column) == Some(value)
      ensures table == ChatSessions && reply.data.Some? ==>
                var f := FindSession(Values(storage.sessions), [(column, value)]);
                f.Some? && reply.data.value.row.session == Values(storage.sessions)[f.value]
      ensures table == ChatMessages ==>
                && reply.data.Some? && reply.data.value.Many?
                && reply.data.value.rows == MessagesWhere(Values(storage.messages), column, value)
                && forall m :: m in reply.data.value.rows <==> m in Values(storage.messages) && MessageField(m, column) == Some(value)
      ensures table != ChatSessions && table != ChatMessages ==> reply.data.None?
    {
      if table == ChatSessions then
        var f := FindSession(Values(storage.sessions), [(column, value)]);
        assert f.None? <==> forall j :: 0 <= j < |storage.sessions| ==> SessionField(storage.sessions[j].1, column) != Some(value) by {
          assert forall j :: 0 <= j < |storage.sessions| ==> Values(storage.sessions)[j] == storage.sessions[j].1;
          assert forall s :: Matches(s, [(column, value)]) <==> SessionField(s, column) == Some(value) by {
            forall s ensures Matches(s, [(column, value)]) <==> SessionField(s, column) == Some(value) {
              assert (column, value) in [(column, value)];
            }
          }
        }
        if f.Some? then Reply(Some(One(Session(Values(storage.sessions)[f.value]))), None) else Reply(None, None)
      else if table == ChatMessages then
        Reply(Some(Many(MessagesWhere(Values(storage.messages), column, value))), None)
      else
        Reply(None, None)
    }

    /** `from(table).select().eq(c1, v1).eq(c2, v2).select().single()`. */
    function SelectEqEqSingle(table: string, c1: string, v1: string, c2: string, v2: string): (reply: Reply)
      reads storage
      ensures reply.error.None?
      ensures reply.data.Some? ==>
                && table == ChatSessions && reply.data.value.One? && reply.data.value.row.Session?
                && SessionField(reply.data.value.row.session, c1) == Some(v1)
                && SessionField(reply.data.value.row.session, c2) == Some(v2)
      ensures reply.data.Some? ==>
                var f := FindSession(Values(storage.sessions), [(c1, v1), (c2, v2)]);
                f.Some? && reply.data.value.row.session == Values(storage.sessions)[f.value]
      ensures table == ChatSessions && reply.data.None? ==>
                forall j :: 0 <= j < |storage.sessions| ==>
                  SessionField(storage.sessions[j].1, c1) != Some(v1) || SessionField(storage.sessions[j].1, c2) != Some(v2)
    {
      if table == ChatSessions then
        var f := FindSession(Values(storage.sessions), [(c1, v1), (c2, v2)]);
        if f.Some? then
          assert (c1, v1) in [(c1, v1), (c2, v2)] && (c2, v2) in [(c1, v1), (c2, v2)];
          Reply(Some(One(Session(Values(storage.sessions)[f.value]))), None)
        else
          assert forall j :: 0 <= j < |storage.sessions| ==> !Matches(Values(storage.sessions)[j], [(c1, v1), (c2, v2)]);
          assert forall j :: 0 <= j < |storage.sessions| ==> Values(storage.sessions)[j] == storage.sessions[j].1;
          Reply(None, None)
      else
        Reply(None, None)
    }

    /** `from(table).insert(data).select().single()`: the row gets the given
        id or a fresh one and its defaults, is stored under its id and
        becomes `lastData`, which the reply carries (and keeps). */
    method Insert(table: string, data: map<string, string>, freshId: string, now: string) returns (reply: Reply)
      requires storage.Valid()
      modifies this, storage
      ensures storage.Valid()
      ensures var id := Field(data, "id", freshId);
        && (table == ChatSessions ==>
              var row := MockChatSession(id, Field(data, "user_id", ""), Field(data, "title", ""), now, now, false, map[]);
              && storage.sessions == Put(old(storage.sessions), id, row)
              && storage.messages == old(storage.messages)
              && lastData == Some(Session(row)))
        && (table == ChatMessages ==>
              var row := MockChatMessage(id, Field(data, "session_id", ""), Field(data, "role", "user"),
                                         Field(data, "content", ""), now, map[]);
              && storage.messages == Put(old(storage.messages), id, row)
              && storage.sessions == old(storage.sessions)
              && lastData == Some(Message(row)))
        && (table != ChatSessions && table != ChatMessages ==>
              storage.sessions == old(storage.sessions) && storage.messages == old(storage.messages)
              && lastData == old(lastData))
      ensures reply.error.None?
      ensures lastData.Some? ==> reply.data == Some(One(lastData.value))
      ensures lastData.None? ==> reply.data.None?
    {
      var id := Field(data, "id", freshId);
      if table == ChatSessions {
        var row := MockChatSession(id, Field(data, "user_id", ""), Field(data, "title", ""), now, now, false, map[]);
        PutKeepsIds(storage.sessions, id, row);
        storage.sessions := Put(storage.sessions, id, row);
        lastData := Some(Session(row));
      }
      if table == ChatMessages {
        var row := MockChatMessage(id, Field(data, "session_id", ""), Field(data, "role", "user"),
                                   Field(data, "content", ""), now, map[]);
        PutKeepsMessageIds(storage.messages, id, row);
        storage.messages := Put(storage.messages, id, row);
        lastData := Some(Message(row));
      }
      reply := Reply(if lastData.Some? then Some(One(lastData.value)) else None, None);
    }

    /** `from(table).update(data).eq(column, value).eq(nestedColumn,
        nestedValue).select().single()`: only a `chat_sessions` update by
        `id` and `user_id` of a session that user owns goes through;
        anything else is "Record not found" and changes nothing. */
    method Update(table: string, patch: SessionPatch, column: string, value: string,
                  nestedColumn: string, nestedValue: string, now: string) returns (reply: Reply)
      requires storage.Valid()
      modifies this, storage
      ensures storage.Valid() && storage.messages == old(storage.messages)
      ensures var session := Get(old(storage.sessions), value);
        if table == ChatSessions && column == "id" && nestedColumn == "user_id"
           && session.Some? && session.value.userId == nestedValue
        then
          var row := Patched(session.value, patch, now, value, nestedValue);
          && storage.sessions == Put(old(storage.sessions), value, row)
          && lastData == Some(Session(row))
          && reply == Reply(Some(One(Session(row))), None)
        else
          && storage.sessions == old(storage.sessions)
          && lastData == old(lastData)
          && reply == Reply(None, Some(ErrorObject(RecordNotFound)))
    {
      if table == ChatSessions && column == "id" && nestedColumn == "user_id" {
        var session := Get(storage.sessions, value);
        if session.Some? && session.value.userId == nestedValue {
          var row := Patched(session.value, patch, now, value, nestedValue);
          PutKeepsIds(storage.sessions, value, row);
          storage.sessions := Put(storage.sessions, value, row);
          lastData := Some(Session(row));
          return Reply(Some(One(Session(row))), None);
        }
      }
      return Reply(None, Some(ErrorObject(RecordNotFound)));
    }

    /** `from(table).delete().eq(column, value).eq(nestedColumn,
        nestedValue)`: a `chat_sessions` delete by `id` and `user_id` of a
        session that user owns removes it and, one by one, every message of
        it; anything else is a no-op. The reply is always empty. */
    method Delete(table: string, column: string, value: string, nestedColumn: string, nestedValue: string)
      returns (reply: Reply)
      requires storage.Valid()
      modifies storage
      ensures storage.Valid()
      ensures reply == Reply(None, None)
      ensures var session := Get(old(storage.sessions), value);
        if table == ChatSessions && column == "id" && nestedColumn == "user_id"
           && session.Some? && session.value.userId == nestedValue
        then
          && storage.sessions == Remove(old(storage.sessions), value)
          && storage.messages == DropSession(old(storage.messages), value)
        else
          storage.sessions == old(storage.sessions) && storage.messages == old(storage.messages)
    {
      reply := Reply(None, None);
      if table == ChatSessions && column == "id" && nestedColumn == "user_id" {
        var session := Get(storage.sessions, value);
        if session.Some? && session.value.userId == nestedValue {
          storage.sessions := Remove(storage.sessions, value);
          RemoveKeepsIds(old(storage.sessions), value);
          var entries := storage.messages;
          for i := 0 to |entries|
            invariant storage.sessions == Remove(old(storage.sessions), value)
            invariant storage.messages == DropSession(entries[..i], value) + entries[i..]
          {
            if entries[i].1.sessionId == value {
              KeyOnlyAt(entries, i);
              CascadeDrops(entries, i, value);
              storage.messages := Remove(storage.messages, entries[i].0);
            } else {
              CascadeKeeps(entries, i, value);
            }
          }
          assert entries[..|entries|] == entries;
          DropSessionKeepsIds(entries, value);
        }
      }
    }
  }

  // ---------------------------------------------------------------------
  // The storage invariant under each write

  lemma PutKeepsIds(d: Dict<MockChatSession>, k: string, row: MockChatSession)
    requires DistinctKeys(d) && KeyedById(d)
    requires row.id == k
    ensures KeyedById(Put(d, k, row))
  {
    var r := Put(d, k, row);
    forall j | 0 <= j < |r| ensures r[j].1.id == r[j].0 {
      if j < |d| && d[j].0 != k {
      } else if j < |d| {
        var i := KeyIndex(d, k).value;
        assert i == j;
      }
    }
  }

  lemma PutKeepsMessageIds(d: Dict<MockChatMessage>, k: string, row: MockChatMessage)
    requires DistinctKeys(d) && MessagesKeyedById(d)
    requires row.id == k
    ensures MessagesKeyedById(Put(d, k, row))
  {
    var r := Put(d, k, row);
    forall j | 0 <= j < |r| ensures r[j].1.id == r[j].0 {
      if j < |d| && d[j].0 != k {
      } else if j < |d| {
        var i := KeyIndex(d, k).value;
        assert i == j;
      }
    }
  }

  lemma RemoveKeepsIds(d: Dict<MockChatSession>, k: string)
    requires KeyedById(d)
    ensures KeyedById(Remove(d, k))
  {
    var r := Remove(d, k);
    forall j | 0 <= j < |r| ensures r[j].1.id == r[j].0 {
      assert r[j] in d;
    }
  }

  lemma DropSessionKeepsIds(d: Dict<MockChatMessage>, sessionId: string)
    requires DistinctKeys(d) && MessagesKeyedById(d)
    ensures DistinctKeys(DropSession(d, sessionId))
    ensures MessagesKeyedById(DropSession(d, sessionId))
  {
    var r := DropSession(d, sessionId);
    DropSessionMembers(d, sessionId);
    forall j | 0 <= j < |r| ensures r[j].1.id == r[j].0 {
      assert r[j] in d;
    }
    DropSessionDistinct(d, sessionId);
  }

  lemma {:induction false} DropSessionDistinct(d: Dict<MockChatMessage>, sessionId: string)
    requires DistinctKeys(d)
    ensures DistinctKeys(DropSession(d, sessionId))
  {
    if |d| > 0 {
      DropSessionDistinct(d[1..], sessionId);
      var rest := DropSession(d[1..], sessionId);
      DropSessionMembers(d[1..], sessionId);
      forall e | e in rest ensures e.0 != d[0].0 {
        var j :| 0 <= j < |d[1..]| && d[1..][j] == e;
        assert d[j + 1] == e;
      }
    }
  }
}
