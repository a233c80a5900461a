/**
 * The message_data table and the statements that read and change it. Ids come from one identity
 * column for the whole server; a deleted row stays as a tombstone with its text emptied.
 */
module MessageLog {
  import opened Common

  type MessageId = nat

  datatype Row = Row(
    conversation: ConversationId,
    sender: SteamId,
    clientId: string,
    text: string,
    sentAt: int,
    deletedAt: Option<int>)

  type Table = map<MessageId, Row>

  datatype Message = Message(
    id: MessageId,
    conversation: ConversationId,
    sender: SteamId,
    clientId: string,
    text: string,
    createdAt: int)

  /** The idempotency key: UNIQUE (conversation_id, sender_steam_id, client_message_id). */
  datatype Key = Key(conversation: ConversationId, sender: SteamId, clientId: string)

  datatype DeleteOutcome = Deleted | AlreadyDeleted | NotFound

  function KeyOf(row: Row): Key { Key(row.conversation, row.sender, row.clientId) }

  function ToMessage(t: Table, id: MessageId): Message
    requires id in t
  {
    var r := t[id];
    Message(id, r.conversation, r.sender, r.clientId, r.text, r.sentAt)
  }

  predicate Live(t: Table, c: ConversationId, id: MessageId) {
    id in t && t[id].conversation == c && t[id].deletedAt.None?
  }

  function LiveAfter(t: Table, c: ConversationId, after: MessageId): set<MessageId> {
    set id | id in t && Live(t, c, id) && after < id
  }

  function LiveBefore(t: Table, c: ConversationId, before: MessageId): set<MessageId> {
    set id | id in t && Live(t, c, id) && id < before
  }

  /** Tombstones newer than `since`, over the conversations a member is in. */
  function DeletedAfter(t: Table, mine: set<ConversationId>, since: int): set<MessageId> {
    set id | id in t && t[id].conversation in mine && t[id].deletedAt.Some? && since < t[id].deletedAt.value
  }

  /** What the schema and the two writing statements keep true of the table. */
  ghost predicate WellFormed(t: Table, nextId: MessageId) {
    && (forall id | id in t :: 0 < id < nextId)
    && (forall a, b | a in t && b in t && KeyOf(t[a]) == KeyOf(t[b]) :: a == b)
    && (forall id | id in t && t[id].deletedAt.Some? :: t[id].text == "")
  }

  // ---------------------------------------------------------------- writing

  ghost predicate KeyTaken(t: Table, k: Key) {
    exists id :: id in t && KeyOf(t[id]) == k
  }

  ghost function Insert(t: Table, id: MessageId, k: Key, body: string, now: int): Table {
    t[id := Row(k.conversation, k.sender, k.clientId, body, now, None)]
  }

  predicate CanDelete(t: Table, c: ConversationId, id: MessageId, sender: SteamId) {
    Live(t, c, id) && t[id].sender == sender
  }

  /** UPDATE ... SET deleted_at, text_message = '' on a row that is still live. */
  function MarkDeleted(t: Table, id: MessageId, now: int): Table
    requires id in t
  {
    t[id := t[id].(deletedAt := Some(now), text := "")]
  }

  // ---------------------------------------------------------------- how a table may change

  /** The same message, possibly deleted in between; never undeleted and never changed otherwise. */
  predicate SameMessage(before: Row, after: Row) {
    && KeyOf(before) == KeyOf(after)
    && before.sentAt == after.sentAt
    && (before.deletedAt.Some? ==> after == before)
    && (before.deletedAt.None? ==> after == before || (after.deletedAt.Some? && after.text == ""))
  }

  /**
   * Everything a reader may rely on between two looks at the table: rows are never lost or altered,
   * and a row that appears is newer than every row of its conversation seen before.
   */
  ghost predicate Evolves(t: Table, u: Table) {
    && (forall id | id in t :: id in u && SameMessage(t[id], u[id]))
    && (forall prior, later | prior in t && later in u && later !in t && u[later].conversation == t[prior].conversation :: prior < later)
  }

  /** The half of it that is not deletion: new messages, and nothing else. */
  ghost predicate OnlyNewRows(t: Table, u: Table) {
    && Evolves(t, u)
    && (forall id | id in t :: u[id] == t[id])
    && (forall id | id in u && id !in t :: 0 < id && u[id].deletedAt.None?)
  }

  lemma EvolvesIsReflexive(t: Table)
    ensures Evolves(t, t)
  {}

  lemma EvolvesIsTransitive(t: Table, u: Table, v: Table)
    requires Evolves(t, u) && Evolves(u, v)
    ensures Evolves(t, v)
  {
    forall prior, later | prior in t && later in v && later !in t && v[later].conversation == t[prior].conversation
      ensures prior < later
    {
      if later in u {
        assert u[later].conversation == t[prior].conversation;
      } else {
        assert u[prior].conversation == t[prior].conversation;
      }
    }
  }

  lemma DeletingEvolves(t: Table, nextId: MessageId, c: ConversationId, id: MessageId, sender: SteamId, now: int)
    requires WellFormed(t, nextId) && CanDelete(t, c, id, sender)
    ensures Evolves(t, MarkDeleted(t, id, now)) && WellFormed(MarkDeleted(t, id, now), nextId)
    ensures !Live(MarkDeleted(t, id, now), c, id)
  {
    var u := MarkDeleted(t, id, now);
    assert u.Keys == t.Keys;
    assert forall x | x in t :: KeyOf(u[x]) == KeyOf(t[x]);
  }

  lemma InsertingEvolves(t: Table, nextId: MessageId, id: MessageId, k: Key, body: string, now: int)
    requires WellFormed(t, nextId) && 0 < id < nextId && id !in t && !KeyTaken(t, k)
    requires forall prior | prior in t && t[prior].conversation == k.conversation :: prior < id
    ensures OnlyNewRows(t, Insert(t, id, k, body, now)) && WellFormed(Insert(t, id, k, body, now), nextId)
  {
    var u := Insert(t, id, k, body, now);
    assert forall x | x in t :: u[x] == t[x];
    assert forall x | x in t :: KeyOf(t[x]) != k;
  }

  // ---------------------------------------------------------------- what follows for whole runs

  /** Any number of looks at the same table, in time order. */
  ghost predicate History(ts: seq<Table>) {
    forall i :: 0 <= i < |ts| - 1 ==> Evolves(ts[i], ts[i + 1])
  }

  lemma {:induction false} HistoryEvolves(ts: seq<Table>, i: nat, j: nat)
    requires History(ts) && i <= j < |ts|
    ensures Evolves(ts[i], ts[j])
    decreases j - i
  {
    if i == j {
      EvolvesIsReflexive(ts[i]);
    } else {
      HistoryEvolves(ts, i, j - 1);
      assert Evolves(ts[j - 1], ts[j - 1 + 1]);
      EvolvesIsTransitive(ts[i], ts[j - 1], ts[j]);
    }
  }

  /**
   * Idempotency: whenever the row of one key is looked up, at any two moments of a run, it is the
   * same message with the same timestamp.
   */
  lemma OneMessagePerKey(ts: seq<Table>, i: nat, j: nat, a: MessageId, b: MessageId, nextId: MessageId)
    requires History(ts) && i <= j < |ts| && WellFormed(ts[j], nextId)
    requires a in ts[i] && b in ts[j] && KeyOf(ts[i][a]) == KeyOf(ts[j][b])
    ensures a == b && ts[i][a].sentAt == ts[j][b].sentAt
  {
    HistoryEvolves(ts, i, j);
    assert SameMessage(ts[i][a], ts[j][a]);
  }

  /** A message once deleted is in no later read, and its text never comes back. */
  lemma DeletionIsForever(ts: seq<Table>, i: nat, j: nat, id: MessageId, c: ConversationId, n: MessageId, nextId: MessageId)
    requires History(ts) && i <= j < |ts| && WellFormed(ts[i], nextId)
    requires id in ts[i] && ts[i][id].deletedAt.Some?
    ensures id in ts[j] && ts[j][id] == ts[i][id] && ts[j][id].text == ""
    ensures id !in LiveAfter(ts[j], c, n) && id !in LiveBefore(ts[j], c, n)
  {
    HistoryEvolves(ts, i, j);
    assert SameMessage(ts[i][id], ts[j][id]);
  }

  /**
   * The visible ids of a conversation are prefix-closed in time: what appears between two looks is
   * above everything the first look showed, so "the highest id I hold" loses nothing.
   */
  lemma NothingAppearsBelow(ts: seq<Table>, i: nat, j: nat, seen: MessageId, appeared: MessageId)
    requires History(ts) && i <= j < |ts|
    requires seen in ts[i] && appeared in ts[j] && appeared !in ts[i]
    requires ts[j][appeared].conversation == ts[i][seen].conversation
    ensures seen < appeared
  {
    HistoryEvolves(ts, i, j);
  }
}
