/**
 * The chat repository over its table. The four reads and writes are one SQL statement each (two for a
 * retry and for a repeated delete), so each method is one atomic change of the table.
 */
module ChatStorage {
  import opened Common
  import opened MessageLog

  datatype AppendResult = AppendResult(message: Message, duplicate: bool)

  datatype DeletedMessage = DeletedMessage(conversation: ConversationId, message: MessageId)

  function Ids(page: seq<Message>): (ids: seq<MessageId>)
    ensures |ids| == |page| && forall i | 0 <= i < |page| :: ids[i] == page[i].id
  {
    if page == [] then [] else Ids(page[..|page| - 1]) + [page[|page| - 1].id]
  }

  /** A page as the port promises it: the `n` newest ids of `s`, oldest first, with their content. */
  ghost predicate IsPage(t: Table, s: set<MessageId>, n: nat, page: seq<Message>) {
    && IsNewest(s, n, Ids(page))
    && (forall i | 0 <= i < |page| :: page[i].id in t && page[i] == ToMessage(t, page[i].id))
  }

  function Reversed(q: seq<MessageId>): (r: seq<MessageId>) {
    seq(|q|, i requires 0 <= i < |q| => q[|q| - 1 - i])
  }

  /** ORDER BY id DESC LIMIT n: newest first. */
  function NewestFirst(s: set<MessageId>, n: nat): (rows: seq<MessageId>)
    ensures IsNewest(s, n, Reversed(rows))
  {
    var q := LastOf(s, n);
    assert Reversed(Reversed(q)) == q;
    Reversed(q)
  }

  lemma IdsAre(page: seq<Message>, ids: seq<MessageId>)
    requires |page| == |ids| && forall i | 0 <= i < |ids| :: page[i].id == ids[i]
    ensures Ids(page) == ids
  {}

  lemma RowsMakePage(t: Table, s: set<MessageId>, n: nat, rows: seq<MessageId>, page: seq<Message>)
    requires IsNewest(s, n, Reversed(rows)) && forall id | id in s :: id in t
    requires |page| == |rows| && forall i | 0 <= i < |rows| && rows[|rows| - 1 - i] in t :: page[i] == ToMessage(t, rows[|rows| - 1 - i])
    ensures IsPage(t, s, n, page)
  {
    var ids := Reversed(rows);
    forall i | 0 <= i < |page|
      ensures page[i].id == ids[i] && page[i].id in t && page[i] == ToMessage(t, page[i].id)
    {
      assert ids[i] in ids;
    }
    IdsAre(page, ids);
  }

  lemma RowsAreListed(s: set<MessageId>, n: nat, rows: seq<MessageId>)
    requires IsNewest(s, n, Reversed(rows))
    ensures forall id | id in rows :: id in s
  {
    forall id | id in rows
      ensures id in s
    {
      var i :| 0 <= i < |rows| && rows[i] == id;
      assert Reversed(rows)[|rows| - 1 - i] == id;
    }
  }

  /** One deletion report per listed id; ids that are not in the table have none. */
  function Report(t: Table, ids: seq<MessageId>): (deleted: seq<DeletedMessage>) {
    if ids == [] then []
    else
      var k := |ids| - 1;
      Report(t, ids[..k]) + (if ids[k] in t then [DeletedMessage(t[ids[k]].conversation, ids[k])] else [])
  }

  /** The report names a message exactly when it is a tombstone newer than `since` in one of `mine`. */
  lemma {:induction false} ReportNames(t: Table, ids: seq<MessageId>, d: DeletedMessage)
    ensures d in Report(t, ids) <==> d.message in ids && d.message in t && d.conversation == t[d.message].conversation
  {
    if ids != [] {
      var k := |ids| - 1;
      ReportNames(t, ids[..k], d);
      assert ids == ids[..k] + [ids[k]];
    }
  }

  class ChatRepository {
    var messages: Table
    var nextId: MessageId
    var members: map<ConversationId, set<SteamId>>

    ghost predicate Valid()
      reads this
    {
      && 0 < nextId
      && WellFormed(messages, nextId)
      && (forall id | id in messages :: messages[id].conversation in members)
    }

    /** An empty log over the conversations there are. */
    constructor (members: map<ConversationId, set<SteamId>>)
      ensures Valid() && messages == map[] && this.members == members
    {
      messages, nextId, this.members := map[], 1, members;
    }

    /** The caller's conversations: dm pairs and palette memberships alike. */
    function ConversationsOf(user: SteamId): (mine: set<ConversationId>)
      reads this
    {
      set c | c in members && user in members[c]
    }

    /**
     * INSERT ... ON CONFLICT DO NOTHING RETURNING, then a lookup when nothing came back. The identity
     * value is drawn before the conflict is found, so a retry leaves a gap. None is the exception for
     * a conversation that does not exist.
     */
    method Append(c: ConversationId, sender: SteamId, clientId: string, body: string, now: int)
      returns (r: Option<AppendResult>)
      requires Valid()
      modifies this`messages, this`nextId
      ensures Valid() && Evolves(old(messages), messages) && nextId == old(nextId) + 1
      ensures r.None? <==> c !in members
      ensures r.None? || r.value.duplicate ==> messages == old(messages)
      ensures r.Some? ==> r.value.message.id in messages && r.value.message == ToMessage(messages, r.value.message.id)
      ensures r.Some? ==> KeyOf(messages[r.value.message.id]) == Key(c, sender, clientId)
      ensures r.Some? ==> (r.value.duplicate <==> KeyTaken(old(messages), Key(c, sender, clientId)))
      ensures r.Some? && !r.value.duplicate ==>
                && r.value.message == Message(old(nextId), c, sender, clientId, body, now)
                && messages == old(messages)[old(nextId) := Row(c, sender, clientId, body, now, None)]
    {
      var id := nextId;
      var key := Key(c, sender, clientId);
      nextId := nextId + 1;
      EvolvesIsReflexive(messages);
      if c !in members {
        return None;
      }
      if existing :| existing in messages && KeyOf(messages[existing]) == key {
        return Some(AppendResult(ToMessage(messages, existing), true));
      }
      InsertingEvolves(messages, nextId, id, key, body, now);
      messages := messages[id := Row(c, sender, clientId, body, now, None)];
      return Some(AppendResult(ToMessage(messages, id), false));
    }

    method MessagesIn(rows: seq<MessageId>) returns (page: seq<Message>)
      requires forall id | id in rows :: id in messages
      ensures |page| == |rows| && forall i | 0 <= i < |rows| :: page[i] == ToMessage(messages, rows[i])
    {
      page := [];
      for i := 0 to |rows|
        invariant |page| == i && forall k | 0 <= k < i :: page[k] == ToMessage(messages, rows[k])
      {
        page := page + [ToMessage(messages, rows[i])];
      }
    }

    /** Rows arrive newest first; callers want oldest first. */
    method AscendingMessages(rows: seq<MessageId>) returns (page: seq<Message>)
      requires forall id | id in rows :: id in messages
      ensures |page| == |rows|
      ensures forall i | 0 <= i < |rows| :: page[i] == ToMessage(messages, rows[|rows| - 1 - i])
    {
      var read := MessagesIn(rows);
      page := ReverseInPlace(read);
    }

    method ReverseInPlace(q: seq<Message>) returns (page: seq<Message>)
      ensures |page| == |q| && forall k | 0 <= k < |q| :: page[k] == q[|q| - 1 - k]
    {
      page := q;
      var n, i := |page|, 0;
      while i < n / 2
        invariant 0 <= i <= n / 2 && |page| == n
        invariant forall k | 0 <= k < i :: page[k] == q[n - 1 - k] && page[n - 1 - k] == q[k]
        invariant forall k | i <= k < n - i :: page[k] == q[k]
      {
        page := page[i := page[n - 1 - i]][n - 1 - i := page[i]];
        i := i + 1;
      }
    }

    method NewestMessages(c: ConversationId, after: MessageId, count: nat) returns (page: seq<Message>)
      requires Valid()
      ensures IsPage(messages, LiveAfter(messages, c, after), count, page)
    {
      var found := LiveAfter(messages, c, after);
      var rows := NewestFirst(found, count);
      RowsAreListed(found, count, rows);
      page := AscendingMessages(rows);
      RowsMakePage(messages, found, count, rows, page);
    }

    method OlderMessages(c: ConversationId, before: MessageId, count: nat) returns (page: seq<Message>)
      requires Valid()
      ensures IsPage(messages, LiveBefore(messages, c, before), count, page)
    {
      var found := LiveBefore(messages, c, before);
      var rows := NewestFirst(found, count);
      RowsAreListed(found, count, rows);
      page := AscendingMessages(rows);
      RowsMakePage(messages, found, count, rows, page);
    }

    /** The update matches only a live row of this sender; otherwise tell "already gone" from "not yours". */
    method SoftDelete(c: ConversationId, id: MessageId, sender: SteamId, now: int) returns (outcome: DeleteOutcome)
      requires Valid()
      modifies this`messages
      ensures Valid() && Evolves(old(messages), messages)
      ensures outcome == Deleted <==> CanDelete(old(messages), c, id, sender)
      ensures outcome == Deleted ==> messages == MarkDeleted(old(messages), id, now) && messages[id].deletedAt == Some(now)
      ensures outcome != Deleted ==> messages == old(messages)
      ensures outcome != NotFound <==> id in messages && messages[id].conversation == c && messages[id].sender == sender
      ensures outcome != NotFound ==> messages[id].deletedAt.Some? && messages[id].text == ""
    {
      if CanDelete(messages, c, id, sender) {
        DeletingEvolves(messages, nextId, c, id, sender, now);
        messages := MarkDeleted(messages, id, now);
        return Deleted;
      }
      EvolvesIsReflexive(messages);
      var before := id in messages && messages[id].conversation == c && messages[id].sender == sender
                    && messages[id].deletedAt.Some?;
      outcome := if before then AlreadyDeleted else NotFound;
    }

    method ReportRows(rows: seq<MessageId>) returns (deleted: seq<DeletedMessage>)
      requires forall id | id in rows :: id in messages
      ensures deleted == Report(messages, rows)
    {
      deleted := [];
      for i := 0 to |rows|
        invariant deleted == Report(messages, rows[..i])
      {
        assert rows[i] in rows;
        assert rows[..i + 1][..i] == rows[..i];
        deleted := deleted + [DeletedMessage(messages[rows[i]].conversation, rows[i])];
      }
      assert rows[..|rows|] == rows;
    }

    /** Every tombstone newer than `since` in the member's conversations, by id. */
    method DeletedSince(member: SteamId, since: int) returns (deleted: seq<DeletedMessage>)
      requires Valid()
      ensures deleted == Report(messages, Ascending(DeletedAfter(messages, ConversationsOf(member), since)))
    {
      var found := DeletedAfter(messages, ConversationsOf(member), since);
      deleted := ReportRows(Ascending(found));
    }
  }
}
