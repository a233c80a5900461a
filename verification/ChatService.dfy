/**
 * The chat service, one whole call at a time: sending, catching up, scrolling back, deleting. The
 * interleavings of its calls are the subject of Delivery.
 */
module ChatServing {
  import opened Common
  import opened MessageLog
  import opened ChatStorage
  import opened RateLimiting
  import opened CatchUp
  import opened Paging

  const MAX_BODY_BYTES: nat := 4096
  const MAX_CLIENT_MESSAGE_ID_BYTES: nat := 64

  type ConnectionId = nat

  datatype RejectCode = Invalid | TooLong | NotMember | NotAllowed | RateLimited | Internal

  datatype SubmitResult = Stored(message: Message) | Duplicate(message: Message) | Rejected(code: RejectCode)

  datatype ChatEvent =
    | ChatDelivered(to: set<SteamId>, message: Message, except: ConnectionId)
    | MessageRemoved(members: set<SteamId>, conversation: ConversationId, id: MessageId)

  datatype SyncCursor = SyncCursor(conversation: ConversationId, after: MessageId)

  datatype SyncedConversation = SyncedConversation(
    conversation: ConversationId,
    writable: bool,
    reset: bool,
    hasMoreBefore: bool,
    messages: seq<Message>)

  datatype SyncResult = SyncResult(
    serverTime: int,
    deletedCursor: int,
    conversations: seq<SyncedConversation>,
    deleted: seq<DeletedMessage>)

  datatype HistoryPage = HistoryPage(member: bool, messages: seq<Message>, hasMoreBefore: bool)

  predicate IsBlank(text: string) {
    forall i | 0 <= i < |text| :: IsSpace(text[i])
  }

  predicate BadInput(clientId: string, body: string) {
    clientId == "" || |clientId| > MAX_CLIENT_MESSAGE_ID_BYTES || IsBlank(body)
  }

  /** The first member, in id order, who is someone else. */
  function PeerOf(members: set<SteamId>, me: SteamId): (peer: Option<SteamId>)
    ensures peer.None? <==> members <= {me}
    ensures peer.Some? ==> peer.value in members && peer.value != me && forall m | m in members && m != me :: peer.value <= m
  {
    assert forall m | m in members && m != me :: m in members - {me};
    if members - {me} == {} then None else Some(Minimum(members - {me}))
  }

  /** The first cursor the request names for this conversation. */
  function CursorIn(cursors: seq<SyncCursor>, c: ConversationId): (after: Option<MessageId>)
    ensures after.None? <==> forall k | 0 <= k < |cursors| :: cursors[k].conversation != c
    ensures after.Some? ==>
              exists k :: 0 <= k < |cursors| && cursors[k] == SyncCursor(c, after.value)
                          && forall j | 0 <= j < k :: cursors[j].conversation != c
  {
    assert cursors != [] ==> forall k | 1 <= k < |cursors| :: cursors[k] == cursors[1..][k - 1];
    if cursors == [] then None
    else if cursors[0].conversation == c then Some(cursors[0].after)
    else CursorIn(cursors[1..], c)
  }

  /** A tombstone stamped after the time asked with, in one of the caller's conversations. */
  predicate Reportable(d: DeletedMessage, t: Table, members: map<ConversationId, set<SteamId>>, me: SteamId, since: Option<int>) {
    && since.Some? && d.message in t && t[d.message].conversation == d.conversation
    && d.conversation in members && me in members[d.conversation]
    && t[d.message].deletedAt.Some? && since.value < t[d.message].deletedAt.value
  }

  lemma {:induction false} ReportInOrder(t: Table, ids: seq<MessageId>)
    requires forall id | id in ids :: id in t
    ensures |Report(t, ids)| == |ids| && forall i | 0 <= i < |ids| :: Report(t, ids)[i].message == ids[i]
  {
    if ids != [] {
      var k := |ids| - 1;
      assert ids[k] in ids && forall id | id in ids[..k] :: id in ids;
      ReportInOrder(t, ids[..k]);
    }
  }

  /** The report names exactly those, oldest message first. */
  ghost predicate ReportsExactly(
    report: seq<DeletedMessage>, t: Table, members: map<ConversationId, set<SteamId>>, me: SteamId, since: Option<int>)
  {
    && (forall d :: d in report <==> Reportable(d, t, members, me, since))
    && (forall i, j | 0 <= i < j < |report| :: report[i].message < report[j].message)
  }

  /** The times a sync answers, and which deletions it names. */
  ghost predicate AnswersSync(
    r: SyncResult, t: Table, members: map<ConversationId, set<SteamId>>, me: SteamId, since: Option<int>, now: int)
  {
    && r.serverTime == now
    && r.deletedCursor == (if 30000 < now then now - 30000 else 0)
    && ReportsExactly(r.deleted, t, members, me, since)
  }

  ghost predicate Lists(messages: seq<Message>, id: MessageId) {
    exists i :: 0 <= i < |messages| && messages[i].id == id
  }

  /** A live message of the conversation with an id above `after`. */
  predicate Pending(t: Table, c: ConversationId, after: MessageId, id: MessageId) {
    id in t && t[id].conversation == c && t[id].deletedAt.None? && after < id
  }

  /**
   * The entry of one conversation: a delta is everything after the cursor; a reset comes without a
   * cursor or when more than a page is pending, and is a full page up to the newest message.
   */
  ghost predicate EntryFor(e: SyncedConversation, t: Table, c: ConversationId, cursor: Option<MessageId>, limit: nat) {
    var after := if cursor.Some? then cursor.value else 0;
    && e.conversation == c
    && (forall i | 0 <= i < |e.messages| ::
          && Pending(t, c, after, e.messages[i].id)
          && var row := t[e.messages[i].id];
             e.messages[i] == Message(e.messages[i].id, c, row.sender, row.clientId, row.text, row.sentAt))
    && (forall i, j | 0 <= i < j < |e.messages| :: e.messages[i].id < e.messages[j].id)
    && |e.messages| <= limit
    && (e.reset <==> cursor.None? || exists id :: Pending(t, c, after, id) && !Lists(e.messages, id))
    && (e.hasMoreBefore <==> exists id :: Pending(t, c, after, id) && !Lists(e.messages, id))
    && (e.hasMoreBefore ==> |e.messages| == limit)
    && (forall id | Pending(t, c, after, id) && (e.messages == [] || e.messages[0].id <= id) :: Lists(e.messages, id))
  }

  /** The listed messages, with the content the table has for them. */
  function MessagesOf(t: Table, ids: seq<MessageId>): (messages: seq<Message>)
    requires forall id | id in ids :: id in t
    ensures |messages| == |ids| && forall i | 0 <= i < |ids| :: messages[i] == ToMessage(t, ids[i])
  {
    if ids == [] then []
    else
      var k := |ids| - 1;
      assert forall id | id in ids[..k] :: id in ids;
      MessagesOf(t, ids[..k]) + [ToMessage(t, ids[k])]
  }

  lemma KeptIds(rows: seq<Message>, n: nat)
    requires |rows| > n
    ensures Ids(rows[|rows| - n..]) == Ids(rows)[|Ids(rows)| - n..]
  {}

  lemma KeepNewest(t: Table, s: set<MessageId>, n: nat, rows: seq<Message>, kept: seq<Message>)
    requires IsPage(t, s, n + 1, rows) && forall id | id in s :: id in t
    requires kept == if |rows| > n then rows[|rows| - n..] else rows
    ensures kept == MessagesOf(t, Newest(s, n))
    ensures |rows| > n <==> |s| > n
  {
    var ids := Ids(rows);
    OneRowTooMany(s, n, ids);
    if |rows| > n {
      KeptIds(rows, n);
      assert Ids(kept) == ids[|ids| - n..];
    }
    assert forall m | m in kept :: m in rows;
    KeptContents(t, kept, Newest(s, n));
  }

  lemma KeptContents(t: Table, kept: seq<Message>, ids: seq<MessageId>)
    requires Ids(kept) == ids && forall m | m in kept :: m.id in t && m == ToMessage(t, m.id)
    requires forall id | id in ids :: id in t
    ensures kept == MessagesOf(t, ids)
  {
    forall i | 0 <= i < |kept|
      ensures kept[i] == MessagesOf(t, ids)[i]
    {
      assert kept[i] in kept && ids[i] == kept[i].id;
    }
  }

  /** The ids of a sync entry's page and its two flags, in the terms of `EntryFor`. */
  ghost predicate PageFor(s: Synced, t: Table, c: ConversationId, cursor: Option<MessageId>, limit: nat) {
    var after := if cursor.Some? then cursor.value else 0;
    && (forall id | id in s.page :: Pending(t, c, after, id))
    && Increasing(s.page) && |s.page| <= limit
    && (s.reset <==> cursor.None? || exists id :: Pending(t, c, after, id) && id !in s.page)
    && (s.hasMoreBefore <==> exists id :: Pending(t, c, after, id) && id !in s.page)
    && (s.hasMoreBefore ==> |s.page| == limit)
    && (forall id | Pending(t, c, after, id) && (s.page == [] || s.page[0] <= id) :: id in s.page)
  }

  lemma PageMeans(t: Table, c: ConversationId, cursor: Option<MessageId>, limit: nat)
    requires 0 < limit
    ensures PageFor(SyncOf(t, c, cursor, limit), t, c, cursor, limit)
  {
    var s := SyncOf(t, c, cursor, limit);
    var after := if cursor.Some? then cursor.value else 0;
    DeltaIsComplete(t, c, cursor, limit);
    assert forall id: MessageId :: Pending(t, c, after, id) <==> id in LiveAfter(t, c, after);
    if s.reset { ResetIsNewestPage(t, c, cursor, limit); }
  }

  lemma PageMakesEntry(e: SyncedConversation, t: Table, c: ConversationId, cursor: Option<MessageId>, limit: nat, s: Synced)
    requires PageFor(s, t, c, cursor, limit) && (forall id | id in s.page :: id in t)
    requires e == SyncedConversation(c, e.writable, s.reset, s.hasMoreBefore, MessagesOf(t, s.page))
    ensures EntryFor(e, t, c, cursor, limit)
  {
    assert forall i | 0 <= i < |s.page| :: s.page[i] in s.page && e.messages[i].id == s.page[i];
    forall id: MessageId
      ensures Lists(e.messages, id) <==> id in s.page
    {
      if id in s.page {
        var i :| 0 <= i < |s.page| && s.page[i] == id;
        assert e.messages[i].id == id;
      }
    }
  }

  /** The entries name the conversations of the caller, each once, in ascending order, and no others. */
  ghost predicate ListsMine(answers: seq<SyncedConversation>, members: map<ConversationId, set<SteamId>>, me: SteamId) {
    && (forall i, j | 0 <= i < j < |answers| :: answers[i].conversation < answers[j].conversation)
    && (forall i | 0 <= i < |answers| :: answers[i].conversation in members && me in members[answers[i].conversation])
    && (forall c | c in members && me in members[c] :: exists i :: 0 <= i < |answers| && answers[i].conversation == c)
  }

  lemma NamesListMine(members: map<ConversationId, set<SteamId>>, me: SteamId, mine: set<nat>, answers: seq<SyncedConversation>)
    requires forall c | c in members :: 0 < c
    requires forall c: nat :: c in mine <==> c in members && me in members[c]
    requires |answers| == |Ascending(mine)| && forall k | 0 <= k < |answers| :: answers[k].conversation == Ascending(mine)[k]
    ensures ListsMine(answers, members, me)
  {
    var ids := Ascending(mine);
    forall i | 0 <= i < |answers|
      ensures answers[i].conversation in members && me in members[answers[i].conversation]
    {
      assert ids[i] in ids;
    }
    forall c | c in members && me in members[c]
      ensures exists i :: 0 <= i < |answers| && answers[i].conversation == c
    {
      var n: nat := c;
      assert n in ids;
      var i :| 0 <= i < |ids| && ids[i] == n;
      assert answers[i].conversation == c;
    }
  }

  class ChatService {
    const chat: ChatRepository
    const rates: RateLimiter
    /** Which conversations are dms, and which pairs satisfy canCommunicate. */
    var dms: set<ConversationId>
    var connected: set<(SteamId, SteamId)>
    var events: seq<ChatEvent>

    ghost predicate Valid()
      reads this, chat
    {
      chat.Valid() && forall c | c in chat.members :: 0 < c
    }

    constructor (chat: ChatRepository, rates: RateLimiter, dms: set<ConversationId>, connected: set<(SteamId, SteamId)>)
      requires chat.Valid() && forall c | c in chat.members :: 0 < c
      ensures Valid() && this.chat == chat && this.rates == rates && this.dms == dms && this.connected == connected && events == []
    {
      this.chat, this.rates, this.dms, this.connected, events := chat, rates, dms, connected, [];
    }

    /** A palette is always open to its members; a dm only while the two are connected. */
    predicate Writable(c: ConversationId, me: SteamId, members: set<SteamId>)
      reads this
      ensures c !in dms ==> Writable(c, me, members)
      ensures c in dms ==> forall peer | peer != me && members == {me, peer} :: Writable(c, me, members) <==> (me, peer) in connected
    {
      assert forall peer | peer != me && members == {me, peer} :: peer in members;
      c in dms ==> PeerOf(members, me).Some? && (me, PeerOf(members, me).value) in connected
    }

    predicate IsMember(c: ConversationId, me: SteamId)
      reads chat
    {
      c in chat.members && me in chat.members[c]
    }

    method Submit(sender: SteamId, c: ConversationId, clientId: string, body: string, origin: ConnectionId, now: int)
      returns (r: SubmitResult)
      requires Valid()
      modifies chat`messages, chat`nextId, rates, this`events
      ensures Valid() && Evolves(old(chat.messages), chat.messages)
      ensures r == Rejected(Invalid) <==> clientId == "" || |clientId| > 64 || forall i | 0 <= i < |body| :: IsSpace(body[i])
      ensures r == Rejected(TooLong) <==> !BadInput(clientId, body) && |body| > 4096
      ensures var taken := !BadInput(clientId, body) && |body| <= 4096;
              var passed := taken && Passes(old(rates.BucketOf(sender)), now);
              var member := c in chat.members && sender in chat.members[c];
              && rates.buckets == (if taken then old(rates.buckets)[sender := Spend(old(rates.BucketOf(sender)), now)] else old(rates.buckets))
              && (r == Rejected(RateLimited) <==> taken && !passed)
              && (r == Rejected(NotMember) <==> passed && !member)
              && (r == Rejected(NotAllowed) <==> passed && member && !Writable(c, sender, chat.members[c]))
              && (r == Rejected(NotAllowed) ==> c in dms)
              && (passed && c in dms && member ==> forall peer | peer != sender && chat.members[c] == {sender, peer} ::
                    r == Rejected(NotAllowed) <==> (sender, peer) !in connected)
      ensures r != Rejected(Internal)
      ensures r.Rejected? || r.Duplicate? ==> chat.messages == old(chat.messages) && events == old(events)
      ensures !r.Rejected? ==>
                && r.message.id in chat.messages && r.message == ToMessage(chat.messages, r.message.id)
                && KeyOf(chat.messages[r.message.id]) == Key(c, sender, clientId)
                && (r.Duplicate? <==> KeyTaken(old(chat.messages), Key(c, sender, clientId)))
      ensures r.Stored? ==>
                && r.message.text == body && r.message.createdAt == now
                && (forall id | id in old(chat.messages) :: id < r.message.id)
                && chat.messages == old(chat.messages)[r.message.id := Row(c, sender, clientId, body, now, None)]
                && events == old(events) + [ChatDelivered(chat.members[c], r.message, origin)]
    {
      EvolvesIsReflexive(chat.messages);
      if BadInput(clientId, body) {
        return Rejected(Invalid);
      }
      if |body| > MAX_BODY_BYTES {
        return Rejected(TooLong);
      }
      var ok := rates.TakeToken(sender, now);
      if !ok {
        return Rejected(RateLimited);
      }
      if !IsMember(c, sender) {
        return Rejected(NotMember);
      }
      var members := chat.members[c];
      if !Writable(c, sender, members) {
        return Rejected(NotAllowed);
      }
      var appended := chat.Append(c, sender, clientId, body, now);
      if appended.value.duplicate {
        return Duplicate(appended.value.message);
      }
      events := events + [ChatDelivered(members, appended.value.message, origin)];
      return Stored(appended.value.message);
    }

    /** What a sync answers for one conversation of the caller: a full scan of the table, cut to a page. */
    ghost function SyncedOf(me: SteamId, c: ConversationId, cursors: seq<SyncCursor>, limit: nat): SyncedConversation
      requires IsMember(c, me)
      reads this, chat
    {
      var synced := SyncOf(chat.messages, c, CursorIn(cursors, c), limit);
      SyncedConversation(c, Writable(c, me, chat.members[c]), synced.reset, synced.hasMoreBefore, MessagesOf(chat.messages, synced.page))
    }

    method FindCursor(cursors: seq<SyncCursor>, c: ConversationId) returns (cursor: Option<MessageId>)
      ensures cursor == CursorIn(cursors, c)
    {
      var i := 0;
      while i < |cursors| && cursors[i].conversation != c
        invariant i <= |cursors| && CursorIn(cursors, c) == CursorIn(cursors[i..], c)
      {
        i := i + 1;
      }
      cursor := if i < |cursors| then Some(cursors[i].after) else None;
    }

    method SyncOne(me: SteamId, c: ConversationId, cursors: seq<SyncCursor>, limit: nat) returns (s: SyncedConversation)
      requires Valid() && IsMember(c, me)
      ensures s == SyncedOf(me, c, cursors, limit)
    {
      var cursor := FindCursor(cursors, c);
      var after := CursorOf(cursor);
      var rows := chat.NewestMessages(c, after, limit + 1);
      var moreThanAPage := |rows| > limit;
      var kept := if moreThanAPage then rows[|rows| - limit..] else rows;
      KeepNewest(chat.messages, LiveAfter(chat.messages, c, after), limit, rows, kept);
      var reset := cursor.None? || moreThanAPage;
      s := SyncedConversation(c, Writable(c, me, chat.members[c]), reset, reset && moreThanAPage, kept);
    }

    /** The entries for a list of conversations, in its order. */
    ghost function SyncedAll(me: SteamId, ids: seq<nat>, cursors: seq<SyncCursor>, limit: nat): (answers: seq<SyncedConversation>)
      requires forall c | c in ids :: IsMember(c, me)
      reads this, chat
      ensures |answers| == |ids|
    {
      if ids == [] then []
      else
        var k := |ids| - 1;
        assert ids[k] in ids && forall c | c in ids[..k] :: c in ids;
        SyncedAll(me, ids[..k], cursors, limit) + [SyncedOf(me, ids[k], cursors, limit)]
    }

    method SyncEach(me: SteamId, ids: seq<nat>, cursors: seq<SyncCursor>, limit: nat) returns (answers: seq<SyncedConversation>)
      requires Valid() && forall c | c in ids :: IsMember(c, me)
      ensures answers == SyncedAll(me, ids, cursors, limit)
    {
      answers := [];
      for i := 0 to |ids|
        invariant forall c | c in ids[..i] :: IsMember(c, me)
        invariant answers == SyncedAll(me, ids[..i], cursors, limit)
      {
        assert ids[..i + 1][..i] == ids[..i] && ids[..i + 1][i] == ids[i] && ids[i] in ids;
        var s := SyncOne(me, ids[i], cursors, limit);
        answers := answers + [s];
      }
      assert ids[..|ids|] == ids;
    }

    /** The caller's conversations; ids are positive. */
    function Mine(me: SteamId): set<nat>
      reads chat
    {
      set c: nat | c in chat.members && me in chat.members[c]
    }

    lemma AllMine(me: SteamId, c: ConversationId)
      requires Valid()
      ensures IsMember(c, me) <==> 0 <= c && c in Mine(me)
    {}

    /** Entries for everything the caller is a member of, smallest conversation id first. */
    method SyncMine(me: SteamId, cursors: seq<SyncCursor>, limit: nat) returns (answers: seq<SyncedConversation>)
      requires Valid()
      ensures answers == SyncedAll(me, Ascending(Mine(me)), cursors, limit)
    {
      answers := SyncEach(me, Ascending(Mine(me)), cursors, limit);
    }

    /** The tombstones a device asks for, by id; nothing when it does not ask. */
    ghost function ReportFor(me: SteamId, deletedSince: Option<int>): seq<DeletedMessage>
      reads chat
    {
      if deletedSince.None? then []
      else Report(chat.messages, Ascending(DeletedAfter(chat.messages, chat.ConversationsOf(me), deletedSince.value)))
    }

    method DeletedFor(me: SteamId, deletedSince: Option<int>) returns (deleted: seq<DeletedMessage>)
      requires Valid()
      ensures deleted == ReportFor(me, deletedSince)
      ensures ReportsExactly(deleted, chat.messages, chat.members, me, deletedSince)
    {
      deleted := [];
      if deletedSince.Some? {
        deleted := chat.DeletedSince(me, deletedSince.value);
      }
      ReportIsExact(me, deletedSince);
    }

    method Sync(me: SteamId, cursors: seq<SyncCursor>, deletedSince: Option<int>, limitRequested: int, now: int)
      returns (r: SyncResult)
      requires Valid()
      ensures AnswersSync(r, chat.messages, chat.members, me, deletedSince, now)
      ensures r.conversations == SyncedAll(me, Ascending(Mine(me)), cursors, ClampLimit(limitRequested))
    {
      var deleted := DeletedFor(me, deletedSince);
      assert ReportsExactly(deleted, chat.messages, chat.members, me, deletedSince);
      var answers := SyncMine(me, cursors, ClampLimit(limitRequested));
      r := SyncResult(now, DeletedCursorAt(now), answers, deleted);
    }

    lemma ReportIsExact(me: SteamId, deletedSince: Option<int>)
      ensures ReportsExactly(ReportFor(me, deletedSince), chat.messages, chat.members, me, deletedSince)
    {
      if deletedSince.Some? {
        var ids := Ascending(DeletedAfter(chat.messages, chat.ConversationsOf(me), deletedSince.value));
        ReportInOrder(chat.messages, ids);
        forall d
          ensures d in Report(chat.messages, ids) <==> Reportable(d, chat.messages, chat.members, me, deletedSince)
        {
          ReportNames(chat.messages, ids, d);
        }
      }
    }

    /** What an entry says, read off the table, the member lists and the request. */
    lemma EntryMeans(me: SteamId, c: ConversationId, cursors: seq<SyncCursor>, limit: nat)
      requires Valid() && IsMember(c, me) && 0 < limit
      ensures EntryFor(SyncedOf(me, c, cursors, limit), chat.messages, c, CursorIn(cursors, c), limit)
      ensures var e := SyncedOf(me, c, cursors, limit);
              && (c !in dms ==> e.writable)
              && (c in dms ==> forall peer | peer != me && chat.members[c] == {me, peer} :: e.writable <==> (me, peer) in connected)
    {
      var cursor := CursorIn(cursors, c);
      var s := SyncOf(chat.messages, c, cursor, limit);
      PageMeans(chat.messages, c, cursor, limit);
      PageMakesEntry(SyncedOf(me, c, cursors, limit), chat.messages, c, cursor, limit, s);
    }

    lemma {:induction false} SyncedAllAt(me: SteamId, ids: seq<nat>, cursors: seq<SyncCursor>, limit: nat, k: nat)
      requires k < |ids| && forall c | c in ids :: IsMember(c, me)
      ensures ids[k] in ids && SyncedAll(me, ids, cursors, limit)[k] == SyncedOf(me, ids[k], cursors, limit)
      decreases |ids|
    {
      var last := |ids| - 1;
      assert forall c | c in ids[..last] :: c in ids;
      if k < last { SyncedAllAt(me, ids[..last], cursors, limit, k); }
    }

    /** A sync answers for each conversation of the caller exactly once, in id order, with the right entry. */
    lemma SyncAnswersEach(me: SteamId, cursors: seq<SyncCursor>, limit: nat, c: ConversationId)
      requires Valid() && IsMember(c, me)
      ensures exists k :: 0 <= k < |Ascending(Mine(me))| && Ascending(Mine(me))[k] == c
                          && SyncedAll(me, Ascending(Mine(me)), cursors, limit)[k] == SyncedOf(me, c, cursors, limit)
    {
      AllMine(me, c);
      var ids := Ascending(Mine(me));
      var k :| 0 <= k < |ids| && ids[k] == c;
      SyncedAllAt(me, ids, cursors, limit, k);
    }

    lemma {:induction false} SyncedAllNames(me: SteamId, ids: seq<nat>, cursors: seq<SyncCursor>, limit: nat)
      requires forall c | c in ids :: IsMember(c, me)
      ensures var answers := SyncedAll(me, ids, cursors, limit);
              forall k | 0 <= k < |ids| :: answers[k].conversation == ids[k]
    {
      forall k | 0 <= k < |ids|
        ensures SyncedAll(me, ids, cursors, limit)[k].conversation == ids[k]
      {
        SyncedAllAt(me, ids, cursors, limit, k);
      }
    }

    /** The entries are those of the caller's conversations, each once, smallest id first. */
    lemma SyncListsMine(me: SteamId, cursors: seq<SyncCursor>, limit: nat)
      requires Valid()
      ensures ListsMine(SyncedAll(me, Ascending(Mine(me)), cursors, limit), chat.members, me)
    {
      SyncedAllNames(me, Ascending(Mine(me)), cursors, limit);
      NamesListMine(chat.members, me, Mine(me), SyncedAll(me, Ascending(Mine(me)), cursors, limit));
    }

    /** Every entry of a sync is right for its conversation. */
    lemma SyncEntryIsRight(me: SteamId, cursors: seq<SyncCursor>, limit: nat, i: nat)
      requires Valid() && 0 < limit && i < |SyncedAll(me, Ascending(Mine(me)), cursors, limit)|
      ensures var e := SyncedAll(me, Ascending(Mine(me)), cursors, limit)[i];
              EntryFor(e, chat.messages, e.conversation, CursorIn(cursors, e.conversation), limit)
    {
      var ids := Ascending(Mine(me));
      SyncedAllAt(me, ids, cursors, limit, i);
      EntryMeans(me, ids[i], cursors, limit);
    }

    method History(me: SteamId, c: ConversationId, before: MessageId, limitRequested: int) returns (page: HistoryPage)
      requires Valid()
      ensures page.member <==> c in chat.members && me in chat.members[c]
      ensures !page.member ==> page.messages == [] && !page.hasMoreBefore
      ensures page.member ==>
                var p := PageOf(chat.messages, c, before, ClampLimit(limitRequested));
                page.hasMoreBefore == p.hasMoreBefore && page.messages == MessagesOf(chat.messages, p.ids)
    {
      if !IsMember(c, me) {
        return HistoryPage(false, [], false);
      }
      var limit := ClampLimit(limitRequested);
      var rows := chat.OlderMessages(c, before, limit + 1);
      ghost var all := rows;
      var hasMoreBefore := false;
      if |rows| > limit {
        rows := rows[|rows| - limit..];
        hasMoreBefore := true;
      }
      KeepNewest(chat.messages, LiveBefore(chat.messages, c, before), limit, all, rows);
      return HistoryPage(true, rows, hasMoreBefore);
    }

    /** True: the message is deleted, now or earlier. Members are told only the first time. */
    method Remove(me: SteamId, c: ConversationId, id: MessageId, now: int) returns (removed: bool)
      requires Valid()
      modifies chat`messages, this`events
      ensures Valid() && Evolves(old(chat.messages), chat.messages)
      ensures removed <==> id in chat.messages && chat.messages[id].conversation == c && chat.messages[id].sender == me
      ensures removed ==> chat.messages[id].deletedAt.Some? && chat.messages[id].text == ""
      ensures var first := CanDelete(old(chat.messages), c, id, me);
              && chat.messages == (if first then MarkDeleted(old(chat.messages), id, now) else old(chat.messages))
              && events == old(events) + (if first then [MessageRemoved(chat.members[c], c, id)] else [])
    {
      var outcome := chat.SoftDelete(c, id, me, now);
      if outcome == NotFound {
        return false;
      }
      if outcome == Deleted {
        events := events + [MessageRemoved(chat.members[c], c, id)];
      }
      return true;
    }
  }

  // ---------------------------------------------------------------- one sync after another

  /**
   * Two syncs in a row, the second asked with the first one's deletion cursor: it names a tombstone of
   * the caller's conversations exactly when it is stamped after the first one's time less 30,000 ms.
   */
  lemma NextSyncReports(
    first: SyncResult, t: Table, tMembers: map<ConversationId, set<SteamId>>, since: Option<int>,
    second: SyncResult, u: Table, uMembers: map<ConversationId, set<SteamId>>, me: SteamId, id: MessageId)
    requires AnswersSync(first, t, tMembers, me, since, first.serverTime)
    requires AnswersSync(second, u, uMembers, me, Some(first.deletedCursor), second.serverTime)
    requires id in u && u[id].deletedAt.Some? && u[id].conversation in uMembers && me in uMembers[u[id].conversation]
    ensures DeletedMessage(u[id].conversation, id) in second.deleted <==>
              first.serverTime - 30000 < u[id].deletedAt.value && 0 < u[id].deletedAt.value
  {
    var d := DeletedMessage(u[id].conversation, id);
    assert d in second.deleted <==> Reportable(d, u, uMembers, me, Some(first.deletedCursor));
  }

  /** A device's syncs in time order, with the tables and member lists they were answered from. */
  ghost predicate AnswersFollow(
    rs: seq<SyncResult>, ts: seq<Table>, ms: seq<map<ConversationId, set<SteamId>>>, me: SteamId, i: nat)
    requires i < |rs| == |ts| == |ms|
  {
    AnswersSync(rs[i], ts[i], ms[i], me, if i == 0 then None else Some(rs[i - 1].deletedCursor), rs[i].serverTime)
  }

  ghost predicate SyncChain(rs: seq<SyncResult>, ts: seq<Table>, ms: seq<map<ConversationId, set<SteamId>>>, me: SteamId) {
    && |rs| == |ts| == |ms|
    && forall i | 0 <= i < |rs| :: AnswersFollow(rs, ts, ms, me, i)
  }

  ghost predicate DeletionVisible(t: Table, members: map<ConversationId, set<SteamId>>, me: SteamId, d: DeletedMessage, stamp: int) {
    && d.message in t && t[d.message].conversation == d.conversation && t[d.message].deletedAt == Some(stamp)
    && d.conversation in members && me in members[d.conversation]
  }

  /**
   * No deletion slips between syncs: stamped at `stamp` and visible to every sync that starts at
   * `landed` or later, less than 30,000 ms after the stamp, it is named by one of the syncs of a chain
   * that began before it landed and has gone past it.
   */
  lemma {:induction false} DeletionIsReported(
    rs: seq<SyncResult>, ts: seq<Table>, ms: seq<map<ConversationId, set<SteamId>>>, me: SteamId,
    d: DeletedMessage, stamp: int, landed: int, last: nat)
    requires SyncChain(rs, ts, ms, me) && last < |rs|
    requires rs[0].serverTime < landed <= rs[last].serverTime
    requires forall i | 0 <= i < |rs| && landed <= rs[i].serverTime :: DeletionVisible(ts[i], ms[i], me, d, stamp)
    requires 0 < stamp && landed - stamp < 30000
    ensures exists k :: 0 < k <= last && d in rs[k].deleted
    decreases last
  {
    assert last > 0;
    if landed <= rs[last - 1].serverTime {
      DeletionIsReported(rs, ts, ms, me, d, stamp, landed, last - 1);
    } else {
      assert AnswersFollow(rs, ts, ms, me, last) && AnswersFollow(rs, ts, ms, me, last - 1);
      assert DeletionVisible(ts[last], ms[last], me, d, stamp);
      NextSyncReports(rs[last - 1], ts[last - 1], ms[last - 1], if last == 1 then None else Some(rs[last - 2].deletedCursor),
                      rs[last], ts[last], ms[last], me, d.message);
      assert d == DeletedMessage(ts[last][d.message].conversation, d.message);
    }
  }
}
