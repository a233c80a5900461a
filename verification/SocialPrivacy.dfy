/**
 * What the services keep from users and what they give away: a block, and a decline of a request or an
 * invitation, are meant to look like a request or an invitation that still waits.
 */
module SocialPrivacy {
  import opened Common
  import opened SocialTables
  import opened SocialCalls
  import opened SocialInvariants
  import opened SocialGuarantees

  // ---------------------------------------------------------------- one answer

  /** A call that gets as far as the caller's limits. */
  predicate Asks(contacts: Contacts, me: SteamId, other: SteamId) {
    me != other && !IsBlock(contacts, Edge(me, other)) && !Connected(contacts, me, other)
  }

  /**
   * The answer to a request depends on the caller's own row and limits alone, unless the target has a
   * request pending to the caller: two worlds that differ in anything else give the same answer, and
   * with different limits they do exactly when the call gets no further than the caller's own row.
   */
  lemma AnswerHidesTheOtherSide(db: Db, twin: Db, me: SteamId, target: SteamId, now: int, later: int)
    requires ContactsOk(db.contacts) && ContactsOk(twin.contacts)
    requires LevelOf(db.contacts, me, target) == LevelOf(twin.contacts, me, target)
    requires !IsPending(db.requests, Edge(target, me), now) && !IsPending(twin.requests, Edge(target, me), now)
    ensures SendRequest(db, me, target, now, later).answer == SendRequest(twin, me, target, now, later).answer <==>
              (OverLimit(db.requests, me, now, later) <==> OverLimit(twin.requests, me, now, later)) || !Asks(db.contacts, me, target)
  {
    assert Edge(me, target) in db.contacts ==> RowOk(db.contacts, Edge(me, target));
    assert Edge(me, target) in twin.contacts ==> RowOk(twin.contacts, Edge(me, target));
  }

  /** For the other person, being blocked is being removed: the same rows, requests, invitations and events. */
  lemma BlockLooksLikeRemoval(db: Db, me: SteamId, other: SteamId, now: int)
    requires ContactsOk(db.contacts) && Connected(db.contacts, me, other)
    ensures var blocked, removed := SetLevel(db, me, other, Imposter, now), RemoveOrUnblock(db, me, other);
            && (forall x: Edge | x.from != me :: (x in blocked.db.contacts <==> x in removed.db.contacts)
                                           && (x in blocked.db.contacts ==> blocked.db.contacts[x] == removed.db.contacts[x]))
            && blocked.db.requests == removed.db.requests && blocked.db.invites == removed.db.invites
            && blocked.db.conversations == removed.db.conversations
            && (forall log, u: SteamId, o: SteamId | u != me :: Known(log + blocked.events, u, o) == Known(log + removed.events, u, o))
  {
    var blocked, removed := SetLevel(db, me, other, Imposter, now), RemoveOrUnblock(db, me, other);
    assert ConnectedRows(db.contacts, Edge(me, other)) == {Edge(me, other), Edge(other, me)};
    forall log: seq<Event>, u: SteamId, o: SteamId | u != me
      ensures Known(log + blocked.events, u, o) == Known(log + removed.events, u, o)
    {
      KnownTwo(log, blocked.events[0], blocked.events[1], u, o);
      KnownTwo(log, removed.events[0], removed.events[1], u, o);
    }
  }

  // ---------------------------------------------------------------- the answers after it

  /** Two worlds that differ in nothing the caller owns but the row of a request to `target`. */
  ghost predicate Alike(one: Db, two: Db, me: SteamId, target: SteamId, now: int) {
    && (forall e: Edge | e != Edge(target, me) :: LevelOf(one.contacts, e.from, e.to) == LevelOf(two.contacts, e.from, e.to))
    && (forall e: Edge | e != Edge(me, target) :: IsPending(one.requests, e, now) <==> IsPending(two.requests, e, now))
    && !IsConnection(one.contacts, Edge(me, target)) && !IsPending(one.requests, Edge(target, me), now)
  }

  /** In two such worlds the answers to a request to anyone differ exactly when the caller's limits do. */
  lemma OnlyLimitsTell(one: Db, two: Db, me: SteamId, target: SteamId, other: SteamId, now: int, later: int)
    requires Alike(one, two, me, target, now)
    ensures SendRequest(one, me, other, now, later).answer != SendRequest(two, me, other, now, later).answer <==>
              Asks(one.contacts, me, other) && !(OverLimit(one.requests, me, now, later) <==> OverLimit(two.requests, me, now, later))
  {
    assert forall e: Edge | e != Edge(target, me) ::
        (IsBlock(one.contacts, e) <==> IsBlock(two.contacts, e)) && (IsConnection(one.contacts, e) <==> IsConnection(two.contacts, e)) by {
      assert forall e: Edge :: e == Edge(e.from, e.to);
    }
  }

  /** Besides `requests`, one more row brings the caller to a limit: the fiftieth pending or the twentieth of the day. */
  predicate Fills(requests: Requests, me: SteamId, row: Request, now: int, later: int) {
    && !OverLimit(requests, me, now, later)
    && (|| (|PendingFrom(requests, me, later)| + 1 == MAX_PENDING_REQUESTS && Live(row.createdAt, row.declinedAt, later))
        || (|CreatedSince(requests, me, now - RATE_WINDOW_MS)| + 1 == MAX_REQUESTS_PER_DAY && row.createdAt > now - RATE_WINDOW_MS))
  }

  lemma OnePendingMore(requests: Requests, e: Edge, row: Request, at: int)
    requires e !in requests
    ensures |PendingFrom(requests[e := row], e.from, at)|
         == |PendingFrom(requests, e.from, at)| + (if Live(row.createdAt, row.declinedAt, at) then 1 else 0)
  {
    var before, after := PendingFrom(requests, e.from, at), PendingFrom(requests[e := row], e.from, at);
    assert e !in before;
    if Live(row.createdAt, row.declinedAt, at) { assert after == before + {e}; } else { assert after == before; }
  }

  lemma OneCreatedMore(requests: Requests, e: Edge, row: Request, at: int)
    requires e !in requests
    ensures |CreatedSince(requests[e := row], e.from, at)| == |CreatedSince(requests, e.from, at)| + (if row.createdAt > at then 1 else 0)
  {
    var before, after := CreatedSince(requests, e.from, at), CreatedSince(requests[e := row], e.from, at);
    assert e !in before;
    if row.createdAt > at { assert after == before + {e}; } else { assert after == before; }
  }

  lemma OverWithOneMore(requests: Requests, e: Edge, row: Request, now: int, later: int)
    requires e !in requests
    ensures OverLimit(requests[e := row], e.from, now, later) <==>
              OverLimit(requests, e.from, now, later) || Fills(requests, e.from, row, now, later)
  {
    OnePendingMore(requests, e, row, later);
    OneCreatedMore(requests, e, row, now - RATE_WINDOW_MS);
  }

  lemma BlockLeavesAnswer(db: Db, me: SteamId, target: SteamId, now: int, later: int)
    requires DbOk(db, now) && now <= later
    requires SendRequest(db, me, target, now, later).events == [ContactRequested(target, me, now)]
    ensures var twin := Block(db, Edge(target, me), now);
            SendRequest(twin, me, target, now, later) == Done(Pending, twin, [])
    ensures Edge(me, target) !in db.contacts && Edge(target, me) !in db.contacts
  {
    var twin := Block(db, Edge(target, me), now);
    assert Edge(me, target) in db.contacts ==> RowOk(db.contacts, Edge(me, target));
    assert Edge(target, me) in db.contacts ==> RowOk(db.contacts, Edge(target, me));
    SubsetIsSmaller(PendingFrom(twin.requests, me, later), PendingFrom(db.requests, me, later));
    SubsetIsSmaller(CreatedSince(twin.requests, me, now - RATE_WINDOW_MS), CreatedSince(db.requests, me, now - RATE_WINDOW_MS));
  }

  lemma SameWithoutTheirs(requests: Requests, me: SteamId, e: Edge, now: int, later: int)
    requires e.from != me
    ensures OverLimit(requests - {e}, me, now, later) <==> OverLimit(requests, me, now, later)
  {
    assert PendingFrom(requests - {e}, me, later) == PendingFrom(requests, me, later);
    assert CreatedSince(requests - {e}, me, now - RATE_WINDOW_MS) == CreatedSince(requests, me, now - RATE_WINDOW_MS);
  }

  /**
   * A request to someone who has blocked the caller gets the answer of one that goes out, but only the
   * latter writes a row. The next answer, whoever the request goes to, gives the block away exactly when
   * that row is the one that brings the caller to a limit; the caller can count the other rows.
   */
  lemma BlockShowsNextIff(db: Db, me: SteamId, target: SteamId, other: SteamId, now: int, later: int, at: int, last: int)
    requires DbOk(db, now) && now <= later <= at <= last
    requires SendRequest(db, me, target, now, later).events == [ContactRequested(target, me, now)]
    ensures var twin := Block(db, Edge(target, me), now);
            var sent, dropped := SendRequest(db, me, target, now, later), SendRequest(twin, me, target, now, later);
            && sent.answer == dropped.answer == Pending
            && (SendRequest(sent.db, me, other, at, last).answer != SendRequest(dropped.db, me, other, at, last).answer <==>
                  Asks(db.contacts, me, other) && Fills(db.requests - {Edge(me, target)}, me, Request(now, None), at, last))
  {
    var mine, theirs := Edge(me, target), Edge(target, me);
    var twin := Block(db, theirs, now);
    BlockLeavesAnswer(db, me, target, now, later);
    LimitsAfterwards(db.requests, me, target, now, at, last);
    assert SendRequest(db, me, target, now, later) == Done(Pending, PutRequest(db, mine, now), [ContactRequested(target, me, now)]);
    BlockedAlike(db, me, target, now, at);
    OnlyLimitsTell(PutRequest(db, mine, now), twin, me, target, other, at, last);
  }

  lemma BlockedAlike(db: Db, me: SteamId, target: SteamId, now: int, at: int)
    requires me != target && now <= at && !IsPending(db.requests, Edge(target, me), now)
    requires Edge(me, target) !in db.contacts && Edge(target, me) !in db.contacts
    ensures Alike(PutRequest(db, Edge(me, target), now), Block(db, Edge(target, me), now), me, target, at)
  {}

  /** The caller's limits once the request has gone out, and once it has been dropped for a block. */
  lemma LimitsAfterwards(requests: Requests, me: SteamId, target: SteamId, now: int, at: int, last: int)
    requires me != target
    ensures var mine, theirs := Edge(me, target), Edge(target, me);
            && (OverLimit(requests[mine := Request(now, None)], me, at, last) <==>
                  OverLimit(requests - {mine}, me, at, last) || Fills(requests - {mine}, me, Request(now, None), at, last))
            && (OverLimit(requests - {theirs, mine}, me, at, last) <==> OverLimit(requests - {mine}, me, at, last))
  {
    var mine, theirs := Edge(me, target), Edge(target, me);
    var base := requests - {mine};
    assert requests[mine := Request(now, None)] == base[mine := Request(now, None)];
    OverWithOneMore(base, mine, Request(now, None), at, last);
    assert requests - {theirs, mine} == base - {theirs};
    SameWithoutTheirs(base, me, theirs, at, last);
  }

  /** So many requests of user 1 to other people, all made at `at`. */
  function Rows(n: nat, at: int): Requests {
    if n == 0 then map[] else Rows(n - 1, at)[Edge(1, 10 + n) := Request(at, None)]
  }

  lemma {:induction false} RowsCount(n: nat, made: int, at: int)
    ensures forall e | e in Rows(n, made) :: e.from == 1 && 10 < e.to <= 10 + n && Rows(n, made)[e] == Request(made, None)
    ensures |PendingFrom(Rows(n, made), 1, at)| == (if Live(made, None, at) then n else 0)
    ensures |CreatedSince(Rows(n, made), 1, at)| == (if made > at then n else 0)
  {
    if n == 0 {
      assert PendingFrom(Rows(0, made), 1, at) == {} && CreatedSince(Rows(0, made), 1, at) == {};
    } else {
      RowsCount(n - 1, made, at);
      OnePendingMore(Rows(n - 1, made), Edge(1, 10 + n), Request(made, None), at);
      OneCreatedMore(Rows(n - 1, made), Edge(1, 10 + n), Request(made, None), at);
    }
  }

  function OnlyRequests(requests: Requests): Db { Db(map[], requests, map[], map[], map[], 1) }

  lemma RowsAreOk(n: nat, made: int, at: int)
    requires made <= at && n <= MAX_PENDING_REQUESTS && (made > at - RATE_WINDOW_MS ==> n <= MAX_REQUESTS_PER_DAY)
    ensures DbOk(OnlyRequests(Rows(n, made)), at)
  {
    RowsCount(n, made, at);
    RowsCount(n, made, at - RATE_WINDOW_MS);
    forall u: SteamId
      ensures WithinLimits(Rows(n, made), u, at)
    {
      if u != 1 {
        assert PendingFrom(Rows(n, made), u, at) == {} && CreatedSince(Rows(n, made), u, at - RATE_WINDOW_MS) == {};
      }
    }
  }

  lemma NineteenMade(made: nat)
    requires made == 19
    ensures var db := OnlyRequests(Rows(made, 1000));
            && DbOk(db, 1000) && Edge(1, 2) !in db.requests && Edge(2, 1) !in db.requests
            && !OverLimit(db.requests, 1, 1000, 1000) && Fills(db.requests, 1, Request(1000, None), 1000, 1000)
  {
    RowsAreOk(made, 1000, 1000);
    RowsCount(made, 1000, 1000);
    RowsCount(made, 1000, 1000 - RATE_WINDOW_MS);
  }

  /** With nineteen requests made today, asking user 2 and then user 3 tells user 1 whether user 2 has blocked them. */
  lemma BlockShows(made: nat)
    requires made == 19
    ensures var db := OnlyRequests(Rows(made, 1000));
            var twin := Block(db, Edge(2, 1), 1000);
            var sent, dropped := SendRequest(db, 1, 2, 1000, 1000), SendRequest(twin, 1, 2, 1000, 1000);
            && DbOk(db, 1000) && DbOk(twin, 1000) && sent.answer == dropped.answer == Pending
            && SendRequest(sent.db, 1, 3, 1000, 1000).answer != SendRequest(dropped.db, 1, 3, 1000, 1000).answer
  {
    NineteenMade(made);
    Nineteen(OnlyRequests(Rows(made, 1000)));
  }

  lemma Nineteen(db: Db)
    requires DbOk(db, 1000) && db == OnlyRequests(db.requests)
    requires Edge(1, 2) !in db.requests && Edge(2, 1) !in db.requests
    requires !OverLimit(db.requests, 1, 1000, 1000) && Fills(db.requests, 1, Request(1000, None), 1000, 1000)
    ensures var twin := Block(db, Edge(2, 1), 1000);
            var sent, dropped := SendRequest(db, 1, 2, 1000, 1000), SendRequest(twin, 1, 2, 1000, 1000);
            && DbOk(twin, 1000) && sent.answer == dropped.answer == Pending
            && SendRequest(sent.db, 1, 3, 1000, 1000).answer != SendRequest(dropped.db, 1, 3, 1000, 1000).answer
  {
    BlockKeeps(db, Edge(2, 1), 1000);
    assert db.requests - {Edge(1, 2)} == db.requests;
    BlockShowsNextIff(db, 1, 2, 3, 1000, 1000, 1000, 1000);
  }

  /**
   * A request declined not long ago answers like the same request still waiting, and either is dropped
   * silently when repeated; but a declined row is not counted as pending. The answer to a request to
   * anyone gives the decline away exactly when the waiting row would be the caller's fiftieth.
   */
  lemma DeclineShowsIff(db: Db, me: SteamId, target: SteamId, other: SteamId, created: int, declined: int, now: int, later: int)
    requires me != target && !IsConnection(db.contacts, Edge(me, target))
    requires !IsPending(db.requests, Edge(target, me), now)
    ensures var mine := Edge(me, target);
            var one, two := db.(requests := db.requests[mine := Request(created, None)]), db.(requests := db.requests[mine := Request(created, Some(declined))]);
            SendRequest(one, me, other, now, later).answer != SendRequest(two, me, other, now, later).answer <==>
              && Asks(db.contacts, me, other) && Live(created, None, later) && !OverLimit(two.requests, me, now, later)
              && |PendingFrom(db.requests - {mine}, me, later)| + 1 == MAX_PENDING_REQUESTS
  {
    var mine := Edge(me, target);
    var one, two := db.(requests := db.requests[mine := Request(created, None)]), db.(requests := db.requests[mine := Request(created, Some(declined))]);
    var base := db.requests - {mine};
    assert one.requests == base[mine := Request(created, None)] && two.requests == base[mine := Request(created, Some(declined))];
    OnePendingMore(base, mine, Request(created, None), later);
    OnePendingMore(base, mine, Request(created, Some(declined)), later);
    OneCreatedMore(base, mine, Request(created, None), now - RATE_WINDOW_MS);
    OneCreatedMore(base, mine, Request(created, Some(declined)), now - RATE_WINDOW_MS);
    OnlyLimitsTell(one, two, me, target, other, now, later);
  }

  /** With forty-nine older requests waiting, asking user 3 tells user 1 whether user 60 has just declined the fiftieth. */
  lemma DeclineShows(made: nat)
    requires made == 49
    ensures var at := RATE_WINDOW_MS + 1000;
            var one := OnlyRequests(Rows(made + 1, 1000));
            var two := DeclineOrWithdraw(one, 60, 1, at).db;
            && DbOk(one, at) && DbOk(two, at)
            && SendRequest(one, 1, 3, at, at).answer != SendRequest(two, 1, 3, at, at).answer
  {
    var at := RATE_WINDOW_MS + 1000;
    RowsCount(made, 1000, at);
    RowsCount(made, 1000, at - RATE_WINDOW_MS);
    RowsAreOk(made + 1, 1000, at);
    FiftiethDeclined(Rows(made, 1000), at);
  }

  lemma FiftiethDeclined(others: Requests, at: int)
    requires at == RATE_WINDOW_MS + 1000 && Edge(1, 60) !in others && Edge(60, 1) !in others
    requires |PendingFrom(others, 1, at)| == 49 && |CreatedSince(others, 1, at - RATE_WINDOW_MS)| == 0
    requires DbOk(OnlyRequests(others[Edge(1, 60) := Request(1000, None)]), at)
    ensures var one := OnlyRequests(others[Edge(1, 60) := Request(1000, None)]);
            var two := DeclineOrWithdraw(one, 60, 1, at).db;
            && DbOk(two, at) && SendRequest(one, 1, 3, at, at).answer != SendRequest(two, 1, 3, at, at).answer
  {
    var db := OnlyRequests(others);
    var one := OnlyRequests(others[Edge(1, 60) := Request(1000, None)]);
    DeclineOrWithdrawKeeps(one, 60, 1, at);
    assert others - {Edge(1, 60)} == others;
    OnePendingMore(others, Edge(1, 60), Request(1000, Some(at)), at);
    OneCreatedMore(others, Edge(1, 60), Request(1000, Some(at)), at - RATE_WINDOW_MS);
    assert DeclineOrWithdraw(one, 60, 1, at).db.requests == others[Edge(1, 60) := Request(1000, Some(at))];
    DeclineShowsIff(db, 1, 60, 3, 1000, at, at, at);
  }

  // ---------------------------------------------------------------- the list of outgoing requests

  predicate FreshlyDeclined(requests: Requests, e: Edge, now: int) {
    e in requests && requests[e].declinedAt.Some? && now - requests[e].declinedAt.value < DECLINE_COOLDOWN_MS
  }

  /**
   * The snapshot lists as outgoing what `PendingFrom` holds. After the answer "pending" the request is on
   * that list exactly when the target does not block the caller and has not declined lately.
   */
  lemma OutgoingShowsIff(db: Db, me: SteamId, target: SteamId, now: int, later: int)
    requires DbOk(db, now)
    requires SendRequest(db, me, target, now, later).answer == Pending
    ensures Edge(me, target) in PendingFrom(SendRequest(db, me, target, now, later).db.requests, me, now) <==>
              !IsBlock(db.contacts, Edge(target, me)) && !FreshlyDeclined(db.requests, Edge(me, target), now)
  {
    assert Edge(me, target) in db.requests ==> RequestOk(db.contacts, db.requests, Edge(me, target), now);
  }

  /** User 1 asks user 2 twice over: strangers see the request on the list, the blocked user does not. */
  lemma OutgoingShows()
    ensures var free := OnlyRequests(map[]);
            var blocked := free.(contacts := map[Edge(2, 1) := Contact(Imposter, 5)]);
            var sent, dropped := SendRequest(free, 1, 2, 10, 10), SendRequest(blocked, 1, 2, 10, 10);
            && sent.answer == dropped.answer == Pending
            && PendingFrom(sent.db.requests, 1, 10) == {Edge(1, 2)} && PendingFrom(dropped.db.requests, 1, 10) == {}
  {
    var none: Requests := map[];
    assert PendingFrom(none, 1, 10) == {} && CreatedSince(none, 1, 10 - RATE_WINDOW_MS) == {};
    assert Request(10, None).declinedAt.None?;
  }

  // ---------------------------------------------------------------- invitations

  lemma ShownAlike(db: Db, k: InviteKey, waiting: Invite, declined: Invite, at: int)
    requires IsPalette(db.conversations, k.palette)
    requires Live(waiting.createdAt, waiting.declinedAt, at) && declined.declinedAt.Some?
    ensures var one, two := db.(invites := db.invites[k := waiting]), db.(invites := db.invites[k := declined]);
            Get(one, k.palette, at) == Shown(Get(two, k.palette, at), CooldownActive, k.invitee)
  {
    InvitedAgain(db.invites, k, waiting, declined, at);
  }

  /** An invitation that is waiting, or was declined not long ago, is left as it is. */
  lemma NotInvitedAnew(db: Db, me: SteamId, k: InviteKey, now: int, later: int)
    requires IsPaletteOf(db, k.palette, me) && me != k.invitee && Connected(db.contacts, me, k.invitee)
    requires InviteOutcomeOf(db, k, now) != Created
    ensures InviteTo(db, me, k.palette, k.invitee, now, later).answer
         == PaletteInviteResult(Unchanged, Shown(Get(db, k.palette, later), InviteOutcomeOf(db, k, now), k.invitee))
  {}

  lemma InvitedAgain(invites: Invites, k: InviteKey, waiting: Invite, declined: Invite, at: int)
    requires Live(waiting.createdAt, waiting.declinedAt, at) && declined.declinedAt.Some?
    ensures Ascending(Invited(invites[k := waiting], k.palette, at))
         == Ascending(Elements(Ascending(Invited(invites[k := declined], k.palette, at))) + {k.invitee})
  {
    var shown, hidden := Invited(invites[k := waiting], k.palette, at), Invited(invites[k := declined], k.palette, at);
    assert k in invites[k := waiting];
    forall u | u in shown && u != k.invitee
      ensures u in hidden
    {
      assert InviteKey(k.palette, u) in invites[k := declined];
    }
    forall u | u in hidden
      ensures u in shown
    {
      assert InviteKey(k.palette, u) in invites[k := waiting];
    }
    assert shown == Elements(Ascending(hidden)) + {k.invitee};
  }

  predicate Refused(db: Db, me: SteamId, palette: ConversationId, other: SteamId) {
    !IsPaletteOf(db, palette, me) || me == other || !Connected(db.contacts, me, other)
  }

  lemma SameAnswerForInvitee(db: Db, me: SteamId, palette: ConversationId, invitee: SteamId,
                             waiting: Invite, declined: Invite, now: int, later: int)
    requires now <= later && IsPalette(db.conversations, palette) && !IsMember(db.conversations, palette, invitee)
    requires Live(waiting.createdAt, waiting.declinedAt, later)
    requires declined.declinedAt.Some? && now - declined.declinedAt.value < DECLINE_COOLDOWN_MS
    ensures var k := InviteKey(palette, invitee);
            var one, two := db.(invites := db.invites[k := waiting]), db.(invites := db.invites[k := declined]);
            InviteTo(one, me, palette, invitee, now, later).answer == InviteTo(two, me, palette, invitee, now, later).answer
  {
    var k := InviteKey(palette, invitee);
    var one, two := db.(invites := db.invites[k := waiting]), db.(invites := db.invites[k := declined]);
    if !Refused(db, me, palette, invitee) {
      assert InviteOutcomeOf(one, k, now) == AlreadyInvited && InviteOutcomeOf(two, k, now) == CooldownActive;
      NotInvitedAnew(one, me, k, now, later);
      NotInvitedAnew(two, me, k, now, later);
      ShownAlike(db, k, waiting, declined, later);
    }
  }

  /** The list of invitees a call to invite `other` answers with. */
  lemma AnswerLists(db: Db, me: SteamId, palette: ConversationId, other: SteamId, u: SteamId, now: int, later: int)
    requires !Refused(db, me, palette, other) && u != other
    ensures var view := InviteTo(db, me, palette, other, now, later).answer.conversation;
            view.Some? && (u in view.value.invited <==> IsInvited(db.invites, InviteKey(palette, u), later))
  {
    var after := PutInvite(db, InviteKey(palette, other), me, now);
    assert u in Invited(after.invites, palette, later) <==> IsInvited(db.invites, InviteKey(palette, u), later) by {
      if IsInvited(db.invites, InviteKey(palette, u), later) { assert InviteKey(palette, u) in after.invites; }
    }
  }

  /**
   * Whether an invitation waits or was declined not long ago, inviting the same person again gets the same
   * answer. Inviting anyone else does not: the answer lists those invited, and the list is patched for the
   * person asked for only. So the answers agree exactly for the decliner and for calls that are refused.
   */
  lemma DeclineLooksInvited(db: Db, me: SteamId, palette: ConversationId, invitee: SteamId, other: SteamId,
                            waiting: Invite, declined: Invite, now: int, later: int)
    requires now <= later && IsPalette(db.conversations, palette) && !IsMember(db.conversations, palette, invitee)
    requires Live(waiting.createdAt, waiting.declinedAt, later)
    requires declined.declinedAt.Some? && now - declined.declinedAt.value < DECLINE_COOLDOWN_MS
    ensures var k := InviteKey(palette, invitee);
            var one, two := db.(invites := db.invites[k := waiting]), db.(invites := db.invites[k := declined]);
            InviteTo(one, me, palette, other, now, later).answer == InviteTo(two, me, palette, other, now, later).answer <==>
              other == invitee || Refused(db, me, palette, other)
  {
    var k := InviteKey(palette, invitee);
    var one, two := db.(invites := db.invites[k := waiting]), db.(invites := db.invites[k := declined]);
    if other == invitee {
      SameAnswerForInvitee(db, me, palette, invitee, waiting, declined, now, later);
    } else if !Refused(db, me, palette, other) {
      AnswerLists(one, me, palette, other, invitee, now, later);
      AnswerLists(two, me, palette, other, invitee, now, later);
    }
  }

  /** The conversation as any member reads it, in a sync for instance, shows a decline at once. */
  lemma ViewShowsDecline(db: Db, k: InviteKey, waiting: Invite, declined: Invite, at: int)
    requires IsPalette(db.conversations, k.palette)
    requires Live(waiting.createdAt, waiting.declinedAt, at) && declined.declinedAt.Some?
    ensures var one, two := db.(invites := db.invites[k := waiting]), db.(invites := db.invites[k := declined]);
            k.invitee in Get(one, k.palette, at).value.invited && k.invitee !in Get(two, k.palette, at).value.invited
  {
    assert k in db.invites[k := waiting];
  }

  function Allies(a: SteamId, b: SteamId, c: SteamId): Contacts {
    map[Edge(a, b) := Contact(Ally, 1), Edge(b, a) := Contact(Ally, 1), Edge(a, c) := Contact(Ally, 1), Edge(c, a) := Contact(Ally, 1)]
  }

  /** Palette 1 of user 1, who is in contact with users 2 and 3 and has invited user 2. */
  function Inviting(invite: Invite): Db {
    Db(Allies(1, 2, 3), map[], map[1 := Palette("p", {1}, 1)], map[], map[InviteKey(1, 2) := invite], 2)
  }

  lemma InvitingIsOk(invite: Invite, at: int)
    requires invite.inviter == 1
    ensures DbOk(Inviting(invite), at) && !Refused(Inviting(invite), 1, 1, 3)
  {
    var none: Requests := map[];
    forall u: SteamId
      ensures WithinLimits(none, u, at)
    {
      assert PendingFrom(none, u, at) == {} && CreatedSince(none, u, at - RATE_WINDOW_MS) == {};
    }
  }

  /** User 1 has invited user 2; inviting user 3 next tells whether user 2 has declined. */
  lemma InviteShows()
    ensures var one, two := Inviting(Invite(1, 10, None)), Inviting(Invite(1, 10, Some(20)));
            && DbOk(one, 30) && DbOk(two, 30)
            && InviteTo(one, 1, 1, 3, 30, 30).answer != InviteTo(two, 1, 1, 3, 30, 30).answer
  {
    InvitingIsOk(Invite(1, 10, None), 30);
    InvitingIsOk(Invite(1, 10, Some(20)), 30);
    AnswerLists(Inviting(Invite(1, 10, None)), 1, 1, 3, 2, 30, 30);
    AnswerLists(Inviting(Invite(1, 10, Some(20))), 1, 1, 3, 2, 30, 30);
  }

  // ---------------------------------------------------------------- the time in the event

  /** The event of an invitation tells the time of its row exactly when the clock has not moved during the call. */
  lemma InviteEventTimeIff(db: Db, me: SteamId, palette: ConversationId, invitee: SteamId, now: int, later: int)
    requires InviteTo(db, me, palette, invitee, now, later).answer.outcome == NowInvited
    ensures var d := InviteTo(db, me, palette, invitee, now, later);
            && |d.events| == 1 && d.events[0].PaletteInviteChanged? && InviteKey(palette, invitee) in d.db.invites
            && (d.events[0].createdAt == d.db.invites[InviteKey(palette, invitee)].createdAt <==> later == now)
  {}

  /** A clock that moves on by a millisecond during the call is enough. */
  lemma InviteEventTimeDiffers()
    ensures var d := InviteTo(Inviting(Invite(1, 10, None)), 1, 1, 3, 30, 31);
            && d.events == [PaletteInviteChanged(3, 1, "p", 1, 31, true)]
            && InviteKey(1, 3) in d.db.invites && d.db.invites[InviteKey(1, 3)].createdAt == 30
  {}
}
