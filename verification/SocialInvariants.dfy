/** What holds of the contact tables, the invitations and the rate limits at every moment of every run. */
module SocialInvariants {
  import opened Common
  import opened SocialTables
  import opened SocialCalls
  import DmRace

  /** No rows, a connection each way, or one block with nothing opposite. */
  ghost predicate RowOk(contacts: Contacts, e: Edge) {
    && e.from != e.to
    && (IsBlock(contacts, e) ==> Reverse(e) !in contacts)
    && (IsConnection(contacts, e) ==> IsConnection(contacts, Reverse(e)))
  }

  ghost predicate ContactsOk(contacts: Contacts) {
    forall e | e in contacts :: RowOk(contacts, e)
  }

  predicate Blocked(contacts: Contacts, e: Edge) { IsBlock(contacts, e) || IsBlock(contacts, Reverse(e)) }

  /** Requests never lie beside a block, never pend both ways, and never pend between contacts. */
  ghost predicate RequestOk(contacts: Contacts, requests: Requests, e: Edge, now: int) {
    && e.from != e.to && e in requests && requests[e].createdAt <= now && !Blocked(contacts, e)
    && (IsPending(requests, e, now) ==> !IsPending(requests, Reverse(e), now) && !Connected(contacts, e.from, e.to))
  }

  ghost predicate RequestsOk(contacts: Contacts, requests: Requests, now: int) {
    forall e | e in requests :: RequestOk(contacts, requests, e, now)
  }

  /** At most 50 requests of a user pend, and at most 20 rows are younger than a day. */
  predicate WithinLimits(requests: Requests, user: SteamId, now: int) {
    && |PendingFrom(requests, user, now)| <= MAX_PENDING_REQUESTS
    && |CreatedSince(requests, user, now - RATE_WINDOW_MS)| <= MAX_REQUESTS_PER_DAY
  }

  ghost predicate LimitsOk(requests: Requests, now: int) {
    forall u: SteamId :: WithinLimits(requests, u, now)
  }

  /** A row of palette_invites, pending or declined. */
  ghost predicate InviteOk(contacts: Contacts, conversations: Conversations, k: InviteKey, i: Invite) {
    && IsPalette(conversations, k.palette)
    && IsMember(conversations, k.palette, i.inviter) && !IsMember(conversations, k.palette, k.invitee)
    && Connected(contacts, i.inviter, k.invitee)
  }

  ghost predicate InvitesOk(contacts: Contacts, conversations: Conversations, invites: Invites) {
    forall k | k in invites :: InviteOk(contacts, conversations, k, invites[k])
  }

  ghost predicate ConversationsOk(db: Db) {
    && (forall c | c in db.conversations :: c < db.nextId)
    && (forall c | c in db.conversations && db.conversations[c].Dm? ::
          db.conversations[c].pair.low < db.conversations[c].pair.high
          && db.conversations[c].pair in db.dms && db.dms[db.conversations[c].pair] == c)
    && (forall p | p in db.dms :: db.dms[p] in db.conversations && db.conversations[db.dms[p]].Dm? && db.conversations[db.dms[p]].pair == p)
  }

  ghost predicate DbOk(db: Db, now: int) {
    && ContactsOk(db.contacts)
    && RequestsOk(db.contacts, db.requests, now)
    && LimitsOk(db.requests, now)
    && InvitesOk(db.contacts, db.conversations, db.invites)
    && ConversationsOk(db)
  }

  // ---------------------------------------------------------------- time passing

  /** The two tests of liveness in the services and in the statements agree. */
  lemma SameLiveness(createdAt: int, declinedAt: Option<int>, now: int)
    ensures Live(createdAt, declinedAt, now) <==> declinedAt.None? && now - createdAt < REQUEST_TTL_MS
  {}

  lemma Fewer(requests: Requests, smaller: Requests, user: SteamId, now: int, later: int)
    requires now <= later
    requires forall e | e in smaller :: e in requests
    requires forall e | e in smaller && IsPending(smaller, e, later) :: IsPending(requests, e, now)
    requires forall e | e in smaller :: smaller[e].createdAt == requests[e].createdAt
    ensures |PendingFrom(smaller, user, later)| <= |PendingFrom(requests, user, now)|
    ensures |CreatedSince(smaller, user, later - RATE_WINDOW_MS)| <= |CreatedSince(requests, user, now - RATE_WINDOW_MS)|
  {
    SubsetIsSmaller(PendingFrom(smaller, user, later), PendingFrom(requests, user, now));
    SubsetIsSmaller(CreatedSince(smaller, user, later - RATE_WINDOW_MS), CreatedSince(requests, user, now - RATE_WINDOW_MS));
  }

  lemma LimitsSurvive(requests: Requests, smaller: Requests, now: int, later: int)
    requires LimitsOk(requests, now) && now <= later
    requires forall e | e in smaller :: e in requests && smaller[e].createdAt == requests[e].createdAt
    requires forall e | e in smaller && IsPending(smaller, e, later) :: IsPending(requests, e, now)
    ensures LimitsOk(smaller, later)
  {
    forall u: SteamId
      ensures WithinLimits(smaller, u, later)
    {
      assert WithinLimits(requests, u, now);
      Fewer(requests, smaller, u, now, later);
    }
  }

  /** Passing time alone breaks nothing. */
  lemma TimeKeeps(db: Db, now: int, later: int)
    requires DbOk(db, now) && now <= later
    ensures DbOk(db, later)
  {
    LimitsSurvive(db.requests, db.requests, now, later);
    forall e | e in db.requests
      ensures RequestOk(db.contacts, db.requests, e, later)
    {
      assert RequestOk(db.contacts, db.requests, e, now);
    }
  }

  // ---------------------------------------------------------------- requests

  lemma OneMore(requests: Requests, e: Edge, user: SteamId, now: int, at: int)
    ensures var more := requests[e := Request(now, None)];
            && |PendingFrom(more, user, at)| <= |PendingFrom(requests, user, at)| + (if user == e.from then 1 else 0)
    ensures var more := requests[e := Request(now, None)];
            && |CreatedSince(more, user, at)| <= |CreatedSince(requests, user, at)| + (if user == e.from then 1 else 0)
  {
    var more := requests[e := Request(now, None)];
    var extra := if user == e.from then {e} else {};
    SubsetIsSmaller(PendingFrom(more, user, at), PendingFrom(requests, user, at) + extra);
    SubsetIsSmaller(CreatedSince(more, user, at), CreatedSince(requests, user, at) + extra);
  }

  lemma PutKeepsLimits(requests: Requests, e: Edge, now: int, later: int)
    requires LimitsOk(requests, now) && now <= later && !OverLimit(requests, e.from, now, later)
    ensures LimitsOk(requests[e := Request(now, None)], later)
  {
    var more := requests[e := Request(now, None)];
    forall u: SteamId
      ensures WithinLimits(more, u, later)
    {
      assert WithinLimits(requests, u, now);
      Fewer(requests, requests, u, now, later);
      OneMore(requests, e, u, now, later);
      OneMore(requests, e, u, now, later - RATE_WINDOW_MS);
    }
  }

  lemma PutKeeps(db: Db, e: Edge, now: int, later: int)
    requires DbOk(db, now) && now <= later && e.from != e.to
    requires !OverLimit(db.requests, e.from, now, later)
    requires !Blocked(db.contacts, e) && !Connected(db.contacts, e.from, e.to) && !IsPending(db.requests, Reverse(e), now)
    ensures DbOk(PutRequest(db, e, now), later)
  {
    PutKeepsLimits(db.requests, e, now, later);
    var more := PutRequest(db, e, now).requests;
    forall x | x in more
      ensures RequestOk(db.contacts, more, x, later)
    {
      if x != e { assert RequestOk(db.contacts, db.requests, x, now); }
    }
  }

  lemma AcceptKeeps(db: Db, e: Edge, now: int)
    requires DbOk(db, now) && IsPending(db.requests, e, now)
    ensures DbOk(AcceptRequest(db, e, now), now)
    ensures var c := AcceptRequest(db, e, now).contacts;
            e !in db.contacts && Reverse(e) !in db.contacts
            && c == db.contacts[e := Contact(Ally, now)][Reverse(e) := Contact(Ally, now)]
  {
    var after := AcceptRequest(db, e, now);
    assert RequestOk(db.contacts, db.requests, e, now);
    LimitsSurvive(db.requests, after.requests, now, now);
    assert e in db.contacts ==> RowOk(db.contacts, e);
    assert Reverse(e) in db.contacts ==> RowOk(db.contacts, Reverse(e));
    forall x | x in after.contacts
      ensures RowOk(after.contacts, x)
    {
      if x in db.contacts { assert RowOk(db.contacts, x); }
    }
    forall x | x in after.requests
      ensures RequestOk(after.contacts, after.requests, x, now)
    {
      assert RequestOk(db.contacts, db.requests, x, now);
    }
    ConnectionsOnlyAdded(db.contacts, after.contacts, db.conversations, db.invites);
  }

  lemma ConnectionsOnlyAdded(contacts: Contacts, more: Contacts, conversations: Conversations, invites: Invites)
    requires InvitesOk(contacts, conversations, invites)
    requires forall e | IsConnection(contacts, e) :: IsConnection(more, e)
    ensures InvitesOk(more, conversations, invites)
  {
    forall k | k in invites
      ensures InviteOk(more, conversations, k, invites[k])
    {
      assert InviteOk(contacts, conversations, k, invites[k]);
    }
  }

  lemma DropKeeps(db: Db, smaller: Requests, now: int)
    requires DbOk(db, now)
    requires forall e | e in smaller :: e in db.requests && smaller[e].createdAt == db.requests[e].createdAt
    requires forall e | e in smaller && IsPending(smaller, e, now) :: IsPending(db.requests, e, now)
    ensures DbOk(db.(requests := smaller), now)
  {
    LimitsSurvive(db.requests, smaller, now, now);
    forall x | x in smaller
      ensures RequestOk(db.contacts, smaller, x, now)
    {
      assert RequestOk(db.contacts, db.requests, x, now);
    }
  }

  lemma DeclineOrWithdrawKeeps(db: Db, me: SteamId, other: SteamId, now: int)
    requires DbOk(db, now)
    ensures DbOk(DeclineOrWithdraw(db, me, other, now).db, now)
  {
    var after := DeclineOrWithdraw(db, me, other, now).db;
    DropKeeps(db, after.requests, now);
    assert after == db.(requests := after.requests);
  }

  // ---------------------------------------------------------------- ending and blocking

  /** Contacts may change on the pair `e` alone, if every request and invitation between the two goes. */
  lemma CutKeeps(db: Db, contacts: Contacts, e: Edge, now: int)
    requires DbOk(db, now) && e.from != e.to
    requires forall x | x != e && x != Reverse(e) :: (x in contacts <==> x in db.contacts) && (x in contacts ==> contacts[x] == db.contacts[x])
    requires (e in contacts ==> RowOk(contacts, e)) && (Reverse(e) in contacts ==> RowOk(contacts, Reverse(e)))
    ensures DbOk(db.(contacts := contacts, requests := db.requests - {e, Reverse(e)}, invites := WithoutInvitesBetween(db.invites, e)), now)
  {
    var requests := db.requests - {e, Reverse(e)};
    LimitsSurvive(db.requests, requests, now, now);
    forall x | x in contacts
      ensures RowOk(contacts, x)
    {
      if x != e && x != Reverse(e) { assert RowOk(db.contacts, x); }
    }
    forall x | x in requests
      ensures RequestOk(contacts, requests, x, now)
    {
      assert RequestOk(db.contacts, db.requests, x, now);
    }
    CutKeepsInvites(db, contacts, e);
  }

  lemma CutKeepsInvites(db: Db, contacts: Contacts, e: Edge)
    requires InvitesOk(db.contacts, db.conversations, db.invites)
    requires forall x | x != e && x != Reverse(e) :: (x in contacts <==> x in db.contacts) && (x in contacts ==> contacts[x] == db.contacts[x])
    ensures InvitesOk(contacts, db.conversations, WithoutInvitesBetween(db.invites, e))
  {
    forall k | k in WithoutInvitesBetween(db.invites, e)
      ensures InviteOk(contacts, db.conversations, k, db.invites[k])
    {
      assert InviteOk(db.contacts, db.conversations, k, db.invites[k]);
    }
  }

  lemma RemoveKeeps(db: Db, e: Edge, now: int)
    requires DbOk(db, now) && IsConnection(db.contacts, e)
    ensures DbOk(RemoveContact(db, e), now)
    ensures RemoveContact(db, e).contacts == db.contacts - {e, Reverse(e)}
  {
    assert RowOk(db.contacts, e);
    assert ConnectedRows(db.contacts, e) == {e, Reverse(e)};
    CutKeeps(db, db.contacts - {e, Reverse(e)}, e, now);
  }

  lemma BlockKeeps(db: Db, e: Edge, now: int)
    requires DbOk(db, now) && e.from != e.to
    ensures DbOk(Block(db, e, now), now)
  {
    CutKeeps(db, Block(db, e, now).contacts, e, now);
  }

  lemma BlocksOnlyLifted(contacts: Contacts, fewer: Contacts, requests: Requests, now: int)
    requires RequestsOk(contacts, requests, now)
    requires forall e | IsBlock(fewer, e) :: IsBlock(contacts, e)
    requires forall e | IsConnection(fewer, e) :: IsConnection(contacts, e)
    ensures RequestsOk(fewer, requests, now)
  {
    forall x | x in requests
      ensures RequestOk(fewer, requests, x, now)
    {
      assert RequestOk(contacts, requests, x, now);
    }
  }

  lemma UnblockKeeps(db: Db, e: Edge, now: int)
    requires DbOk(db, now) && IsBlock(db.contacts, e)
    ensures DbOk(Unblock(db, e), now)
  {
    var after := Unblock(db, e);
    assert RowOk(db.contacts, e);
    forall x | x in after.contacts
      ensures RowOk(after.contacts, x)
    {
      assert RowOk(db.contacts, x);
    }
    BlocksOnlyLifted(db.contacts, after.contacts, db.requests, now);
    ConnectionsOnlyAdded(db.contacts, after.contacts, db.conversations, db.invites);
  }

  lemma TierKeepsRows(contacts: Contacts, e: Edge, level: Level)
    requires ContactsOk(contacts) && IsConnection(contacts, e) && level != Imposter
    ensures ContactsOk(contacts[e := contacts[e].(level := level)])
  {
    var after := contacts[e := contacts[e].(level := level)];
    forall x | x in after
      ensures RowOk(after, x)
    {
      assert RowOk(contacts, x);
    }
  }

  lemma SetTierKeeps(db: Db, e: Edge, level: Level, now: int)
    requires DbOk(db, now)
    ensures DbOk(SetTier(db, e, level), now)
  {
    if level != Imposter && IsConnection(db.contacts, e) {
      var after := SetTier(db, e, level);
      TierKeepsRows(db.contacts, e, level);
      BlocksOnlyLifted(db.contacts, after.contacts, db.requests, now);
      ConnectionsOnlyAdded(db.contacts, after.contacts, db.conversations, db.invites);
    }
  }

  // ---------------------------------------------------------------- conversations and invitations

  lemma ConversationAddedKeeps(db: Db, after: Db, now: int)
    requires DbOk(db, now) && ConversationsOk(after)
    requires after == db.(conversations := after.conversations, dms := after.dms, nextId := after.nextId)
    requires forall c | c in db.conversations :: c in after.conversations && after.conversations[c] == db.conversations[c]
    ensures DbOk(after, now)
  {
    forall k | k in after.invites
      ensures InviteOk(after.contacts, after.conversations, k, after.invites[k])
    {
      assert InviteOk(db.contacts, db.conversations, k, db.invites[k]);
    }
  }

  lemma CreateDmKeeps(db: Db, first: SteamId, second: SteamId, now: int)
    requires DbOk(db, now) && first != second && DmRace.Canonical(first, second) !in db.dms
    ensures DbOk(CreateDm(db, DmRace.Canonical(first, second), now), now)
  {
    ConversationAddedKeeps(db, CreateDm(db, DmRace.Canonical(first, second), now), now);
  }

  lemma CreatePaletteKeeps(db: Db, name: string, creator: SteamId, now: int)
    requires DbOk(db, now)
    ensures DbOk(CreatePalette(db, name, creator, now), now)
  {
    ConversationAddedKeeps(db, CreatePalette(db, name, creator, now), now);
  }

  lemma PutInviteKeeps(db: Db, k: InviteKey, inviter: SteamId, now: int)
    requires DbOk(db, now) && IsPaletteOf(db, k.palette, inviter) && Connected(db.contacts, inviter, k.invitee)
    ensures DbOk(PutInvite(db, k, inviter, now), now)
  {
    var after := PutInvite(db, k, inviter, now);
    forall x | x in after.invites
      ensures InviteOk(db.contacts, db.conversations, x, after.invites[x])
    {
      if x in db.invites { assert InviteOk(db.contacts, db.conversations, x, db.invites[x]); }
    }
  }

  lemma {:induction false} InviteAllKeeps(db: Db, palette: ConversationId, name: string, me: SteamId, users: seq<SteamId>, now: int)
    requires DbOk(db, now) && IsPaletteOf(db, palette, me) && MayInvite(db.contacts, me, users)
    ensures var after := InviteAll(db, palette, name, me, users, now).db;
            DbOk(after, now) && after == db.(invites := after.invites)
    decreases |users|
  {
    if users != [] {
      var rest := users[..|users| - 1];
      assert forall u | u in rest :: u in users;
      InviteAllKeeps(db, palette, name, me, rest, now);
      assert users[|users| - 1] in users;
      PutInviteKeeps(InviteAll(db, palette, name, me, rest, now).db, InviteKey(palette, users[|users| - 1]), me, now);
    }
  }

  lemma JoinKeeps(db: Db, k: InviteKey, now: int)
    requires DbOk(db, now) && CanJoin(db, k, now)
    ensures DbOk(AcceptInvite(db, k, now), now)
  {
    var after := AcceptInvite(db, k, now);
    forall x | x in after.invites
      ensures InviteOk(after.contacts, after.conversations, x, after.invites[x])
    {
      assert InviteOk(db.contacts, db.conversations, x, db.invites[x]);
    }
  }

  lemma TurnDownKeeps(db: Db, k: InviteKey, now: int)
    requires DbOk(db, now)
    ensures DbOk(DeclineInvite(db, k, now), now)
  {
    var after := DeclineInvite(db, k, now);
    forall x | x in after.invites
      ensures InviteOk(after.contacts, after.conversations, x, after.invites[x])
    {
      assert InviteOk(db.contacts, db.conversations, x, db.invites[x]);
    }
  }

  // ---------------------------------------------------------------- every call

  lemma SendRequestKeeps(db: Db, me: SteamId, target: SteamId, now: int, later: int)
    requires DbOk(db, now) && now <= later
    ensures DbOk(SendRequest(db, me, target, now, later).db, later)
  {
    TimeKeeps(db, now, later);
    var answer := SendRequest(db, me, target, now, later).answer;
    if answer.Accepted? {
      AcceptKeeps(db, Edge(target, me), now);
      TimeKeeps(AcceptRequest(db, Edge(target, me), now), now, later);
    } else if SendRequest(db, me, target, now, later).events != [] {
      PutKeeps(db, Edge(me, target), now, later);
    }
  }

  lemma OpenPaletteKeeps(db: Db, me: SteamId, name: string, invitees: seq<SteamId>, now: int, later: int)
    requires DbOk(db, now)
    ensures DbOk(OpenPalette(db, me, name, invitees, now, later).db, now)
  {
    CreatePaletteKeeps(db, Trim(name), me, now);
    if MayInvite(db.contacts, me, Unique(invitees, me)) {
      InviteAllKeeps(CreatePalette(db, Trim(name), me, now), db.nextId, Trim(name), me, Unique(invitees, me), now);
    }
  }

  lemma ServeKeeps(db: Db, step: Step, now: int, later: int)
    requires DbOk(db, now) && now <= later
    ensures DbOk(Serve(db, step, now, later).db, later)
  {
    var after := Serve(db, step, now, later).db;
    match step {
      case SendRequestStep(me, other) => SendRequestKeeps(db, me, other, now, later);
      case AcceptStep(me, other) =>
        if after != db { AcceptKeeps(db, Edge(other, me), now); }
      case DeclineOrWithdrawStep(me, other) => DeclineOrWithdrawKeeps(db, me, other, now);
      case SetLevelStep(me, other, level) =>
        if me != other && level == Imposter { BlockKeeps(db, Edge(me, other), now); } else { SetTierKeeps(db, Edge(me, other), level, now); }
      case RemoveOrUnblockStep(me, other) =>
        if IsBlock(db.contacts, Edge(me, other)) {
          UnblockKeeps(db, Edge(me, other), now);
        } else if IsConnection(db.contacts, Edge(me, other)) {
          RemoveKeeps(db, Edge(me, other), now);
        }
      case OpenDmStep(me, other) =>
        if after != db { CreateDmKeeps(db, me, other, now); }
      case OpenPaletteStep(me, name, invitees) => OpenPaletteKeeps(db, me, name, invitees, now, later);
      case InviteStep(me, palette, other) =>
        if after != db { PutInviteKeeps(db, InviteKey(palette, other), me, now); }
      case JoinStep(me, palette) =>
        if CanJoin(db, InviteKey(palette, me), now) { JoinKeeps(db, InviteKey(palette, me), now); }
      case TurnDownStep(me, palette) => TurnDownKeeps(db, InviteKey(palette, me), now);
    }
    if !step.SendRequestStep? { TimeKeeps(after, now, later); }
  }
}
