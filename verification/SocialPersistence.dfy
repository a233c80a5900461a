/**
 * Calls across time: which ones end a block or a decline, make a member or bring two users into contact,
 * and what a request, an invitation or a decline leads to later.
 */
module SocialPersistence {
  import opened Common
  import opened SocialTables
  import opened SocialCalls
  import opened SocialInvariants
  import opened SocialGuarantees
  import opened SocialPrivacy

  /** The blocker lifts the block, or the blocked person blocks back. */
  predicate EndsBlock(step: Step, e: Edge) {
    step == RemoveOrUnblockStep(e.from, e.to) || step == SetLevelStep(e.to, e.from, Imposter)
  }

  lemma RequestsLeaveBlock(db: Db, a: SteamId, b: SteamId, now: int, later: int, e: Edge)
    requires DbOk(db, now) && IsBlock(db.contacts, e)
    ensures IsBlock(SendRequest(db, a, b, now, later).db.contacts, e)
    ensures IsBlock(Accept(db, a, b, now).db.contacts, e)
  {
    if SendRequest(db, a, b, now, later).answer.Accepted? { AcceptKeeps(db, Edge(b, a), now); }
    if Accept(db, a, b, now).answer { AcceptKeeps(db, Edge(b, a), now); }
  }

  lemma LevelsEndBlock(db: Db, step: Step, now: int, later: int, e: Edge)
    requires DbOk(db, now) && IsBlock(db.contacts, e) && (step.SetLevelStep? || step.RemoveOrUnblockStep?)
    ensures !IsBlock(Serve(db, step, now, later).db.contacts, e) <==> EndsBlock(step, e)
  {
    assert RowOk(db.contacts, e);
  }

  /**
   * A block does not last until its owner lifts it: the other side's own block takes it away. These two
   * calls, and no others, end it.
   */
  lemma BlockEndsIff(db: Db, step: Step, now: int, later: int, e: Edge)
    requires DbOk(db, now) && IsBlock(db.contacts, e)
    ensures !IsBlock(Serve(db, step, now, later).db.contacts, e) <==> EndsBlock(step, e)
  {
    match step
    case SendRequestStep(me, other) => RequestsLeaveBlock(db, me, other, now, later, e);
    case AcceptStep(me, other) => RequestsLeaveBlock(db, me, other, now, later, e);
    case DeclineOrWithdrawStep(_, _) =>
    case SetLevelStep(_, _, _) => LevelsEndBlock(db, step, now, later, e);
    case RemoveOrUnblockStep(_, _) => LevelsEndBlock(db, step, now, later, e);
    case _ => OthersLeaveContacts(db, step, now, later);
  }

  /** The sender withdraws, either side blocks, or a connection between the two ends. */
  predicate EndsDecline(contacts: Contacts, step: Step, e: Edge) {
    || step == DeclineOrWithdrawStep(e.from, e.to)
    || step == SetLevelStep(e.from, e.to, Imposter)
    || step == SetLevelStep(e.to, e.from, Imposter)
    || (Connected(contacts, e.from, e.to) && (step == RemoveOrUnblockStep(e.from, e.to) || step == RemoveOrUnblockStep(e.to, e.from)))
  }

  ghost predicate StillDeclined(requests: Requests, e: Edge, declinedAt: int) {
    e in requests && requests[e].declinedAt == Some(declinedAt)
  }

  lemma RequestsLeaveDecline(db: Db, a: SteamId, b: SteamId, now: int, later: int, e: Edge, declinedAt: int)
    requires StillDeclined(db.requests, e, declinedAt) && now - declinedAt < DECLINE_COOLDOWN_MS
    ensures StillDeclined(SendRequest(db, a, b, now, later).db.requests, e, declinedAt)
    ensures StillDeclined(Accept(db, a, b, now).db.requests, e, declinedAt)
  {}

  lemma LevelsEndDecline(db: Db, step: Step, now: int, later: int, e: Edge, declinedAt: int)
    requires DbOk(db, now) && StillDeclined(db.requests, e, declinedAt) && (step.SetLevelStep? || step.RemoveOrUnblockStep?)
    ensures !StillDeclined(Serve(db, step, now, later).db.requests, e, declinedAt) <==> EndsDecline(db.contacts, step, e)
  {
    assert RequestOk(db.contacts, db.requests, e, now);
    assert Edge(e.from, e.to) == e;
    if step.RemoveOrUnblockStep? && Edge(step.me, step.other) in db.contacts {
      var pair := Edge(step.me, step.other);
      assert RowOk(db.contacts, pair);
      if IsConnection(db.contacts, pair) {
        assert pair in ConnectedRows(db.contacts, pair);
      }
    }
  }

  lemma PaletteLeavesRequests(db: Db, me: SteamId, name: string, invitees: seq<SteamId>, now: int, later: int)
    ensures OpenPalette(db, me, name, invitees, now, later).db.requests == db.requests
  {
    InviteAllSays(CreatePalette(db, Trim(name), me, now), db.nextId, Trim(name), me, Unique(invitees, me), now);
  }

  lemma JoinLeavesRequests(db: Db, me: SteamId, palette: ConversationId, now: int, later: int)
    ensures Join(db, me, palette, now, later).db.requests == db.requests
  {}

  /** The conversation calls leave requests alone. */
  lemma OthersLeaveRequests(db: Db, step: Step, now: int, later: int)
    requires !OnContacts(step)
    ensures Serve(db, step, now, later).db.requests == db.requests
  {
    match step
    case OpenPaletteStep(me, name, invitees) => PaletteLeavesRequests(db, me, name, invitees, now, later);
    case JoinStep(me, palette) => JoinLeavesRequests(db, me, palette, now, later);
    case _ =>
  }

  /**
   * While a decline is fresh it keeps the sender's requests back, but not for good: exactly these calls
   * make the server forget it, the sender's own withdrawal among them.
   */
  lemma DeclineForgottenIff(db: Db, step: Step, now: int, later: int, e: Edge, declinedAt: int)
    requires DbOk(db, now) && StillDeclined(db.requests, e, declinedAt) && now - declinedAt < DECLINE_COOLDOWN_MS
    ensures !StillDeclined(Serve(db, step, now, later).db.requests, e, declinedAt) <==> EndsDecline(db.contacts, step, e)
  {
    match step
    case SendRequestStep(me, other) => RequestsLeaveDecline(db, me, other, now, later, e, declinedAt);
    case AcceptStep(me, other) => RequestsLeaveDecline(db, me, other, now, later, e, declinedAt);
    case SetLevelStep(_, _, _) => LevelsEndDecline(db, step, now, later, e, declinedAt);
    case RemoveOrUnblockStep(_, _) => LevelsEndDecline(db, step, now, later, e, declinedAt);
    case DeclineOrWithdrawStep(_, _) =>
    case _ => OthersLeaveRequests(db, step, now, later);
  }

  // ---------------------------------------------------------------- who gets in

  lemma PaletteLeavesConversations(db: Db, me: SteamId, name: string, invitees: seq<SteamId>, now: int, later: int, c: ConversationId)
    requires ConversationsOk(db) && c in db.conversations
    ensures var after := OpenPalette(db, me, name, invitees, now, later).db;
            c in after.conversations && after.conversations[c] == db.conversations[c]
  {
    InviteAllSays(CreatePalette(db, Trim(name), me, now), db.nextId, Trim(name), me, Unique(invitees, me), now);
  }

  lemma DmLeavesConversations(db: Db, me: SteamId, peer: SteamId, now: int, later: int, c: ConversationId)
    requires ConversationsOk(db) && c in db.conversations
    ensures var after := OpenDm(db, me, peer, now, later).db;
            c in after.conversations && after.conversations[c] == db.conversations[c]
  {}

  lemma OthersLeaveConversations(db: Db, step: Step, now: int, later: int, c: ConversationId)
    requires ConversationsOk(db) && c in db.conversations && !step.JoinStep?
    ensures var after := Serve(db, step, now, later).db;
            c in after.conversations && after.conversations[c] == db.conversations[c]
  {
    match step
    case OpenDmStep(me, peer) => DmLeavesConversations(db, me, peer, now, later, c);
    case OpenPaletteStep(me, name, invitees) => PaletteLeavesConversations(db, me, name, invitees, now, later, c);
    case InviteStep(_, _, _) =>
    case TurnDownStep(_, _) =>
    case _ => ContactCallsTellNothing(db, step, now, later);
  }

  lemma AcceptAdmits(db: Db, k: InviteKey, now: int, c: ConversationId, u: SteamId)
    requires DbOk(db, now)
    ensures IsMember(AcceptInvite(db, k, now).conversations, c, u) <==>
              IsMember(db.conversations, c, u) || (k == InviteKey(c, u) && IsInvited(db.invites, k, now))
  {
    assert k in db.invites ==> InviteOk(db.contacts, db.conversations, k, db.invites[k]);
  }

  lemma JoinAccepts(db: Db, me: SteamId, palette: ConversationId, now: int, later: int)
    ensures Join(db, me, palette, now, later).db == AcceptInvite(db, InviteKey(palette, me), now)
  {}

  /** Nobody leaves an existing conversation, and the only way in is accepting one's own pending invitation. */
  lemma MembersJoinIff(db: Db, step: Step, now: int, later: int, c: ConversationId, u: SteamId)
    requires DbOk(db, now) && c in db.conversations
    ensures IsMember(Serve(db, step, now, later).db.conversations, c, u) <==>
              IsMember(db.conversations, c, u) || (step == JoinStep(u, c) && IsInvited(db.invites, InviteKey(c, u), now))
  {
    if step.JoinStep? {
      JoinAccepts(db, step.me, step.palette, now, later);
      AcceptAdmits(db, InviteKey(step.palette, step.me), now, c, u);
    } else {
      OthersLeaveConversations(db, step, now, later, c);
    }
  }

  /**
   * What the answers to a request mean: the two are in contact afterwards exactly when they were before
   * or the answer says so; and an answer "pending" is true exactly when it hides no block and no fresh decline.
   */
  lemma RequestMeans(db: Db, me: SteamId, target: SteamId, now: int, later: int)
    requires DbOk(db, now)
    ensures var d := SendRequest(db, me, target, now, later);
            && (Connected(d.db.contacts, me, target) <==> Connected(db.contacts, me, target) || d.answer == Accepted)
            && (d.answer == Accepted ==> !IsPending(d.db.requests, Edge(me, target), now) && !IsPending(d.db.requests, Edge(target, me), now))
            && (d.answer == Pending ==>
                  (IsPending(d.db.requests, Edge(me, target), now) <==>
                     !IsBlock(db.contacts, Edge(target, me)) && !FreshlyDeclined(db.requests, Edge(me, target), now)))
  {
    assert Edge(me, target) in db.requests ==> RequestOk(db.contacts, db.requests, Edge(me, target), now);
    if SendRequest(db, me, target, now, later).answer == Accepted {
      assert RequestOk(db.contacts, db.requests, Edge(target, me), now);
      AcceptKeeps(db, Edge(target, me), now);
    }
  }

  // ---------------------------------------------------------------- what one call prepares for another

  /** A request sent is one the target can accept: until it expires, and then the two are in contact. */
  lemma RequestThenAccept(db: Db, me: SteamId, target: SteamId, now: int, later: int, at: int)
    requires DbOk(db, now) && now <= later <= at
    requires SendRequest(db, me, target, now, later).events == [ContactRequested(target, me, now)]
    ensures var sent := SendRequest(db, me, target, now, later).db;
            var d := Accept(sent, target, me, at);
            && (d.answer <==> at - now < REQUEST_TTL_MS)
            && (Connected(d.db.contacts, me, target) <==> d.answer)
  {
    var sent := SendRequest(db, me, target, now, later).db;
    assert sent == PutRequest(db, Edge(me, target), now);
    SendRequestKeeps(db, me, target, now, later);
    TimeKeeps(sent, later, at);
    if Accept(sent, target, me, at).answer { AcceptKeeps(sent, Edge(me, target), at); }
  }

  /**
   * After a decline the sender's next request is dropped silently exactly while the decline is fresh (or
   * over the sender's limits); from then on it goes out again.
   */
  lemma DeclineHoldsTheSender(db: Db, me: SteamId, sender: SteamId, now: int, at: int, later: int)
    requires DbOk(db, now) && now <= at <= later && IsPending(db.requests, Edge(sender, me), now)
    ensures var declined := DeclineOrWithdraw(db, me, sender, now).db;
            var d := SendRequest(declined, sender, me, at, later);
            && (d.events == [] <==> OverLimit(declined.requests, sender, at, later) || at - now < DECLINE_COOLDOWN_MS)
            && (d.events == [] ==> d.db == declined)
            && (d.answer == Pending || d.answer == RateLimited)
  {
    assert RequestOk(db.contacts, db.requests, Edge(sender, me), now);
  }

  /** An invitation sent is one the invitee can accept: until it expires, and then the invitee is a member. */
  lemma InviteThenJoin(db: Db, me: SteamId, palette: ConversationId, invitee: SteamId, now: int, later: int, at: int, last: int)
    requires DbOk(db, now) && now <= later <= at <= last
    requires InviteTo(db, me, palette, invitee, now, later).answer.outcome == NowInvited
    ensures var invited := InviteTo(db, me, palette, invitee, now, later).db;
            var d := Join(invited, invitee, palette, at, last);
            && (d.answer.Some? <==> at - now < REQUEST_TTL_MS)
            && (IsMember(d.db.conversations, palette, invitee) <==> d.answer.Some?)
  {
    var k := InviteKey(palette, invitee);
    assert InviteTo(db, me, palette, invitee, now, later).db == db.(invites := db.invites[k := Invite(me, now, None)]);
    JoinAccepts(db.(invites := db.invites[k := Invite(me, now, None)]), invitee, palette, at, last);
  }

  lemma InviteOutcomeAfterDecline(db: Db, k: InviteKey, now: int, at: int)
    requires IsInvited(db.invites, k, now) && !IsMember(db.conversations, k.palette, k.invitee)
    ensures InviteOutcomeOf(DeclineInvite(db, k, now), k, at) == if at - now < DECLINE_COOLDOWN_MS then CooldownActive else Created
  {}

  /** After a declined invitation any member's next one changes nothing exactly while the decline is fresh. */
  lemma DeclineHoldsTheInviter(db: Db, me: SteamId, palette: ConversationId, invitee: SteamId, now: int, at: int, later: int)
    requires DbOk(db, now) && now <= at <= later && IsInvited(db.invites, InviteKey(palette, invitee), now)
    requires IsPaletteOf(db, palette, me) && me != invitee && Connected(db.contacts, me, invitee)
    ensures var declined := TurnDown(db, invitee, palette, now).db;
            var d := InviteTo(declined, me, palette, invitee, at, later);
            && (d.answer.outcome == Unchanged <==> at - now < DECLINE_COOLDOWN_MS)
            && (d.answer.outcome == NowInvited <==> at - now >= DECLINE_COOLDOWN_MS)
            && (d.answer.outcome == Unchanged ==> d.db == declined && d.events == [])
  {
    var k := InviteKey(palette, invitee);
    assert InviteOk(db.contacts, db.conversations, k, db.invites[k]);
    InviteOutcomeAfterDecline(db, k, now, at);
  }

  // ---------------------------------------------------------------- the order of invitations

  function FirstAt(q: seq<SteamId>, x: SteamId): (k: nat)
    requires x in q
    ensures k < |q| && q[k] == x && x !in q[..k]
  {
    if q[0] == x then 0 else 1 + FirstAt(q[1..], x)
  }

  lemma {:induction false} FirstStays(q: seq<SteamId>, last: SteamId, x: SteamId)
    requires x in q
    ensures FirstAt(q + [last], x) == FirstAt(q, x)
  {
    if q[0] != x {
      FirstStays(q[1..], last, x);
      assert (q + [last])[1..] == q[1..] + [last];
    }
  }

  /** Invitees are asked in the order in which the request first mentions them. */
  lemma {:induction false} UniqueKeepsOrder(invitees: seq<SteamId>, me: SteamId, i: nat, j: nat)
    requires i < j < |Unique(invitees, me)|
    ensures Unique(invitees, me)[i] in invitees && Unique(invitees, me)[j] in invitees
    ensures FirstAt(invitees, Unique(invitees, me)[i]) < FirstAt(invitees, Unique(invitees, me)[j])
  {
    var last := |invitees| - 1;
    var users, before := Unique(invitees, me), Unique(invitees[..last], me);
    assert invitees == invitees[..last] + [invitees[last]];
    assert users[i] in users && users[j] in users;
    assert i < |before| && users[i] == before[i] && before[i] in before;
    FirstStays(invitees[..last], invitees[last], users[i]);
    if j < |before| {
      assert before[j] in before;
      UniqueKeepsOrder(invitees[..last], me, i, j);
      FirstStays(invitees[..last], invitees[last], users[j]);
    } else {
      assert users[j] == invitees[last] && users[j] !in invitees[..last];
      forall p | 0 <= p < last
        ensures invitees[p] != users[j]
      {
        assert invitees[p] == invitees[..last][p];
      }
    }
  }
}
