/**
 * Requests, declines and invitations over whole runs: each stands until a call that ends it, or until it
 * expires, whatever other calls come in between.
 */
module SocialRuns {
  import opened Common
  import opened SocialTables
  import opened SocialCalls
  import opened SocialInvariants
  import opened SocialGuarantees
  import opened SocialPersistence

  // ---------------------------------------------------------------- which calls end what is pending

  /** Accepted, declined, withdrawn, blocked by either, or answered by a request the other way within the limits. */
  predicate EndsRequest(db: Db, step: Step, e: Edge, now: int, later: int) {
    || step == AcceptStep(e.to, e.from)
    || step == DeclineOrWithdrawStep(e.to, e.from)
    || step == DeclineOrWithdrawStep(e.from, e.to)
    || step == SetLevelStep(e.from, e.to, Imposter)
    || step == SetLevelStep(e.to, e.from, Imposter)
    || (step == SendRequestStep(e.to, e.from) && !OverLimit(db.requests, e.to, now, later))
  }

  ghost predicate SameRequest(db: Db, after: Db, e: Edge)
    requires e in db.requests
  {
    e in after.requests && after.requests[e] == db.requests[e]
  }

  lemma SendEndsRequest(db: Db, me: SteamId, other: SteamId, e: Edge, now: int, later: int)
    requires DbOk(db, now) && IsPending(db.requests, e, now)
    ensures !SameRequest(db, SendRequest(db, me, other, now, later).db, e) <==>
              me == e.to && other == e.from && !OverLimit(db.requests, me, now, later)
  {
    assert RequestOk(db.contacts, db.requests, e, now);
    assert e == Edge(e.from, e.to) && Reverse(e) == Edge(e.to, e.from);
  }

  lemma SetLevelEndsRequest(db: Db, me: SteamId, other: SteamId, level: Level, e: Edge, now: int)
    requires DbOk(db, now) && IsPending(db.requests, e, now)
    ensures !SameRequest(db, SetLevel(db, me, other, level, now).db, e) <==>
              level == Imposter && (e == Edge(me, other) || e == Edge(other, me))
  {
    assert RequestOk(db.contacts, db.requests, e, now);
  }

  /** A pending request is not between contacts, so a removal cannot reach it. */
  lemma RemoveLeavesRequest(db: Db, me: SteamId, other: SteamId, e: Edge, now: int)
    requires DbOk(db, now) && IsPending(db.requests, e, now)
    ensures SameRequest(db, RemoveOrUnblock(db, me, other).db, e)
  {
    assert RequestOk(db.contacts, db.requests, e, now);
    if IsConnection(db.contacts, Edge(me, other)) { assert RowOk(db.contacts, Edge(me, other)); }
  }

  lemma DeclineEndsRequest(db: Db, me: SteamId, other: SteamId, e: Edge, now: int)
    requires IsPending(db.requests, e, now)
    ensures !SameRequest(db, DeclineOrWithdraw(db, me, other, now).db, e) <==> e == Edge(me, other) || e == Edge(other, me)
  {}

  /** Exactly these calls end a pending request. */
  lemma RequestEndsIff(db: Db, step: Step, now: int, later: int, e: Edge)
    requires DbOk(db, now) && IsPending(db.requests, e, now)
    ensures !SameRequest(db, Serve(db, step, now, later).db, e) <==> EndsRequest(db, step, e, now, later)
  {
    match step
    case SendRequestStep(me, other) => SendEndsRequest(db, me, other, e, now, later);
    case SetLevelStep(me, other, level) => SetLevelEndsRequest(db, me, other, level, e, now);
    case RemoveOrUnblockStep(me, other) => RemoveLeavesRequest(db, me, other, e, now);
    case AcceptStep(_, _) =>
    case DeclineOrWithdrawStep(me, other) => DeclineEndsRequest(db, me, other, e, now);
    case _ => OthersLeaveRequests(db, step, now, later);
  }

  /** Accepted or turned down by the invitee, or the two no longer in contact. */
  predicate EndsInvite(step: Step, k: InviteKey, inviter: SteamId) {
    || step == JoinStep(k.invitee, k.palette)
    || step == TurnDownStep(k.invitee, k.palette)
    || step == SetLevelStep(inviter, k.invitee, Imposter)
    || step == SetLevelStep(k.invitee, inviter, Imposter)
    || step == RemoveOrUnblockStep(inviter, k.invitee)
    || step == RemoveOrUnblockStep(k.invitee, inviter)
  }

  ghost predicate SameInvite(db: Db, after: Db, k: InviteKey)
    requires k in db.invites
  {
    k in after.invites && after.invites[k] == db.invites[k]
  }

  lemma RequestsLeaveInvites(db: Db, me: SteamId, other: SteamId, now: int, later: int)
    ensures SendRequest(db, me, other, now, later).db.invites == db.invites && Accept(db, me, other, now).db.invites == db.invites
  {}

  lemma SetLevelEndsInvite(db: Db, me: SteamId, other: SteamId, level: Level, k: InviteKey, now: int)
    requires k in db.invites
    ensures !SameInvite(db, SetLevel(db, me, other, level, now).db, k) <==>
              me != other && level == Imposter && IsBetween(db.invites[k].inviter, k.invitee, Edge(me, other))
  {}

  lemma RemoveEndsInvite(db: Db, me: SteamId, other: SteamId, k: InviteKey, now: int)
    requires DbOk(db, now) && k in db.invites
    ensures !SameInvite(db, RemoveOrUnblock(db, me, other).db, k) <==> IsBetween(db.invites[k].inviter, k.invitee, Edge(me, other))
  {
    assert InviteOk(db.contacts, db.conversations, k, db.invites[k]);
    if IsConnection(db.contacts, Edge(me, other)) {
      RemoveKeeps(db, Edge(me, other), now);
      assert Edge(me, other) in ConnectedRows(db.contacts, Edge(me, other));
    }
  }

  lemma ContactCallsEndInvite(db: Db, step: Step, k: InviteKey, now: int, later: int)
    requires DbOk(db, now) && k in db.invites && OnContacts(step)
    ensures !SameInvite(db, Serve(db, step, now, later).db, k) <==> EndsInvite(step, k, db.invites[k].inviter)
  {
    assert InviteOk(db.contacts, db.conversations, k, db.invites[k]);
    match step
    case SendRequestStep(me, other) => RequestsLeaveInvites(db, me, other, now, later);
    case AcceptStep(me, other) => RequestsLeaveInvites(db, me, other, now, later);
    case DeclineOrWithdrawStep(_, _) =>
    case SetLevelStep(me, other, level) => SetLevelEndsInvite(db, me, other, level, k, now);
    case RemoveOrUnblockStep(me, other) => RemoveEndsInvite(db, me, other, k, now);
  }

  lemma PaletteLeavesInvite(db: Db, me: SteamId, name: string, invitees: seq<SteamId>, now: int, later: int, k: InviteKey)
    requires DbOk(db, now) && k in db.invites
    ensures SameInvite(db, OpenPalette(db, me, name, invitees, now, later).db, k)
  {
    var created := CreatePalette(db, Trim(name), me, now);
    forall x | x in db.invites
      ensures x.palette != db.nextId
    {
      assert InviteOk(db.contacts, db.conversations, x, db.invites[x]);
    }
    InviteAllInvites(created, db.nextId, Trim(name), me, Unique(invitees, me), now);
  }

  lemma InviteLeavesInvite(db: Db, me: SteamId, palette: ConversationId, other: SteamId, k: InviteKey, now: int, later: int)
    requires IsInvited(db.invites, k, now)
    ensures SameInvite(db, InviteTo(db, me, palette, other, now, later).db, k)
  {}

  lemma JoinEndsInvite(db: Db, me: SteamId, palette: ConversationId, k: InviteKey, now: int, later: int)
    requires DbOk(db, now) && IsInvited(db.invites, k, now)
    ensures !SameInvite(db, Join(db, me, palette, now, later).db, k) <==> k == InviteKey(palette, me)
  {
    JoinAccepts(db, me, palette, now, later);
    assert InviteOk(db.contacts, db.conversations, k, db.invites[k]);
  }

  lemma TurnDownEndsInvite(db: Db, me: SteamId, palette: ConversationId, k: InviteKey, now: int)
    requires IsInvited(db.invites, k, now)
    ensures !SameInvite(db, TurnDown(db, me, palette, now).db, k) <==> k == InviteKey(palette, me)
  {}

  lemma DmLeavesInvites(db: Db, me: SteamId, peer: SteamId, now: int, later: int)
    ensures OpenDm(db, me, peer, now, later).db.invites == db.invites
  {}

  lemma ConversationCallsEndInvite(db: Db, step: Step, k: InviteKey, now: int, later: int)
    requires DbOk(db, now) && IsInvited(db.invites, k, now) && !OnContacts(step)
    ensures !SameInvite(db, Serve(db, step, now, later).db, k) <==> EndsInvite(step, k, db.invites[k].inviter)
  {
    match step
    case OpenDmStep(me, peer) => DmLeavesInvites(db, me, peer, now, later);
    case OpenPaletteStep(me, name, invitees) => PaletteLeavesInvite(db, me, name, invitees, now, later, k);
    case InviteStep(me, palette, other) => InviteLeavesInvite(db, me, palette, other, k, now, later);
    case JoinStep(me, palette) => JoinEndsInvite(db, me, palette, k, now, later);
    case TurnDownStep(me, palette) => TurnDownEndsInvite(db, me, palette, k, now);
  }

  /** Exactly these calls end a pending invitation. */
  lemma InviteEndsIff(db: Db, step: Step, now: int, later: int, k: InviteKey)
    requires DbOk(db, now) && IsInvited(db.invites, k, now)
    ensures !SameInvite(db, Serve(db, step, now, later).db, k) <==> EndsInvite(step, k, db.invites[k].inviter)
  {
    if OnContacts(step) { ContactCallsEndInvite(db, step, k, now, later); } else { ConversationCallsEndInvite(db, step, k, now, later); }
  }

  // ---------------------------------------------------------------- lifted over runs

  /** The call between two states is one that ends it. */
  ghost predicate RequestEnds(s: State, s': State, e: Edge) {
    exists step, now :: Served(s, s', step, now) && EndsRequest(s.db, step, e, now, s'.clock)
  }

  ghost predicate RequestEndedAt(run: seq<State>, m: nat, e: Edge)
    requires m + 1 < |run|
  {
    RequestEnds(run[m], run[m + 1], e)
  }

  lemma NextKeepsRequest(s: State, s': State, e: Edge)
    requires StateOk(s) && Next(s, s') && IsPending(s.db.requests, e, s'.clock)
    ensures SameRequest(s.db, s'.db, e) || RequestEnds(s, s', e)
  {
    var step, now :| Served(s, s', step, now);
    TimeKeeps(s.db, s.clock, now);
    RequestEndsIff(s.db, step, now, s'.clock, e);
  }

  lemma ClockGoesOn(run: seq<State>, m: nat)
    requires Run(run) && m + 1 < |run|
    ensures StateOk(run[m]) && Next(run[m], run[m + 1]) && run[m].clock <= run[m + 1].clock
  {
    RunOk(run, m);
    assert Follows(run, m + 1);
  }

  /** A request still pending by its age is the same row it was, unless a call in between ended it. */
  lemma {:induction false} RequestStands(run: seq<State>, i: nat, j: nat, e: Edge)
    requires Run(run) && i <= j < |run| && IsPending(run[i].db.requests, e, run[j].clock)
    ensures SameRequest(run[i].db, run[j].db, e) || exists m :: i <= m < j && RequestEndedAt(run, m, e)
    decreases j
  {
    if i < j {
      ClockGoesOn(run, j - 1);
      RequestStands(run, i, j - 1, e);
      if SameRequest(run[i].db, run[j - 1].db, e) {
        NextKeepsRequest(run[j - 1], run[j], e);
        if !SameRequest(run[j - 1].db, run[j].db, e) { assert RequestEndedAt(run, j - 1, e); }
      }
    }
  }

  /** A request that no call has ended can be accepted until it is 30 days old, and then the two are in contact. */
  lemma RequestCanBeAccepted(run: seq<State>, i: nat, j: nat, e: Edge, at: int)
    requires Run(run) && i <= j < |run| && run[j].clock <= at && IsPending(run[i].db.requests, e, run[j].clock)
    requires forall m | i <= m < j :: !RequestEndedAt(run, m, e)
    ensures var d := Accept(run[j].db, e.to, e.from, at);
            && (d.answer <==> at - run[i].db.requests[e].createdAt < REQUEST_TTL_MS)
            && (Connected(d.db.contacts, e.from, e.to) <==> d.answer)
  {
    RequestStands(run, i, j, e);
    RunOk(run, j);
    assert RequestOk(run[j].db.contacts, run[j].db.requests, e, run[j].clock);
    TimeKeeps(run[j].db, run[j].clock, at);
    if IsPending(run[j].db.requests, e, at) { AcceptKeeps(run[j].db, e, at); }
  }

  /** The call between two states is one that ends it. */
  ghost predicate DeclineEnds(s: State, s': State, e: Edge) {
    exists step, now :: Served(s, s', step, now) && EndsDecline(s.db.contacts, step, e)
  }

  ghost predicate DeclineEndedAt(run: seq<State>, m: nat, e: Edge)
    requires m + 1 < |run|
  {
    DeclineEnds(run[m], run[m + 1], e)
  }

  lemma NextKeepsDecline(s: State, s': State, e: Edge, declinedAt: int)
    requires StateOk(s) && Next(s, s') && StillDeclined(s.db.requests, e, declinedAt) && s'.clock - declinedAt < DECLINE_COOLDOWN_MS
    ensures StillDeclined(s'.db.requests, e, declinedAt) || DeclineEnds(s, s', e)
  {
    var step, now :| Served(s, s', step, now);
    TimeKeeps(s.db, s.clock, now);
    DeclineForgottenIff(s.db, step, now, s'.clock, e, declinedAt);
  }

  /** A decline is remembered for seven days, unless a call in between made the server forget it. */
  lemma {:induction false} DeclineStands(run: seq<State>, i: nat, j: nat, e: Edge, declinedAt: int)
    requires Run(run) && i <= j < |run| && StillDeclined(run[i].db.requests, e, declinedAt)
    requires run[j].clock - declinedAt < DECLINE_COOLDOWN_MS
    ensures StillDeclined(run[j].db.requests, e, declinedAt) || exists m :: i <= m < j && DeclineEndedAt(run, m, e)
    decreases j
  {
    if i < j {
      ClockGoesOn(run, j - 1);
      DeclineStands(run, i, j - 1, e, declinedAt);
      if StillDeclined(run[j - 1].db.requests, e, declinedAt) {
        NextKeepsDecline(run[j - 1], run[j], e, declinedAt);
        if !StillDeclined(run[j].db.requests, e, declinedAt) { assert DeclineEndedAt(run, j - 1, e); }
      }
    }
  }

  /** While it is remembered, a request of the sender goes nowhere: no event, no change. */
  lemma DeclineHoldsLater(run: seq<State>, i: nat, j: nat, e: Edge, declinedAt: int, at: int, later: int)
    requires Run(run) && i <= j < |run| && run[j].clock <= at <= later && at - declinedAt < DECLINE_COOLDOWN_MS
    requires StillDeclined(run[i].db.requests, e, declinedAt) && forall m | i <= m < j :: !DeclineEndedAt(run, m, e)
    requires !IsPending(run[j].db.requests, Reverse(e), at)
    ensures var d := SendRequest(run[j].db, e.from, e.to, at, later); d.events == [] && d.db == run[j].db
  {
    DeclineStands(run, i, j, e, declinedAt);
    assert e == Edge(e.from, e.to);
  }

  /** The call between two states is one that ends it. */
  ghost predicate InviteEnds(s: State, s': State, k: InviteKey, inviter: SteamId) {
    exists step, now :: Served(s, s', step, now) && EndsInvite(step, k, inviter)
  }

  ghost predicate InviteEndedAt(run: seq<State>, m: nat, k: InviteKey, inviter: SteamId)
    requires m + 1 < |run|
  {
    InviteEnds(run[m], run[m + 1], k, inviter)
  }

  lemma NextKeepsInvite(s: State, s': State, k: InviteKey)
    requires StateOk(s) && Next(s, s') && IsInvited(s.db.invites, k, s'.clock)
    ensures SameInvite(s.db, s'.db, k) || InviteEnds(s, s', k, s.db.invites[k].inviter)
  {
    var step, now :| Served(s, s', step, now);
    TimeKeeps(s.db, s.clock, now);
    InviteEndsIff(s.db, step, now, s'.clock, k);
  }

  /** An invitation still pending by its age is the same row it was, unless a call in between ended it. */
  lemma {:induction false} InviteStands(run: seq<State>, i: nat, j: nat, k: InviteKey)
    requires Run(run) && i <= j < |run| && IsInvited(run[i].db.invites, k, run[j].clock)
    ensures SameInvite(run[i].db, run[j].db, k) || exists m :: i <= m < j && InviteEndedAt(run, m, k, run[i].db.invites[k].inviter)
    decreases j
  {
    if i < j {
      ClockGoesOn(run, j - 1);
      InviteStands(run, i, j - 1, k);
      if SameInvite(run[i].db, run[j - 1].db, k) {
        NextKeepsInvite(run[j - 1], run[j], k);
        if !SameInvite(run[j - 1].db, run[j].db, k) { assert InviteEndedAt(run, j - 1, k, run[i].db.invites[k].inviter); }
      }
    }
  }

  /** An invitation that no call has ended can be accepted until it is 30 days old, and makes a member. */
  lemma InviteCanBeAccepted(run: seq<State>, i: nat, j: nat, k: InviteKey, at: int, last: int)
    requires Run(run) && i <= j < |run| && run[j].clock <= at <= last && IsInvited(run[i].db.invites, k, run[j].clock)
    requires forall m | i <= m < j :: !InviteEndedAt(run, m, k, run[i].db.invites[k].inviter)
    ensures var d := Join(run[j].db, k.invitee, k.palette, at, last);
            && (d.answer.Some? <==> at - run[i].db.invites[k].createdAt < REQUEST_TTL_MS)
            && (IsMember(d.db.conversations, k.palette, k.invitee) <==> d.answer.Some?)
  {
    InviteStands(run, i, j, k);
    RunOk(run, j);
    TimeKeeps(run[j].db, run[j].clock, at);
    assert InviteOk(run[j].db.contacts, run[j].db.conversations, k, run[j].db.invites[k]);
    JoinAccepts(run[j].db, k.invitee, k.palette, at, last);
    AcceptAdmits(run[j].db, k, at, k.palette, k.invitee);
  }
}
