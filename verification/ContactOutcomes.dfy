/**
 * What each contact call answers, does and tells, read off the rows before and after. The tests are
 * spelled out here once more, with the figures of the rules, and proved to be the ones the calls make.
 */
module ContactOutcomes {
  import opened Common
  import opened SocialTables
  import opened SocialCalls
  import opened SocialInvariants
  import opened SocialGuarantees

  /** Two different users with a row each way, neither of them a block. */
  ghost predicate AreContacts(contacts: Contacts, a: SteamId, b: SteamId) {
    && a != b
    && Edge(a, b) in contacts && contacts[Edge(a, b)].level != Imposter
    && Edge(b, a) in contacts && contacts[Edge(b, a)].level != Imposter
  }

  ghost predicate Blocks(contacts: Contacts, owner: SteamId, other: SteamId) {
    Edge(owner, other) in contacts && contacts[Edge(owner, other)].level == Imposter
  }

  /** Unanswered, and not 30 days old yet. */
  ghost predicate Waits(createdAt: int, declinedAt: Option<int>, now: int) {
    declinedAt.None? && now - createdAt < 2_592_000_000
  }

  /** Declined less than 7 days ago. */
  ghost predicate Refuses(declinedAt: Option<int>, now: int) {
    declinedAt.Some? && now - declinedAt.value < 604_800_000
  }

  ghost predicate Asks(requests: Requests, from: SteamId, to: SteamId, now: int) {
    Edge(from, to) in requests && Waits(requests[Edge(from, to)].createdAt, requests[Edge(from, to)].declinedAt, now)
  }

  ghost predicate WasRefused(requests: Requests, from: SteamId, to: SteamId, now: int) {
    Edge(from, to) in requests && Refuses(requests[Edge(from, to)].declinedAt, now)
  }

  /** Two tables with the same rows, except for those of the listed keys. */
  ghost predicate SameBut<K(!new), V>(before: map<K, V>, after: map<K, V>, keys: set<K>) {
    forall k | k !in keys :: (k in after <==> k in before) && (k in before ==> after[k] == before[k])
  }

  /** The contact list every user's devices work out from events, except for the listed users' view of each other. */
  ghost predicate HeardOnly(log: seq<Event>, events: seq<Event>, a: SteamId, b: SteamId) {
    forall u: SteamId, o: SteamId | (u != a || o != b) && (u != b || o != a) :: Known(log + events, u, o) == Known(log, u, o)
  }

  // ---------------------------------------------------------------- setting a level

  lemma OneHeard(log: seq<Event>, me: SteamId, other: SteamId, level: Option<Level>)
    ensures var events := [ContactChanged(me, other, level)];
            && Known(log + events, me, other) == level && HeardOnly(log, events, me, other)
            && (me != other ==> Known(log + events, other, me) == Known(log, other, me))
  {
    forall u: SteamId, o: SteamId
      ensures Known(log + [ContactChanged(me, other, level)], u, o) == if u == me && o == other then level else Known(log, u, o)
    {
      KnownOne(log, ContactChanged(me, other, level), u, o);
    }
  }

  lemma TwoHeard(log: seq<Event>, me: SteamId, other: SteamId, mine: Option<Level>, theirs: Option<Level>)
    requires me != other
    ensures var events := [ContactChanged(me, other, mine), ContactChanged(other, me, theirs)];
            && Known(log + events, me, other) == mine && Known(log + events, other, me) == theirs
            && HeardOnly(log, events, me, other)
  {
    forall u: SteamId, o: SteamId
      ensures Known(log + [ContactChanged(me, other, mine), ContactChanged(other, me, theirs)], u, o)
              == if u == me && o == other then mine else if u == other && o == me then theirs else Known(log, u, o)
    {
      KnownTwo(log, ContactChanged(me, other, mine), ContactChanged(other, me, theirs), u, o);
    }
  }

  /**
   * A tier is set exactly when the caller's row is a connection to someone else. Then the row has the
   * tier that was asked for and its old date, every other row is as it was, and every device of the
   * caller, and nobody else's, hears of that tier.
   */
  lemma TierIsSet(db: Db, log: seq<Event>, me: SteamId, other: SteamId, level: Level, now: int)
    requires level != Imposter
    ensures var d := SetLevel(db, me, other, level, now);
            var mine := Edge(me, other);
            && (d.answer == Changed <==> me != other && mine in db.contacts && db.contacts[mine].level != Imposter)
            && (d.answer == SelfLevel <==> me == other)
            && (d.answer != Changed ==> d.db == db && d.events == [])
            && (d.answer == Changed ==>
                  && LevelOf(d.db.contacts, me, other) == Some(level)
                  && mine in d.db.contacts && d.db.contacts[mine] == Contact(level, db.contacts[mine].since)
                  && SameBut(db.contacts, d.db.contacts, {mine}) && d.db == db.(contacts := d.db.contacts)
                  && Known(log + d.events, me, other) == Some(level) && Known(log + d.events, other, me) == Known(log, other, me)
                  && HeardOnly(log, d.events, me, other))
  {
    if SetLevel(db, me, other, level, now).answer == Changed { OneHeard(log, me, other, Some(level)); }
  }

  ghost predicate BetweenThem(k: InviteKey, i: Invite, a: SteamId, b: SteamId) {
    (i.inviter == a && k.invitee == b) || (i.inviter == b && k.invitee == a)
  }

  /** Every invitation of one of the two to the other is gone, and every other one is as it was. */
  ghost predicate NoInvitesBetween(before: Invites, after: Invites, a: SteamId, b: SteamId) {
    forall k :: (k in after <==> k in before && !BetweenThem(k, before[k], a, b)) && (k in after ==> after[k] == before[k])
  }

  /** Requests and invitations of one of the two to the other are gone, and all others are as they were. */
  ghost predicate NothingBetween(db: Db, after: Db, a: SteamId, b: SteamId) {
    && Edge(a, b) !in after.requests && Edge(b, a) !in after.requests
    && SameBut(db.requests, after.requests, {Edge(a, b), Edge(b, a)})
    && NoInvitesBetween(db.invites, after.invites, a, b)
    && after.conversations == db.conversations && after.dms == db.dms && after.nextId == db.nextId
  }

  /**
   * A block of someone else always succeeds: the caller's row is a block from now on, the other row is
   * gone and so is everything pending between the two; the caller hears of the block, the other of a
   * removal.
   */
  lemma BlockIsSet(db: Db, log: seq<Event>, me: SteamId, other: SteamId, now: int)
    ensures var d := SetLevel(db, me, other, Imposter, now);
            && (d.answer == if me == other then SelfLevel else Changed)
            && (me == other ==> d.db == db && d.events == [])
            && (me != other ==>
                  && Edge(me, other) in d.db.contacts && d.db.contacts[Edge(me, other)] == Contact(Imposter, now)
                  && Edge(other, me) !in d.db.contacts
                  && SameBut(db.contacts, d.db.contacts, {Edge(me, other), Edge(other, me)})
                  && NothingBetween(db, d.db, me, other)
                  && Known(log + d.events, me, other) == Some(Imposter) && Known(log + d.events, other, me) == None
                  && HeardOnly(log, d.events, me, other))
  {
    if me != other { TwoHeard(log, me, other, Some(Imposter), None); }
  }

  // ---------------------------------------------------------------- ending a connection or a block

  /** Someone blocked is unblocked: the caller's own row goes, and nothing else, and only the caller hears of it. */
  lemma UnblockMeans(db: Db, log: seq<Event>, me: SteamId, other: SteamId)
    requires Blocks(db.contacts, me, other)
    ensures var d := RemoveOrUnblock(db, me, other);
            && d.db == db.(contacts := db.contacts - {Edge(me, other)})
            && Known(log + d.events, me, other) == None && (me != other ==> Known(log + d.events, other, me) == Known(log, other, me))
            && HeardOnly(log, d.events, me, other)
  {
    OneHeard(log, me, other, None);
  }

  /**
   * A contact is removed: both rows go, with everything pending between the two, and both hear of it. With
   * anybody who is neither a contact nor blocked, nothing happens.
   */
  lemma RemovalMeans(db: Db, log: seq<Event>, me: SteamId, other: SteamId, now: int)
    requires DbOk(db, now) && !Blocks(db.contacts, me, other)
    ensures var d := RemoveOrUnblock(db, me, other);
            && (AreContacts(db.contacts, me, other) ==>
                  && d.db.contacts == db.contacts - {Edge(me, other), Edge(other, me)} && NothingBetween(db, d.db, me, other)
                  && Known(log + d.events, me, other) == None && Known(log + d.events, other, me) == None
                  && HeardOnly(log, d.events, me, other))
            && (!AreContacts(db.contacts, me, other) ==> d.db == db && d.events == [])
  {
    assert Edge(me, other) in db.contacts ==> RowOk(db.contacts, Edge(me, other));
    if AreContacts(db.contacts, me, other) {
      RemoveKeeps(db, Edge(me, other), now);
      assert Edge(me, other) in ConnectedRows(db.contacts, Edge(me, other));
      TwoHeard(log, me, other, None, None);
    }
  }

  // ---------------------------------------------------------------- requests

  ghost predicate AtLimit(requests: Requests, me: SteamId, now: int, later: int) {
    || |set e | e in requests && e.from == me && Waits(requests[e].createdAt, requests[e].declinedAt, later)| >= 50
    || |set e | e in requests && e.from == me && requests[e].createdAt > now - 86_400_000| >= 20
  }

  lemma AtLimitIsOverLimit(requests: Requests, me: SteamId, now: int, later: int)
    ensures OverLimit(requests, me, now, later) <==> AtLimit(requests, me, now, later)
  {
    assert (set e | e in requests && e.from == me && Waits(requests[e].createdAt, requests[e].declinedAt, later))
           == PendingFrom(requests, me, later);
    assert (set e | e in requests && e.from == me && requests[e].createdAt > now - 86_400_000)
           == CreatedSince(requests, me, now - RATE_WINDOW_MS);
  }

  /** Which of the checks answers: the first that applies, in this order. */
  lemma RequestAnswers(db: Db, me: SteamId, target: SteamId, now: int, later: int)
    ensures SendRequest(db, me, target, now, later).answer ==
              if me == target then SelfRequest
              else if Blocks(db.contacts, me, target) then UnblockFirst
              else if AreContacts(db.contacts, me, target) then AlreadyContacts
              else if AtLimit(db.requests, me, now, later) then RateLimited
              else if !Blocks(db.contacts, target, me) && Asks(db.requests, target, me, now) then Accepted
              else Pending
  {
    AtLimitIsOverLimit(db.requests, me, now, later);
  }

  /** The two are in contact as allies from now on, the request is used up, and both hear of the other. */
  ghost predicate BecomeAllies(db: Db, after: Db, log: seq<Event>, events: seq<Event>, from: SteamId, to: SteamId, now: int) {
    && after.contacts == db.contacts[Edge(from, to) := Contact(Ally, now)][Edge(to, from) := Contact(Ally, now)]
    && Edge(from, to) !in db.contacts && Edge(to, from) !in db.contacts
    && after == db.(requests := db.requests - {Edge(from, to)}, contacts := after.contacts)
    && Known(log + events, from, to) == Some(Ally) && Known(log + events, to, from) == Some(Ally)
    && HeardOnly(log, events, from, to)
  }

  lemma AcceptedMakesAllies(db: Db, log: seq<Event>, me: SteamId, from: SteamId, now: int)
    requires DbOk(db, now) && Asks(db.requests, from, me, now)
    ensures var after := AcceptRequest(db, Edge(from, me), now);
            BecomeAllies(db, after, log, PairEvents(after.contacts, me, from), from, me, now)
  {
    var after := AcceptRequest(db, Edge(from, me), now);
    assert RequestOk(db.contacts, db.requests, Edge(from, me), now);
    AcceptKeeps(db, Edge(from, me), now);
    assert PairEvents(after.contacts, me, from) == [ContactChanged(me, from, Some(Ally)), ContactChanged(from, me, Some(Ally))];
    TwoHeard(log, me, from, Some(Ally), Some(Ally));
  }

  /**
   * What a request does: one that meets a waiting request of the target makes the two allies; a pending
   * one goes out exactly when the target does not block the caller and the caller's own earlier request
   * neither waits nor was declined in the last 7 days; everything else changes and tells nothing.
   */
  lemma RequestDoes(db: Db, log: seq<Event>, me: SteamId, target: SteamId, now: int, later: int)
    requires DbOk(db, now)
    ensures var d := SendRequest(db, me, target, now, later);
            var goesOut := && d.answer == Pending && !Blocks(db.contacts, target, me)
                           && !Asks(db.requests, me, target, now) && !WasRefused(db.requests, me, target, now);
            && (d.answer == Accepted ==> BecomeAllies(db, d.db, log, d.events, target, me, now))
            && (goesOut ==>
                  && d.db == db.(requests := db.requests[Edge(me, target) := Request(now, None)])
                  && d.events == [ContactRequested(target, me, now)])
            && (d.answer != Accepted && !goesOut ==> d.db == db && d.events == [])
  {
    RequestAnswers(db, me, target, now, later);
    if SendRequest(db, me, target, now, later).answer == Accepted { AcceptedMakesAllies(db, log, me, target, now); }
  }

  /** An acceptance succeeds exactly when the other's request waits, and does what it should. */
  lemma AcceptDoes(db: Db, log: seq<Event>, me: SteamId, sender: SteamId, now: int)
    requires DbOk(db, now)
    ensures var d := Accept(db, me, sender, now);
            && (d.answer <==> Asks(db.requests, sender, me, now))
            && (d.answer ==> BecomeAllies(db, d.db, log, d.events, sender, me, now))
            && (!d.answer ==> d.db == db && d.events == [])
  {
    if Asks(db.requests, sender, me, now) { AcceptedMakesAllies(db, log, me, sender, now); }
  }

  /** A waiting request of the other is declined from now on, the caller's own is withdrawn, and nobody hears of either. */
  lemma DeclineDoes(db: Db, me: SteamId, other: SteamId, now: int)
    ensures var d := DeclineOrWithdraw(db, me, other, now);
            var (mine, theirs) := (Edge(me, other), Edge(other, me));
            && d.db == db.(requests := d.db.requests) && d.events == []
            && mine !in d.db.requests && SameBut(db.requests, d.db.requests, {mine, theirs})
            && (me != other ==>
                  && (theirs in d.db.requests <==> theirs in db.requests)
                  && (theirs in db.requests ==>
                        d.db.requests[theirs] ==
                          if Asks(db.requests, other, me, now) then Request(db.requests[theirs].createdAt, Some(now))
                          else db.requests[theirs]))
  {
    assert me != other ==> Edge(me, other) != Edge(other, me);
  }
}
