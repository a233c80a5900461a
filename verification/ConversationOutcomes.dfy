/**
 * What each conversation call answers, does and tells, read off the rows before and after: who may open
 * a dm or a palette, who may invite and join, and what everyone is shown.
 */
module ConversationOutcomes {
  import opened Common
  import opened SocialTables
  import opened SocialCalls
  import opened SocialInvariants
  import opened SocialGuarantees
  import opened ContactOutcomes
  import DmRace

  // ---------------------------------------------------------------- what is shown

  ghost predicate Pends(invites: Invites, palette: ConversationId, user: SteamId, now: int) {
    var k := InviteKey(palette, user);
    k in invites && Waits(invites[k].createdAt, invites[k].declinedAt, now)
  }

  ghost predicate WasTurnedDown(invites: Invites, palette: ConversationId, user: SteamId, now: int) {
    var k := InviteKey(palette, user);
    k in invites && Refuses(invites[k].declinedAt, now)
  }

  /**
   * Both lists of a view are ascending: the members, and for a palette everyone whose invitation waits
   * and those who are shown as if theirs did.
   */
  ghost predicate ViewOf(view: View, db: Db, c: ConversationId, now: int, hidden: set<SteamId>) {
    && c in db.conversations
    && Increasing(view.members) && Increasing(view.invited)
    && view.id == c && view.createdAt == db.conversations[c].createdAt
    && match db.conversations[c]
       case Dm(pair, _) => !view.palette && view.name == None && view.invited == []
                           && forall u :: u in view.members <==> u == pair.low || u == pair.high
       case Palette(name, members, _) => view.palette && view.name == Some(name)
                                         && (forall u :: u in view.members <==> u in members)
                                         && (forall u :: u in view.invited <==> Pends(db.invites, c, u, now) || u in hidden)
  }

  /** A view is given exactly of what exists, and is right. */
  lemma ViewIsRight(db: Db, c: ConversationId, now: int)
    ensures Get(db, c, now).Some? <==> c in db.conversations
    ensures Get(db, c, now).Some? ==> ViewOf(Get(db, c, now).value, db, c, now, {})
  {
    forall u: SteamId
      ensures u in Invited(db.invites, c, now) <==> Pends(db.invites, c, u, now)
    {
      if Pends(db.invites, c, u, now) { assert IsInvited(db.invites, InviteKey(c, u), now); }
    }
  }

  // ---------------------------------------------------------------- dms

  /** `c` is a dm of exactly these two. */
  ghost predicate DmOf(db: Db, c: ConversationId, a: SteamId, b: SteamId) {
    && c in db.conversations && db.conversations[c].Dm?
    && forall u :: u in MembersOf(db.conversations[c]) <==> u == a || u == b
  }

  ghost predicate HaveDm(db: Db, a: SteamId, b: SteamId) { exists c :: DmOf(db, c, a, b) }

  lemma PairIsDm(db: Db, c: ConversationId, a: SteamId, b: SteamId)
    requires ConversationsOk(db) && a != b
    ensures DmOf(db, c, a, b) <==> DmRace.Canonical(a, b) in db.dms && db.dms[DmRace.Canonical(a, b)] == c
  {
    var pair := DmRace.Canonical(a, b);
    if DmOf(db, c, a, b) {
      var found := db.conversations[c].pair;
      assert found.low in MembersOf(db.conversations[c]) && found.high in MembersOf(db.conversations[c]);
      assert found == pair;
    }
  }

  /**
   * Who may open a dm: exactly two users in contact. They get the dm they have, and a new one only when
   * they have none.
   */
  lemma DmAnswers(db: Db, me: SteamId, peer: SteamId, now: int, later: int)
    requires ConversationsOk(db)
    ensures OpenDm(db, me, peer, now, later).answer.outcome ==
              if me == peer then SelfDm
              else if !AreContacts(db.contacts, me, peer) then NotAllowed
              else if HaveDm(db, me, peer) then Existing
              else Fresh
  {
    if me != peer {
      var pair := DmRace.Canonical(me, peer);
      if pair in db.dms { PairIsDm(db, db.dms[pair], me, peer); }
      if HaveDm(db, me, peer) {
        var c: ConversationId :| DmOf(db, c, me, peer);
        PairIsDm(db, c, me, peer);
      }
    }
  }

  /** A call that opens no new dm changes nothing and tells nobody; only an existing dm is shown. */
  lemma DmOtherwise(db: Db, me: SteamId, peer: SteamId, now: int, later: int)
    requires ConversationsOk(db) && OpenDm(db, me, peer, now, later).answer.outcome != Fresh
    ensures var d := OpenDm(db, me, peer, now, later);
            && d.db == db && d.events == []
            && (d.answer.conversation.Some? <==> d.answer.outcome == Existing)
            && (d.answer.outcome == Existing ==>
                  exists c :: DmOf(db, c, me, peer) && ViewOf(d.answer.conversation.value, db, c, later, {}))
  {
    var pair := DmRace.Canonical(me, peer);
    if OpenDm(db, me, peer, now, later).answer.outcome == Existing {
      PairIsDm(db, db.dms[pair], me, peer);
      ViewIsRight(db, db.dms[pair], later);
    }
  }

  lemma FreshDmIsShown(db: Db, me: SteamId, peer: SteamId, now: int, later: int)
    requires ConversationsOk(db) && OpenDm(db, me, peer, now, later).answer.outcome == Fresh
    ensures var d := OpenDm(db, me, peer, now, later);
            && d.answer.conversation.Some? && ViewOf(d.answer.conversation.value, d.db, db.nextId, later, {})
            && d.events == [ConversationAdded(peer, d.answer.conversation.value), ConversationAdded(me, d.answer.conversation.value)]
  {
    var d := OpenDm(db, me, peer, now, later);
    ViewIsRight(d.db, db.nextId, later);
    AddedToFew(peer, me, d.answer.conversation.value);
  }

  /** A new dm is one more conversation, of these two, made now; both are shown it, the peer first. */
  lemma FreshDmMeans(db: Db, me: SteamId, peer: SteamId, now: int, later: int)
    requires ConversationsOk(db) && OpenDm(db, me, peer, now, later).answer.outcome == Fresh
    ensures var d := OpenDm(db, me, peer, now, later);
            && db.nextId !in db.conversations && DmOf(d.db, db.nextId, me, peer)
            && SameBut(db.conversations, d.db.conversations, {db.nextId}) && d.db.conversations[db.nextId].createdAt == now
            && d.db.contacts == db.contacts && d.db.requests == db.requests && d.db.invites == db.invites
            && d.answer.conversation.Some? && ViewOf(d.answer.conversation.value, d.db, db.nextId, later, {})
            && d.events == [ConversationAdded(peer, d.answer.conversation.value), ConversationAdded(me, d.answer.conversation.value)]
  {
    FreshDmIsShown(db, me, peer, now, later);
    DmIsMade(db, me, peer, now, later);
  }

  lemma DmIsMade(db: Db, me: SteamId, peer: SteamId, now: int, later: int)
    requires ConversationsOk(db) && OpenDm(db, me, peer, now, later).answer.outcome == Fresh
    ensures OpenDm(db, me, peer, now, later).db == CreateDm(db, DmRace.Canonical(me, peer), now) && db.nextId !in db.conversations
  {}

  lemma OnlyOpenDmMakesDms(db: Db, step: Step, now: int, later: int, c: ConversationId)
    requires DbOk(db, now) && c !in db.conversations
    requires c in Serve(db, step, now, later).db.conversations && Serve(db, step, now, later).db.conversations[c].Dm?
    ensures step.OpenDmStep? && OpenDm(db, step.me, step.other, now, later).answer.outcome == Fresh && c == db.nextId
  {
    if OnContacts(step) {
      ContactCallsTellNothing(db, step, now, later);
    } else if step.OpenPaletteStep? {
      EveryoneOrNobody(db, step.me, step.name, step.invitees, now, later);
    }
  }

  lemma NewDmIsAllowed(s: State, s': State, c: ConversationId)
    requires StateOk(s) && Next(s, s') && c !in s.db.conversations && c in s'.db.conversations && s'.db.conversations[c].Dm?
    ensures exists a, b :: DmOf(s'.db, c, a, b) && AreContacts(s.db.contacts, a, b)
  {
    var step, now :| Served(s, s', step, now);
    TimeKeeps(s.db, s.clock, now);
    OnlyOpenDmMakesDms(s.db, step, now, s'.clock, c);
    DmAnswers(s.db, step.me, step.other, now, s'.clock);
    FreshDmMeans(s.db, step.me, step.other, now, s'.clock);
    assert DmOf(s'.db, c, step.me, step.other) && AreContacts(s.db.contacts, step.me, step.other);
  }

  /** In every run the members of a dm were two users in contact when the call that made it was served. */
  lemma DmsAreBetweenContacts(run: seq<State>, i: nat, c: ConversationId)
    requires Run(run) && i + 1 < |run|
    requires c !in run[i].db.conversations && c in run[i + 1].db.conversations && run[i + 1].db.conversations[c].Dm?
    ensures exists a, b :: DmOf(run[i + 1].db, c, a, b) && AreContacts(run[i].db.contacts, a, b)
  {
    RunOk(run, i);
    assert Follows(run, i + 1);
    NewDmIsAllowed(run[i], run[i + 1], c);
  }

  // ---------------------------------------------------------------- palettes

  lemma {:induction false} UniqueCounts(invitees: seq<SteamId>, me: SteamId)
    ensures |Unique(invitees, me)| == |set u | u in invitees && u != me|
  {
    var users := Unique(invitees, me);
    DistinctCounts(users);
    assert (set u | u in invitees && u != me) == Elements(users);
  }

  lemma {:induction false} DistinctCounts(users: seq<SteamId>)
    requires forall i, j | 0 <= i < j < |users| :: users[i] != users[j]
    ensures |Elements(users)| == |users|
  {
    if users != [] {
      var last := |users| - 1;
      DistinctCounts(users[..last]);
      assert users == users[..last] + [users[last]];
      assert Elements(users) == Elements(users[..last]) + {users[last]};
    }
  }

  /** Which of the checks on a new palette answers: the trimmed name, how many are invited, and whether all are contacts. */
  lemma PaletteAnswers(db: Db, me: SteamId, name: string, invitees: seq<SteamId>, now: int, later: int)
    ensures OpenPalette(db, me, name, invitees, now, later).answer.outcome ==
              if Trim(name) == "" || |Trim(name)| > 64 then InvalidName
              else if |set u | u in invitees && u != me| > 50 then TooManyInvitees
              else if exists u :: u in invitees && u != me && !AreContacts(db.contacts, me, u) then NotAllowed
              else Fresh
  {
    UniqueCounts(invitees, me);
    assert forall u :: AreContacts(db.contacts, me, u) <==> Connected(db.contacts, me, u);
  }

  /** The new palette has its maker for a member; all who were listed are invited; the maker is shown it last. */
  lemma FreshPaletteMeans(db: Db, me: SteamId, name: string, invitees: seq<SteamId>, now: int, later: int)
    requires DbOk(db, now) && OpenPalette(db, me, name, invitees, now, later).answer.outcome == Fresh
    ensures var d := OpenPalette(db, me, name, invitees, now, later);
            var c := db.nextId;
            && c !in db.conversations && d.db.conversations == db.conversations[c := Palette(Trim(name), {me}, now)]
            && d.db.contacts == db.contacts && d.db.requests == db.requests && d.db.dms == db.dms
            && (forall k: InviteKey | k.palette != c :: (k in d.db.invites <==> k in db.invites) && (k in db.invites ==> d.db.invites[k] == db.invites[k]))
            && (forall u: SteamId :: InviteKey(c, u) in d.db.invites <==> u in invitees && u != me)
            && (forall u: SteamId | InviteKey(c, u) in d.db.invites :: d.db.invites[InviteKey(c, u)] == Invite(me, now, None))
    ensures var d := OpenPalette(db, me, name, invitees, now, later);
            && d.answer.conversation.Some? && ViewOf(d.answer.conversation.value, d.db, db.nextId, later, {})
            && d.events != [] && d.events[|d.events| - 1] == ConversationAdded(me, d.answer.conversation.value)
  {
    var c, clean, users := db.nextId, Trim(name), Unique(invitees, me);
    var d := OpenPalette(db, me, name, invitees, now, later);
    forall k | k in db.invites
      ensures k.palette != c
    {
      assert InviteOk(db.contacts, db.conversations, k, db.invites[k]);
    }
    var asked := InviteAll(CreatePalette(db, clean, me, now), c, clean, me, users, now);
    InviteAllInvites(CreatePalette(db, clean, me, now), c, clean, me, users, now);
    assert d.db == asked.db && d.answer.conversation == Get(d.db, c, later);
    ViewIsRight(d.db, c, later);
    AddedToFew(me, me, d.answer.conversation.value);
    assert d.events == asked.events + [ConversationAdded(me, d.answer.conversation.value)];
    forall u: SteamId
      ensures InviteKey(c, u) in d.db.invites <==> u in users
    {
      assert InviteKey(c, u).palette == c;
    }
  }

  // ---------------------------------------------------------------- invitations

  ghost predicate InPalette(db: Db, palette: ConversationId, user: SteamId) {
    palette in db.conversations && db.conversations[palette].Palette? && user in db.conversations[palette].members
  }

  /** Which of the checks on an invitation answers: only members invite, and only their contacts. */
  lemma InviteAnswers(db: Db, me: SteamId, palette: ConversationId, invitee: SteamId, now: int, later: int)
    ensures InviteTo(db, me, palette, invitee, now, later).answer.outcome ==
              if !InPalette(db, palette, me) then NotAMember
              else if me == invitee then SelfInvite
              else if !AreContacts(db.contacts, me, invitee) then InviteNotAllowed
              else if InPalette(db, palette, invitee) || Pends(db.invites, palette, invitee, now)
                      || WasTurnedDown(db.invites, palette, invitee, now) then Unchanged
              else NowInvited
  {}

  /** An invitation that goes out is one row, and its invitee is told; otherwise nothing changes and nobody is told. */
  lemma InviteDoes(db: Db, me: SteamId, palette: ConversationId, invitee: SteamId, now: int, later: int)
    ensures var d := InviteTo(db, me, palette, invitee, now, later);
            && (d.answer.outcome == NowInvited ==>
                  && d.db == db.(invites := db.invites[InviteKey(palette, invitee) := Invite(me, now, None)])
                  && d.events == [PaletteInviteChanged(invitee, palette, db.conversations[palette].name, me, later, true)])
            && (d.answer.outcome != NowInvited ==> d.db == db && d.events == [])
  {}

  lemma ColdInviteeIs(db: Db, me: SteamId, palette: ConversationId, invitee: SteamId, now: int)
    requires InPalette(db, palette, me)
    ensures InviteOutcomeOf(db, InviteKey(palette, invitee), now) == CooldownActive <==>
              !InPalette(db, palette, invitee) && WasTurnedDown(db.invites, palette, invitee, now)
  {}

  lemma ShownIsRight(view: View, db: Db, palette: ConversationId, now: int, outcome: InviteOutcome, invitee: SteamId)
    requires IsPalette(db.conversations, palette) && ViewOf(view, db, palette, now, {})
    ensures var shown := Shown(Some(view), outcome, invitee);
            shown.Some? && ViewOf(shown.value, db, palette, now, if outcome == CooldownActive then {invitee} else {})
  {}

  lemma InviteAnswersShown(db: Db, me: SteamId, palette: ConversationId, invitee: SteamId, now: int, later: int)
    requires InPalette(db, palette, me) && AreContacts(db.contacts, me, invitee)
    ensures var d := InviteTo(db, me, palette, invitee, now, later);
            && d.answer.conversation == Shown(Get(d.db, palette, later), InviteOutcomeOf(db, InviteKey(palette, invitee), now), invitee)
            && IsPalette(d.db.conversations, palette)
  {}

  /** Whoever may invite is shown the palette, with an invitee whose fresh decline is to stay hidden among the invited. */
  lemma InviteShowsPalette(db: Db, me: SteamId, palette: ConversationId, invitee: SteamId, now: int, later: int)
    ensures var d := InviteTo(db, me, palette, invitee, now, later);
            d.answer.conversation.Some? <==> InPalette(db, palette, me) && AreContacts(db.contacts, me, invitee)
    ensures var d := InviteTo(db, me, palette, invitee, now, later);
            var cold := !InPalette(db, palette, invitee) && WasTurnedDown(db.invites, palette, invitee, now);
            d.answer.conversation.Some? ==>
              ViewOf(d.answer.conversation.value, d.db, palette, later, if cold then {invitee} else {})
  {
    if InPalette(db, palette, me) && AreContacts(db.contacts, me, invitee) {
      var d := InviteTo(db, me, palette, invitee, now, later);
      InviteAnswersShown(db, me, palette, invitee, now, later);
      ViewIsRight(d.db, palette, later);
      ColdInviteeIs(db, me, palette, invitee, now);
      ShownIsRight(Get(d.db, palette, later).value, d.db, palette, later, InviteOutcomeOf(db, InviteKey(palette, invitee), now), invitee);
    }
  }

  /** Joining succeeds exactly while the caller's own invitation waits; it is used up, and the caller is a member. */
  lemma JoinDoes(db: Db, me: SteamId, palette: ConversationId, now: int, later: int)
    requires DbOk(db, now)
    ensures var d := Join(db, me, palette, now, later);
            && (d.answer.Some? <==> Pends(db.invites, palette, me, now))
            && (d.answer.None? ==> d.db == db && d.events == [])
            && (d.answer.Some? ==>
                  && InPalette(d.db, palette, me) && !InPalette(db, palette, me)
                  && db.conversations[palette].Palette?
                  && d.db.conversations[palette] ==
                       Palette(db.conversations[palette].name, db.conversations[palette].members + {me}, db.conversations[palette].createdAt)
                  && SameBut(db.conversations, d.db.conversations, {palette})
                  && d.db.invites == db.invites - {InviteKey(palette, me)}
                  && d.db.contacts == db.contacts && d.db.requests == db.requests
                  && ViewOf(d.answer.value, d.db, palette, later, {}))
  {
    var k := InviteKey(palette, me);
    assert k in db.invites ==> InviteOk(db.contacts, db.conversations, k, db.invites[k]);
    ViewIsRight(Join(db, me, palette, now, later).db, palette, later);
  }

  lemma {:induction false} UpdatesOthers(users: seq<SteamId>, me: SteamId, view: View, e: Event)
    ensures e in UpdatedFor(users, me, view) <==> exists u :: u in users && u != me && e == ConversationUpdated(u, view)
  {
    if users != [] {
      var last := |users| - 1;
      UpdatesOthers(users[..last], me, view, e);
      assert users == users[..last] + [users[last]];
    }
  }

  lemma {:induction false} UpdatesOnce(users: seq<SteamId>, me: SteamId, view: View)
    requires Increasing(users)
    ensures |UpdatedFor(users, me, view)| == if me in users then |users| - 1 else |users|
  {
    if users != [] {
      var last := |users| - 1;
      UpdatesOnce(users[..last], me, view);
      assert users == users[..last] + [users[last]] && users[last] !in users[..last];
    }
  }

  /**
   * The newcomer's devices drop the invitation and add the palette; then every other member hears, once,
   * and nobody else.
   */
  lemma JoinTellsEveryone(db: Db, me: SteamId, palette: ConversationId, now: int, later: int, e: Event)
    requires DbOk(db, now) && Pends(db.invites, palette, me, now)
    ensures var d := Join(db, me, palette, now, later);
            && IsPalette(db.conversations, palette)
            && d.answer.Some? && |d.events| == 2 + |db.conversations[palette].members|
            && d.events[0] == PaletteInviteChanged(me, palette, db.conversations[palette].name, 0, 0, false)
            && d.events[1] == ConversationAdded(me, d.answer.value)
            && (e in d.events[2..] <==> exists u :: InPalette(db, palette, u) && e == ConversationUpdated(u, d.answer.value))
  {
    JoinDoes(db, me, palette, now, later);
    var d := Join(db, me, palette, now, later);
    UpdatesOthers(d.answer.value.members, me, d.answer.value, e);
    UpdatesOnce(d.answer.value.members, me, d.answer.value);
    EveryMemberListed(db, me, palette, now, later);
    assert d.events[2..] == UpdatedFor(d.answer.value.members, me, d.answer.value);
  }

  lemma EveryMemberListed(db: Db, me: SteamId, palette: ConversationId, now: int, later: int)
    requires DbOk(db, now) && Pends(db.invites, palette, me, now)
    ensures IsPalette(db.conversations, palette) && Join(db, me, palette, now, later).answer.Some?
    ensures |Join(db, me, palette, now, later).answer.value.members| == |db.conversations[palette].members| + 1
  {
    var k := InviteKey(palette, me);
    assert InviteOk(db.contacts, db.conversations, k, db.invites[k]);
  }

  /** Turning down a waiting invitation stamps it, and only the caller's own devices hear; otherwise nothing happens. */
  lemma TurnDownDoes(db: Db, me: SteamId, palette: ConversationId, now: int)
    ensures var d := TurnDown(db, me, palette, now);
            var k := InviteKey(palette, me);
            if Pends(db.invites, palette, me, now)
            then d.db == db.(invites := db.invites[k := Invite(db.invites[k].inviter, db.invites[k].createdAt, Some(now))])
                 && d.events == [PaletteInviteChanged(me, palette, "", 0, 0, false)]
            else d.db == db && d.events == []
  {}
}
