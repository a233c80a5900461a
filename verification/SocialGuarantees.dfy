/** What users may rely on in every run of contact and conversation calls: the tables, and what events tell them. */
module SocialGuarantees {
  import opened Common
  import opened SocialTables
  import opened SocialCalls
  import opened SocialInvariants
  import DmRace

  // ---------------------------------------------------------------- what a user's devices know of contacts

  function AfterEvent(known: map<SteamId, Level>, user: SteamId, event: Event): map<SteamId, Level> {
    if !event.ContactChanged? || event.to != user then known
    else if event.level.Some? then known[event.other := event.level.value]
    else known - {event.other}
  }

  /** The contact list of a device that handles all events addressed to its user, in order. */
  function Replay(log: seq<Event>, user: SteamId): map<SteamId, Level> {
    if log == [] then map[] else AfterEvent(Replay(log[..|log| - 1], user), user, log[|log| - 1])
  }

  function Known(log: seq<Event>, user: SteamId, other: SteamId): Option<Level> {
    var known := Replay(log, user);
    if other in known then Some(known[other]) else None
  }

  ghost predicate ContactsMirrored(log: seq<Event>, contacts: Contacts) {
    forall u: SteamId, o: SteamId :: Known(log, u, o) == LevelOf(contacts, u, o)
  }

  function KnownAfter(before: Option<Level>, event: Event, user: SteamId, other: SteamId): Option<Level> {
    if event.ContactChanged? && event.to == user && event.other == other then event.level else before
  }

  lemma KnownOne(log: seq<Event>, event: Event, user: SteamId, other: SteamId)
    ensures Known(log + [event], user, other) == KnownAfter(Known(log, user, other), event, user, other)
  {
    assert (log + [event])[..|log|] == log;
  }

  lemma KnownTwo(log: seq<Event>, a: Event, b: Event, user: SteamId, other: SteamId)
    ensures Known(log + [a, b], user, other) == KnownAfter(KnownAfter(Known(log, user, other), a, user, other), b, user, other)
  {
    KnownOne(log, a, user, other);
    KnownOne(log + [a], b, user, other);
    assert log + [a, b] == (log + [a]) + [b];
  }

  lemma {:induction false} KnownQuiet(log: seq<Event>, events: seq<Event>, user: SteamId, other: SteamId)
    requires forall e | e in events :: !e.ContactChanged?
    ensures Known(log + events, user, other) == Known(log, user, other)
    decreases |events|
  {
    if events == [] {
      assert log + events == log;
    } else {
      var k := |events| - 1;
      assert events[k] in events && forall e | e in events[..k] :: e in events;
      KnownQuiet(log, events[..k], user, other);
      KnownOne(log + events[..k], events[k], user, other);
      assert log + events == (log + events[..k]) + [events[k]];
    }
  }

  lemma OneChangeMirrored(log: seq<Event>, contacts: Contacts, after: Contacts, e: Edge)
    requires ContactsMirrored(log, contacts)
    requires forall x | x != e :: (x in after <==> x in contacts) && (x in after ==> after[x].level == contacts[x].level)
    ensures ContactsMirrored(log + [ContactChanged(e.from, e.to, LevelOf(after, e.from, e.to))], after)
  {
    forall u: SteamId, o: SteamId
      ensures Known(log + [ContactChanged(e.from, e.to, LevelOf(after, e.from, e.to))], u, o) == LevelOf(after, u, o)
    {
      KnownOne(log, ContactChanged(e.from, e.to, LevelOf(after, e.from, e.to)), u, o);
    }
  }

  lemma PairChangeMirrored(log: seq<Event>, contacts: Contacts, after: Contacts, e: Edge)
    requires ContactsMirrored(log, contacts)
    requires forall x | x != e && x != Reverse(e) :: (x in after <==> x in contacts) && (x in after ==> after[x].level == contacts[x].level)
    ensures ContactsMirrored(log + PairEvents(after, e.from, e.to), after)
  {
    forall u: SteamId, o: SteamId
      ensures Known(log + PairEvents(after, e.from, e.to), u, o) == LevelOf(after, u, o)
    {
      KnownTwo(log, PairEvents(after, e.from, e.to)[0], PairEvents(after, e.from, e.to)[1], u, o);
    }
  }

  lemma QuietMirrored(log: seq<Event>, events: seq<Event>, contacts: Contacts)
    requires ContactsMirrored(log, contacts) && forall e | e in events :: !e.ContactChanged?
    ensures ContactsMirrored(log + events, contacts)
  {
    forall u: SteamId, o: SteamId
      ensures Known(log + events, u, o) == LevelOf(contacts, u, o)
    {
      KnownQuiet(log, events, u, o);
    }
  }

  lemma RequestMirrored(db: Db, log: seq<Event>, me: SteamId, target: SteamId, now: int, later: int)
    requires DbOk(db, now) && ContactsMirrored(log, db.contacts)
    ensures var d := SendRequest(db, me, target, now, later); ContactsMirrored(log + d.events, d.db.contacts)
  {
    var d := SendRequest(db, me, target, now, later);
    if d.answer.Accepted? {
      AcceptKeeps(db, Edge(target, me), now);
      PairChangeMirrored(log, db.contacts, d.db.contacts, Edge(me, target));
    } else {
      QuietMirrored(log, d.events, db.contacts);
    }
  }

  lemma AcceptMirrored(db: Db, log: seq<Event>, me: SteamId, sender: SteamId, now: int)
    requires DbOk(db, now) && ContactsMirrored(log, db.contacts)
    ensures var d := Accept(db, me, sender, now); ContactsMirrored(log + d.events, d.db.contacts)
  {
    var d := Accept(db, me, sender, now);
    if d.answer {
      AcceptKeeps(db, Edge(sender, me), now);
      PairChangeMirrored(log, db.contacts, d.db.contacts, Edge(me, sender));
    } else {
      QuietMirrored(log, d.events, db.contacts);
    }
  }

  lemma LevelMirrored(db: Db, log: seq<Event>, me: SteamId, other: SteamId, level: Level, now: int)
    requires DbOk(db, now) && ContactsMirrored(log, db.contacts)
    ensures var d := SetLevel(db, me, other, level, now); ContactsMirrored(log + d.events, d.db.contacts)
  {
    var d := SetLevel(db, me, other, level, now);
    if d.events == [] {
      QuietMirrored(log, d.events, db.contacts);
    } else if level == Imposter {
      assert d.events == PairEvents(d.db.contacts, me, other);
      PairChangeMirrored(log, db.contacts, d.db.contacts, Edge(me, other));
    } else {
      OneChangeMirrored(log, db.contacts, d.db.contacts, Edge(me, other));
    }
  }

  lemma RemovalMirrored(db: Db, log: seq<Event>, me: SteamId, other: SteamId, now: int)
    requires DbOk(db, now) && ContactsMirrored(log, db.contacts)
    ensures var d := RemoveOrUnblock(db, me, other); ContactsMirrored(log + d.events, d.db.contacts)
  {
    var d := RemoveOrUnblock(db, me, other);
    if d.events == [] {
      QuietMirrored(log, d.events, db.contacts);
    } else if IsBlock(db.contacts, Edge(me, other)) {
      OneChangeMirrored(log, db.contacts, d.db.contacts, Edge(me, other));
    } else {
      RemoveKeeps(db, Edge(me, other), now);
      assert d.events == PairEvents(d.db.contacts, me, other);
      PairChangeMirrored(log, db.contacts, d.db.contacts, Edge(me, other));
    }
  }

  // ---------------------------------------------------------------- what a user's devices know of conversations

  predicate Shows(event: Event, user: SteamId, c: ConversationId) {
    (event.ConversationAdded? || event.ConversationUpdated?) && event.to == user && event.conversation.id == c
  }

  /** The member list in the last event about `c` addressed to `user`. */
  function Heard(log: seq<Event>, user: SteamId, c: ConversationId): Option<seq<SteamId>> {
    if log == [] then None
    else if Shows(log[|log| - 1], user, c) then Some(log[|log| - 1].conversation.members)
    else Heard(log[..|log| - 1], user, c)
  }

  function TimesAdded(log: seq<Event>, user: SteamId, c: ConversationId): nat {
    if log == [] then 0
    else TimesAdded(log[..|log| - 1], user, c) +
         if Shows(log[|log| - 1], user, c) && log[|log| - 1].ConversationAdded? then 1 else 0
  }

  /** A member was told of the conversation once, and of its current members last; nobody else of anything. */
  ghost predicate MemberKnows(log: seq<Event>, conversations: Conversations, user: SteamId, c: ConversationId) {
    if IsMember(conversations, c, user)
    then Heard(log, user, c) == Some(Ascending(MembersOf(conversations[c]))) && TimesAdded(log, user, c) == 1
    else Heard(log, user, c) == None && TimesAdded(log, user, c) == 0
  }

  ghost predicate MembersKnow(log: seq<Event>, conversations: Conversations) {
    forall u: SteamId, c: ConversationId :: MemberKnows(log, conversations, u, c)
  }

  lemma HeardOne(log: seq<Event>, e: Event, u: SteamId, c: ConversationId)
    ensures Heard(log + [e], u, c) == if Shows(e, u, c) then Some(e.conversation.members) else Heard(log, u, c)
    ensures TimesAdded(log + [e], u, c) == TimesAdded(log, u, c) + if Shows(e, u, c) && e.ConversationAdded? then 1 else 0
  {
    assert (log + [e])[..|log|] == log;
  }

  lemma {:induction false} HeardQuiet(log: seq<Event>, events: seq<Event>, u: SteamId, c: ConversationId)
    requires forall e | e in events :: !Shows(e, u, c)
    ensures Heard(log + events, u, c) == Heard(log, u, c) && TimesAdded(log + events, u, c) == TimesAdded(log, u, c)
    decreases |events|
  {
    if events == [] {
      assert log + events == log;
    } else {
      var k := |events| - 1;
      assert events[k] in events && forall e | e in events[..k] :: e in events;
      HeardQuiet(log, events[..k], u, c);
      HeardOne(log + events[..k], events[k], u, c);
      assert log + events == (log + events[..k]) + [events[k]];
    }
  }

  lemma QuietKnown(log: seq<Event>, events: seq<Event>, conversations: Conversations)
    requires MembersKnow(log, conversations) && forall e | e in events :: !e.ConversationAdded? && !e.ConversationUpdated?
    ensures MembersKnow(log + events, conversations)
  {
    forall u: SteamId, c: ConversationId
      ensures MemberKnows(log + events, conversations, u, c)
    {
      HeardQuiet(log, events, u, c);
      assert MemberKnows(log, conversations, u, c);
    }
  }

  lemma {:induction false} HeardAdded(log: seq<Event>, users: seq<SteamId>, view: View, u: SteamId, c: ConversationId)
    requires forall i, j | 0 <= i < j < |users| :: users[i] != users[j]
    ensures var told := c == view.id && u in users;
            && Heard(log + AddedTo(users, Some(view)), u, c) == (if told then Some(view.members) else Heard(log, u, c))
            && TimesAdded(log + AddedTo(users, Some(view)), u, c) == TimesAdded(log, u, c) + (if told then 1 else 0)
    decreases |users|
  {
    if users == [] {
      assert log + AddedTo(users, Some(view)) == log;
    } else {
      var k := |users| - 1;
      var before := AddedTo(users[..k], Some(view));
      HeardAdded(log, users[..k], view, u, c);
      HeardOne(log + before, ConversationAdded(users[k], view), u, c);
      assert log + AddedTo(users, Some(view)) == (log + before) + [ConversationAdded(users[k], view)];
      assert users == users[..k] + [users[k]];
    }
  }

  lemma {:induction false} HeardUpdated(log: seq<Event>, users: seq<SteamId>, me: SteamId, view: View, u: SteamId, c: ConversationId)
    ensures var events := UpdatedFor(users, me, view);
            && Heard(log + events, u, c) == (if c == view.id && u in users && u != me then Some(view.members) else Heard(log, u, c))
            && TimesAdded(log + events, u, c) == TimesAdded(log, u, c)
    decreases |users|
  {
    if users == [] {
      assert log + UpdatedFor(users, me, view) == log;
    } else {
      var k := |users| - 1;
      var before := UpdatedFor(users[..k], me, view);
      HeardUpdated(log, users[..k], me, view, u, c);
      assert users == users[..k] + [users[k]];
      if users[k] == me {
        assert UpdatedFor(users, me, view) == before;
      } else {
        HeardOne(log + before, ConversationUpdated(users[k], view), u, c);
        assert log + UpdatedFor(users, me, view) == (log + before) + [ConversationUpdated(users[k], view)];
      }
    }
  }

  /** A conversation nobody has heard of is announced to exactly its members. */
  lemma NewConversationKnown(log: seq<Event>, conversations: Conversations, c: ConversationId, conversation: Conversation,
                             users: seq<SteamId>, view: View)
    requires MembersKnow(log, conversations) && c !in conversations
    requires view.id == c && view.members == Ascending(MembersOf(conversation)) && Elements(users) == MembersOf(conversation)
    requires forall i, j | 0 <= i < j < |users| :: users[i] != users[j]
    ensures MembersKnow(log + AddedTo(users, Some(view)), conversations[c := conversation])
  {
    var after := conversations[c := conversation];
    forall u: SteamId, x: ConversationId
      ensures MemberKnows(log + AddedTo(users, Some(view)), after, u, x)
    {
      HeardAdded(log, users, view, u, x);
      assert MemberKnows(log, conversations, u, x);
      assert u in users <==> u in Elements(users);
    }
  }

  lemma FreshDm(db: Db, me: SteamId, peer: SteamId, now: int, later: int)
    requires OpenDm(db, me, peer, now, later).answer.outcome == Fresh
    ensures var d := OpenDm(db, me, peer, now, later);
            && d.answer.conversation.Some? && d.events == AddedTo([peer, me], d.answer.conversation)
            && d.db.conversations == db.conversations[db.nextId := Dm(DmRace.Canonical(me, peer), now)]
            && d.answer.conversation.value.id == db.nextId
            && d.answer.conversation.value.members == Ascending(MembersOf(Dm(DmRace.Canonical(me, peer), now)))
            && me != peer
  {}

  lemma FreshDmKnown(log: seq<Event>, conversations: Conversations, c: ConversationId, me: SteamId, peer: SteamId, now: int, view: View)
    requires MembersKnow(log, conversations) && c !in conversations && me != peer
    requires view.id == c && view.members == Ascending(MembersOf(Dm(DmRace.Canonical(me, peer), now)))
    ensures MembersKnow(log + AddedTo([peer, me], Some(view)), conversations[c := Dm(DmRace.Canonical(me, peer), now)])
  {
    var pair := DmRace.Canonical(me, peer);
    assert Elements([peer, me]) == {pair.low, pair.high};
    NewConversationKnown(log, conversations, c, Dm(pair, now), [peer, me], view);
  }

  lemma DmKnown(db: Db, log: seq<Event>, me: SteamId, peer: SteamId, now: int, later: int)
    requires DbOk(db, now) && MembersKnow(log, db.conversations)
    ensures var d := OpenDm(db, me, peer, now, later); MembersKnow(log + d.events, d.db.conversations)
  {
    var d := OpenDm(db, me, peer, now, later);
    if d.answer.outcome == Fresh {
      FreshDm(db, me, peer, now, later);
      assert db.nextId !in db.conversations;
      FreshDmKnown(log, db.conversations, db.nextId, me, peer, now, d.answer.conversation.value);
    } else {
      QuietKnown(log, d.events, db.conversations);
    }
  }

  lemma {:induction false} InviteAllSays(db: Db, palette: ConversationId, name: string, me: SteamId, users: seq<SteamId>, now: int)
    ensures var d := InviteAll(db, palette, name, me, users, now);
            d.db == db.(invites := d.db.invites) && forall e | e in d.events :: e.PaletteInviteChanged?
    decreases |users|
  {
    if users != [] { InviteAllSays(db, palette, name, me, users[..|users| - 1], now); }
  }

  lemma PaletteKnown(db: Db, log: seq<Event>, me: SteamId, name: string, invitees: seq<SteamId>, now: int, later: int)
    requires DbOk(db, now) && MembersKnow(log, db.conversations)
    ensures var d := OpenPalette(db, me, name, invitees, now, later); MembersKnow(log + d.events, d.db.conversations)
  {
    var d := OpenPalette(db, me, name, invitees, now, later);
    if d.answer.outcome == Fresh {
      var created := CreatePalette(db, Trim(name), me, now);
      var users := Unique(invitees, me);
      InviteAllSays(created, db.nextId, Trim(name), me, users, now);
      var invited := InviteAll(created, db.nextId, Trim(name), me, users, now);
      QuietKnown(log, invited.events, db.conversations);
      assert Elements([me]) == {me};
      NewConversationKnown(log + invited.events, db.conversations, db.nextId, Palette(Trim(name), {me}, now), [me], d.answer.conversation.value);
      assert log + d.events == (log + invited.events) + AddedTo([me], d.answer.conversation);
    } else {
      QuietKnown(log, d.events, db.conversations);
    }
  }

  /** What the events of a join tell: the newcomer is added, every other member hears the new list. */
  lemma JoinTells(log: seq<Event>, invite: Event, me: SteamId, view: View, u: SteamId, c: ConversationId)
    requires invite.PaletteInviteChanged? && me in view.members
    ensures var after := log + ([invite, ConversationAdded(me, view)] + UpdatedFor(view.members, me, view));
            && Heard(after, u, c) == (if c == view.id && u in view.members then Some(view.members) else Heard(log, u, c))
            && TimesAdded(after, u, c) == TimesAdded(log, u, c) + (if c == view.id && u == me then 1 else 0)
  {
    var first, second := log + [invite], log + [invite] + [ConversationAdded(me, view)];
    HeardOne(log, invite, u, c);
    HeardOne(first, ConversationAdded(me, view), u, c);
    HeardUpdated(second, view.members, me, view, u, c);
    assert log + ([invite, ConversationAdded(me, view)] + UpdatedFor(view.members, me, view)) == second + UpdatedFor(view.members, me, view);
  }

  /** A palette gains one member. */
  lemma NewMemberKnown(log: seq<Event>, conversations: Conversations, c: ConversationId, me: SteamId, invite: Event, view: View)
    requires MembersKnow(log, conversations) && IsPalette(conversations, c) && me !in conversations[c].members
    requires invite.PaletteInviteChanged? && view.id == c && view.members == Ascending(conversations[c].members + {me})
    ensures var p := conversations[c];
            MembersKnow(log + ([invite, ConversationAdded(me, view)] + UpdatedFor(view.members, me, view)),
                        conversations[c := p.(members := p.members + {me})])
  {
    var p := conversations[c];
    var after := log + ([invite, ConversationAdded(me, view)] + UpdatedFor(view.members, me, view));
    var more := conversations[c := p.(members := p.members + {me})];
    forall u: SteamId, x: ConversationId
      ensures MemberKnows(after, more, u, x)
    {
      JoinTells(log, invite, me, view, u, x);
      assert MemberKnows(log, conversations, u, x);
    }
  }

  lemma JoinKnown(db: Db, log: seq<Event>, me: SteamId, palette: ConversationId, now: int, later: int)
    requires DbOk(db, now) && MembersKnow(log, db.conversations)
    ensures var d := Join(db, me, palette, now, later); MembersKnow(log + d.events, d.db.conversations)
  {
    var d := Join(db, me, palette, now, later);
    if d.answer.None? {
      QuietKnown(log, d.events, db.conversations);
    } else {
      var k := InviteKey(palette, me);
      assert InviteOk(db.contacts, db.conversations, k, db.invites[k]);
      NewMemberKnown(log, db.conversations, palette, me, d.events[0], d.answer.value);
    }
  }

  // ---------------------------------------------------------------- runs

  ghost predicate StateOk(s: State) {
    && DbOk(s.db, s.clock)
    && ContactsMirrored(s.log, s.db.contacts)
    && MembersKnow(s.log, s.db.conversations)
  }

  lemma InitOk(s: State)
    requires Init(s)
    ensures StateOk(s)
  {
    forall u: SteamId
      ensures WithinLimits(s.db.requests, u, s.clock)
    {
      assert PendingFrom(s.db.requests, u, s.clock) == {} && CreatedSince(s.db.requests, u, s.clock - RATE_WINDOW_MS) == {};
    }
  }

  predicate OnContacts(step: Step) {
    step.SendRequestStep? || step.AcceptStep? || step.DeclineOrWithdrawStep? || step.SetLevelStep? || step.RemoveOrUnblockStep?
  }

  lemma PaletteLeavesContacts(db: Db, me: SteamId, name: string, invitees: seq<SteamId>, now: int, later: int)
    ensures var d := OpenPalette(db, me, name, invitees, now, later);
            d.db.contacts == db.contacts && forall e | e in d.events :: !e.ContactChanged?
  {
    InviteAllSays(CreatePalette(db, Trim(name), me, now), db.nextId, Trim(name), me, Unique(invitees, me), now);
  }

  lemma DmLeavesContacts(db: Db, me: SteamId, peer: SteamId, now: int, later: int)
    ensures var d := OpenDm(db, me, peer, now, later); d.db.contacts == db.contacts && forall e | e in d.events :: !e.ContactChanged?
  {}

  lemma JoinLeavesContacts(db: Db, me: SteamId, palette: ConversationId, now: int, later: int)
    ensures var d := Join(db, me, palette, now, later); d.db.contacts == db.contacts && forall e | e in d.events :: !e.ContactChanged?
  {
    var d := Join(db, me, palette, now, later);
    if d.answer.Some? {
      var updates := UpdatedFor(d.answer.value.members, me, d.answer.value);
      assert d.events == d.events[..2] + updates;
      assert forall e | e in d.events[..2] + updates :: e in d.events[..2] || e in updates;
    }
  }

  /** The conversation calls leave contacts alone and publish no change of them. */
  lemma OthersLeaveContacts(db: Db, step: Step, now: int, later: int)
    requires !OnContacts(step)
    ensures var o := Serve(db, step, now, later); o.db.contacts == db.contacts && forall e | e in o.events :: !e.ContactChanged?
  {
    match step
    case OpenPaletteStep(me, name, invitees) => PaletteLeavesContacts(db, me, name, invitees, now, later);
    case OpenDmStep(me, peer) => DmLeavesContacts(db, me, peer, now, later);
    case JoinStep(me, palette) => JoinLeavesContacts(db, me, palette, now, later);
    case _ =>
  }

  lemma ServeMirrors(db: Db, log: seq<Event>, step: Step, now: int, later: int)
    requires DbOk(db, now) && ContactsMirrored(log, db.contacts)
    ensures var o := Serve(db, step, now, later); ContactsMirrored(log + o.events, o.db.contacts)
  {
    match step {
      case SendRequestStep(me, other) => RequestMirrored(db, log, me, other, now, later);
      case AcceptStep(me, other) => AcceptMirrored(db, log, me, other, now);
      case DeclineOrWithdrawStep(_, _) => QuietMirrored(log, [], db.contacts);
      case SetLevelStep(me, other, level) => LevelMirrored(db, log, me, other, level, now);
      case RemoveOrUnblockStep(me, other) => RemovalMirrored(db, log, me, other, now);
      case _ =>
        OthersLeaveContacts(db, step, now, later);
        QuietMirrored(log, Serve(db, step, now, later).events, db.contacts);
    }
  }

  lemma ContactCallsTellNothing(db: Db, step: Step, now: int, later: int)
    requires OnContacts(step)
    ensures var o := Serve(db, step, now, later);
            o.db.conversations == db.conversations && forall e | e in o.events :: !e.ConversationAdded? && !e.ConversationUpdated?
  {}

  lemma ServeTells(db: Db, log: seq<Event>, step: Step, now: int, later: int)
    requires DbOk(db, now) && MembersKnow(log, db.conversations)
    ensures var o := Serve(db, step, now, later); MembersKnow(log + o.events, o.db.conversations)
  {
    var o := Serve(db, step, now, later);
    match step {
      case OpenDmStep(me, other) => DmKnown(db, log, me, other, now, later);
      case OpenPaletteStep(me, name, invitees) => PaletteKnown(db, log, me, name, invitees, now, later);
      case JoinStep(me, palette) => JoinKnown(db, log, me, palette, now, later);
      case InviteStep(_, _, _) => QuietKnown(log, o.events, db.conversations);
      case TurnDownStep(_, _) => QuietKnown(log, o.events, db.conversations);
      case _ =>
        ContactCallsTellNothing(db, step, now, later);
        QuietKnown(log, o.events, db.conversations);
    }
  }

  lemma NextOk(s: State, s': State)
    requires StateOk(s) && Next(s, s')
    ensures StateOk(s')
  {
    var step, now :| Served(s, s', step, now);
    TimeKeeps(s.db, s.clock, now);
    ServeKeeps(s.db, step, now, s'.clock);
    ServeMirrors(s.db, s.log, step, now, s'.clock);
    ServeTells(s.db, s.log, step, now, s'.clock);
  }

  /** Every reachable state is in order. */
  lemma {:induction false} RunOk(run: seq<State>, i: nat)
    requires Run(run) && i < |run|
    ensures StateOk(run[i])
  {
    if i == 0 {
      InitOk(run[0]);
    } else {
      RunOk(run, i - 1);
      assert Follows(run, i);
      NextOk(run[i - 1], run[i]);
    }
  }

  /** The four things two different users can be to each other. */
  datatype Relation = Strangers | InContact | FirstBlocks | SecondBlocks

  ghost predicate Stands(contacts: Contacts, a: SteamId, b: SteamId, r: Relation) {
    match r
    case Strangers => Edge(a, b) !in contacts && Edge(b, a) !in contacts
    case InContact => Connected(contacts, a, b)
    case FirstBlocks => IsBlock(contacts, Edge(a, b)) && Edge(b, a) !in contacts
    case SecondBlocks => IsBlock(contacts, Edge(b, a)) && Edge(a, b) !in contacts
  }

  /**
   * At every moment `at` from the last call on: two users stand in exactly one relation; a block leaves
   * no request between them; at most one of them has a pending request to the other, and none once they
   * are in contact.
   */
  lemma PairsStandClearly(run: seq<State>, i: nat, at: int, a: SteamId, b: SteamId)
    requires Run(run) && i < |run| && run[i].clock <= at && a != b
    ensures exists r :: Stands(run[i].db.contacts, a, b, r) && forall q | Stands(run[i].db.contacts, a, b, q) :: q == r
    ensures var db := run[i].db;
            && (Blocked(db.contacts, Edge(a, b)) ==> Edge(a, b) !in db.requests && Edge(b, a) !in db.requests)
            && !(IsPending(db.requests, Edge(a, b), at) && IsPending(db.requests, Edge(b, a), at))
            && (Connected(db.contacts, a, b) ==> !IsPending(db.requests, Edge(a, b), at))
  {
    RunOk(run, i);
    var db := run[i].db;
    TimeKeeps(db, run[i].clock, at);
    assert Edge(a, b) in db.contacts ==> RowOk(db.contacts, Edge(a, b));
    assert Edge(b, a) in db.contacts ==> RowOk(db.contacts, Edge(b, a));
    assert Edge(a, b) in db.requests ==> RequestOk(db.contacts, db.requests, Edge(a, b), at);
    assert Edge(b, a) in db.requests ==> RequestOk(db.contacts, db.requests, Edge(b, a), at);
    var r := if Edge(a, b) in db.contacts then (if IsBlock(db.contacts, Edge(a, b)) then FirstBlocks else InContact)
             else if Edge(b, a) in db.contacts then SecondBlocks else Strangers;
    assert Stands(db.contacts, a, b, r);
  }

  /** Every invitation row, pending or declined, comes from a member in contact with someone who is not a member. */
  lemma InvitationsStand(run: seq<State>, i: nat, k: InviteKey)
    requires Run(run) && i < |run| && k in run[i].db.invites
    ensures InviteOk(run[i].db.contacts, run[i].db.conversations, k, run[i].db.invites[k])
  {
    RunOk(run, i);
  }

  /** At every moment from the last call on, both limits hold for every user, whatever expires meanwhile. */
  lemma LimitsHold(run: seq<State>, i: nat, at: int, user: SteamId)
    requires Run(run) && i < |run| && run[i].clock <= at
    ensures var requests := run[i].db.requests;
            && |set e | e in requests && e.from == user && requests[e].declinedAt.None?
                        && at - requests[e].createdAt < 2_592_000_000| <= 50
            && |set e | e in requests && e.from == user && at - requests[e].createdAt < 86_400_000| <= 20
  {
    var requests := run[i].db.requests;
    assert (set e | e in requests && e.from == user && requests[e].declinedAt.None? && at - requests[e].createdAt < 2_592_000_000)
           == PendingFrom(requests, user, at);
    assert (set e | e in requests && e.from == user && at - requests[e].createdAt < 86_400_000)
           == CreatedSince(requests, user, at - RATE_WINDOW_MS);
    RunOk(run, i);
    TimeKeeps(run[i].db, run[i].clock, at);
    assert WithinLimits(run[i].db.requests, user, at);
  }

  /** Handling every event addressed to a user gives exactly the rows the user owns. */
  lemma ReplayIsTheContactList(run: seq<State>, i: nat, user: SteamId)
    requires Run(run) && i < |run|
    ensures forall o: SteamId ::
              && (o in Replay(run[i].log, user) <==> Edge(user, o) in run[i].db.contacts)
              && (o in Replay(run[i].log, user) ==> Replay(run[i].log, user)[o] == run[i].db.contacts[Edge(user, o)].level)
  {
    RunOk(run, i);
    forall o: SteamId
      ensures o in Replay(run[i].log, user) <==> Edge(user, o) in run[i].db.contacts
      ensures o in Replay(run[i].log, user) ==> Replay(run[i].log, user)[o] == run[i].db.contacts[Edge(user, o)].level
    {
      assert Known(run[i].log, user, o) == LevelOf(run[i].db.contacts, user, o);
    }
  }

  /** Members, and only they, were told of a conversation, once; what they heard last is its member list now. */
  lemma MembersKnowTheMembers(run: seq<State>, i: nat, user: SteamId, c: ConversationId)
    requires Run(run) && i < |run|
    ensures var s := run[i];
            && TimesAdded(s.log, user, c) == (if IsMember(s.db.conversations, c, user) then 1 else 0)
            && (Heard(s.log, user, c).Some? <==> IsMember(s.db.conversations, c, user))
            && (IsMember(s.db.conversations, c, user) ==> Heard(s.log, user, c).value == Ascending(MembersOf(s.db.conversations[c])))
  {
    RunOk(run, i);
    assert MemberKnows(run[i].log, run[i].db.conversations, user, c);
  }

  // ---------------------------------------------------------------- opening a palette

  /** `after` is `before` with a fresh invitation to `palette` for each of `users`. */
  ghost predicate Asked(before: Invites, after: Invites, palette: ConversationId, me: SteamId, users: seq<SteamId>, now: int) {
    && (forall k: InviteKey | k.palette == palette :: k in after <==> k.invitee in users)
    && (forall k: InviteKey | k.palette == palette && k.invitee in users :: after[k] == Invite(me, now, None))
    && (forall k: InviteKey | k.palette != palette :: (k in after <==> k in before) && (k in before ==> after[k] == before[k]))
  }

  lemma OneMoreAsked(before: Invites, db: Db, palette: ConversationId, me: SteamId, users: seq<SteamId>, u: SteamId, now: int)
    requires Asked(before, db.invites, palette, me, users, now) && u !in users && !IsMember(db.conversations, palette, u)
    ensures var k := InviteKey(palette, u);
            InviteOutcomeOf(db, k, now) == Created && Asked(before, PutInvite(db, k, me, now).invites, palette, me, users + [u], now)
  {
    assert forall x :: x in users + [u] <==> x in users || x == u;
  }

  lemma {:induction false} InviteAllInvites(db: Db, palette: ConversationId, name: string, me: SteamId, users: seq<SteamId>, now: int)
    requires forall u | u in users :: !IsMember(db.conversations, palette, u)
    requires forall k | k in db.invites :: k.palette != palette
    requires forall i, j | 0 <= i < j < |users| :: users[i] != users[j]
    ensures var d := InviteAll(db, palette, name, me, users, now);
            && Asked(db.invites, d.db.invites, palette, me, users, now) && d.db == db.(invites := d.db.invites)
            && |d.events| == |users|
            && forall i | 0 <= i < |users| :: d.events[i] == PaletteInviteChanged(users[i], palette, name, me, now, true)
    decreases |users|
  {
    if users != [] {
      var last := |users| - 1;
      assert users == users[..last] + [users[last]];
      assert forall u | u in users[..last] :: u in users;
      InviteAllInvites(db, palette, name, me, users[..last], now);
      OneMoreAsked(db.invites, InviteAll(db, palette, name, me, users[..last], now).db, palette, me, users[..last], users[last], now);
    }
  }

  lemma EveryoneInvited(db: Db, me: SteamId, name: string, users: seq<SteamId>, now: int, later: int)
    requires DbOk(db, now) && me !in users && forall i, j | 0 <= i < j < |users| :: users[i] != users[j]
    ensures var d := FoundPalette(db, me, name, users, now, later);
            && d.answer.outcome == Fresh
            && d.db.conversations == db.conversations[db.nextId := Palette(name, {me}, now)]
            && (forall u: SteamId :: IsInvited(d.db.invites, InviteKey(db.nextId, u), now) <==> u in users)
            && |d.events| == |users| + 1
            && forall i | 0 <= i < |users| :: d.events[i] == PaletteInviteChanged(users[i], db.nextId, name, me, now, true)
  {
    var created := CreatePalette(db, name, me, now);
    forall k | k in db.invites
      ensures k.palette != db.nextId
    {
      assert InviteOk(db.contacts, db.conversations, k, db.invites[k]);
    }
    InviteAllInvites(created, db.nextId, name, me, users, now);
    AddedToFew(me, me, Get(InviteAll(created, db.nextId, name, me, users, now).db, db.nextId, later).value);
  }

  /** A palette is opened with everyone invited, each told once, or not at all. */
  lemma EveryoneOrNobody(db: Db, me: SteamId, name: string, invitees: seq<SteamId>, now: int, later: int)
    requires DbOk(db, now)
    ensures var d := OpenPalette(db, me, name, invitees, now, later);
            var users := Unique(invitees, me);
            && (d.answer.outcome != Fresh ==> d.db == db && d.events == [])
            && (d.answer.outcome == Fresh <==>
                  !BadName(Trim(name)) && |users| <= MAX_INVITEES_PER_CREATE && forall u | u in invitees && u != me :: Connected(db.contacts, me, u))
            && (d.answer.outcome == Fresh ==>
                  && d.db.conversations == db.conversations[db.nextId := Palette(Trim(name), {me}, now)]
                  && (forall u: SteamId :: IsInvited(d.db.invites, InviteKey(db.nextId, u), now) <==> u in invitees && u != me)
                  && |d.events| == |users| + 1
                  && forall i | 0 <= i < |users| :: d.events[i] == PaletteInviteChanged(users[i], db.nextId, Trim(name), me, now, true))
  {
    EveryoneInvited(db, me, Trim(name), Unique(invitees, me), now, later);
  }

  /** Trimming takes white space off both ends, all of it and nothing else. */
  lemma {:induction false} TrimCutsTheEnds(text: string) returns (start: nat, stop: nat)
    ensures start <= stop <= |text| && Trim(text) == text[start..stop]
    ensures forall i | 0 <= i < start || stop <= i < |text| :: IsSpace(text[i])
    ensures start < stop ==> !IsSpace(text[start]) && !IsSpace(text[stop - 1])
    decreases |text|
  {
    if text == "" {
      start, stop := 0, 0;
    } else if IsSpace(text[0]) {
      start, stop := TrimCutsTheEnds(text[1..]);
      start, stop := start + 1, stop + 1;
      assert forall i | 0 < i < |text| :: text[i] == text[1..][i - 1];
    } else if IsSpace(text[|text| - 1]) {
      start, stop := TrimCutsTheEnds(text[..|text| - 1]);
      assert text[..|text| - 1][start..stop] == text[start..stop];
    } else {
      start, stop := 0, |text|;
    }
  }
}
