/**
 * The calls of the contact and conversation services: what each answers, the tables it leaves and the
 * events it publishes, in order. A call reads the clock more than once; `now` is its first reading,
 * `later` its last.
 */
module SocialCalls {
  import opened Common
  import opened SocialTables
  import DmRace

  const MAX_PALETTE_NAME_BYTES: nat := 64
  const MAX_INVITEES_PER_CREATE: nat := 50

  datatype Event =
    | ContactRequested(to: SteamId, sender: SteamId, createdAt: int)
    | ContactChanged(to: SteamId, other: SteamId, level: Option<Level>)
    | PaletteInviteChanged(to: SteamId, palette: ConversationId, name: string, inviter: SteamId, createdAt: int, pending: bool)
    | ConversationAdded(to: SteamId, conversation: View)
    | ConversationUpdated(to: SteamId, conversation: View)

  datatype Done<R> = Done(answer: R, db: Db, events: seq<Event>)

  // ---------------------------------------------------------------- contacts

  datatype RequestOutcome = Pending | Accepted | AlreadyContacts | SelfRequest | UnblockFirst | RateLimited

  predicate OverLimit(requests: Requests, me: SteamId, now: int, later: int) {
    || |PendingFrom(requests, me, later)| >= MAX_PENDING_REQUESTS
    || |CreatedSince(requests, me, now - RATE_WINDOW_MS)| >= MAX_REQUESTS_PER_DAY
  }

  /** A pending request, or a decline the sender must not notice yet: a new request is dropped silently. */
  predicate HoldsBack(requests: Requests, e: Edge, now: int) {
    && e in requests
    && match requests[e].declinedAt
       case Some(declinedAt) => now - declinedAt < DECLINE_COOLDOWN_MS
       case None => now - requests[e].createdAt < REQUEST_TTL_MS
  }

  function PairEvents(contacts: Contacts, first: SteamId, second: SteamId): seq<Event> {
    [ContactChanged(first, second, LevelOf(contacts, first, second)),
     ContactChanged(second, first, LevelOf(contacts, second, first))]
  }

  function SendRequest(db: Db, me: SteamId, target: SteamId, now: int, later: int): Done<RequestOutcome> {
    var mine, theirs := Edge(me, target), Edge(target, me);
    if me == target then Done(SelfRequest, db, [])
    else if IsBlock(db.contacts, mine) then Done(UnblockFirst, db, [])
    else if Connected(db.contacts, me, target) then Done(AlreadyContacts, db, [])
    else if OverLimit(db.requests, me, now, later) then Done(RateLimited, db, [])
    else if IsBlock(db.contacts, theirs) then Done(Pending, db, [])
    else if IsPending(db.requests, theirs, now) then
      var accepted := AcceptRequest(db, theirs, now);
      Done(Accepted, accepted, PairEvents(accepted.contacts, me, target))
    else if HoldsBack(db.requests, mine, now) then Done(Pending, db, [])
    else Done(Pending, PutRequest(db, mine, now), [ContactRequested(target, me, now)])
  }

  function Accept(db: Db, me: SteamId, sender: SteamId, now: int): Done<bool> {
    var theirs := Edge(sender, me);
    if IsPending(db.requests, theirs, now) then
      var accepted := AcceptRequest(db, theirs, now);
      Done(true, accepted, PairEvents(accepted.contacts, me, sender))
    else Done(false, db, [])
  }

  /** Nobody is told. */
  function DeclineOrWithdraw(db: Db, me: SteamId, other: SteamId, now: int): Done<()> {
    Done((), WithdrawRequest(DeclineRequest(db, Edge(other, me), now), Edge(me, other)), [])
  }

  datatype LevelOutcome = Changed | SelfLevel | NotAContact

  function SetLevel(db: Db, me: SteamId, other: SteamId, level: Level, now: int): Done<LevelOutcome> {
    var mine := Edge(me, other);
    if me == other then Done(SelfLevel, db, [])
    else if level == Imposter then
      Done(Changed, Block(db, mine, now), [ContactChanged(me, other, Some(Imposter)), ContactChanged(other, me, None)])
    else if IsConnection(db.contacts, mine) then
      Done(Changed, SetTier(db, mine, level), [ContactChanged(me, other, Some(level))])
    else Done(NotAContact, db, [])
  }

  function RemoveOrUnblock(db: Db, me: SteamId, other: SteamId): Done<()> {
    var mine := Edge(me, other);
    if IsBlock(db.contacts, mine) then Done((), Unblock(db, mine), [ContactChanged(me, other, None)])
    else if IsConnection(db.contacts, mine) then
      Done((), RemoveContact(db, mine), [ContactChanged(me, other, None), ContactChanged(other, me, None)])
    else Done((), db, [])
  }

  // ---------------------------------------------------------------- conversations

  datatype CreateOutcome = Fresh | Existing | SelfDm | NotAllowed | InvalidName | TooManyInvitees

  datatype CreateResult = CreateResult(outcome: CreateOutcome, conversation: Option<View>)

  function AddedTo(users: seq<SteamId>, view: Option<View>): (events: seq<Event>)
    ensures forall e | e in events :: e.ConversationAdded?
  {
    if view.None? || users == [] then []
    else AddedTo(users[..|users| - 1], view) + [ConversationAdded(users[|users| - 1], view.value)]
  }

  lemma AddedToFew(first: SteamId, second: SteamId, view: View)
    ensures AddedTo([first], Some(view)) == [ConversationAdded(first, view)]
    ensures AddedTo([first, second], Some(view)) == [ConversationAdded(first, view), ConversationAdded(second, view)]
  {
    assert [first, second][..1] == [first];
  }

  /** Two callers at once are the subject of DmRace. */
  function OpenDm(db: Db, me: SteamId, peer: SteamId, now: int, later: int): Done<CreateResult> {
    var pair := DmRace.Canonical(me, peer);
    if me == peer then Done(CreateResult(SelfDm, None), db, [])
    else if !Connected(db.contacts, me, peer) then Done(CreateResult(NotAllowed, None), db, [])
    else if pair in db.dms then Done(CreateResult(Existing, Get(db, db.dms[pair], later)), db, [])
    else
      var created := CreateDm(db, pair, now);
      var view := Get(created, db.nextId, later);
      Done(CreateResult(Fresh, view), created, AddedTo([peer, me], view))
  }

  /** Everyone but the caller, each once, in the order of first mention. */
  function Unique(invitees: seq<SteamId>, me: SteamId): (users: seq<SteamId>)
    ensures me !in users && forall u :: u in users <==> u in invitees && u != me
    ensures forall i, j | 0 <= i < j < |users| :: users[i] != users[j]
  {
    if invitees == [] then []
    else
      var last := |invitees| - 1;
      var before := Unique(invitees[..last], me);
      assert invitees == invitees[..last] + [invitees[last]];
      if invitees[last] == me || invitees[last] in before then before else before + [invitees[last]]
  }

  function InviteAll(db: Db, palette: ConversationId, name: string, me: SteamId, users: seq<SteamId>, now: int): Done<()> {
    if users == [] then Done((), db, [])
    else
      var last := users[|users| - 1];
      var before := InviteAll(db, palette, name, me, users[..|users| - 1], now);
      var k := InviteKey(palette, last);
      Done((), PutInvite(before.db, k, me, now),
           before.events + if InviteOutcomeOf(before.db, k, now) == Created
                           then [PaletteInviteChanged(last, palette, name, me, now, true)] else [])
  }

  /** The text without the white space at its two ends. */
  function Trim(text: string): string {
    if text == "" then ""
    else if IsSpace(text[0]) then Trim(text[1..])
    else if IsSpace(text[|text| - 1]) then Trim(text[..|text| - 1])
    else text
  }

  predicate BadName(name: string) { name == "" || |name| > MAX_PALETTE_NAME_BYTES }

  predicate MayInvite(contacts: Contacts, me: SteamId, users: seq<SteamId>) {
    forall u | u in users :: Connected(contacts, me, u)
  }

  function FoundPalette(db: Db, me: SteamId, name: string, users: seq<SteamId>, now: int, later: int): Done<CreateResult> {
    var invited := InviteAll(CreatePalette(db, name, me, now), db.nextId, name, me, users, now);
    var view := Get(invited.db, db.nextId, later);
    Done(CreateResult(Fresh, view), invited.db, invited.events + AddedTo([me], view))
  }

  function OpenPalette(db: Db, me: SteamId, name: string, invitees: seq<SteamId>, now: int, later: int): Done<CreateResult> {
    var clean := Trim(name);
    var users := Unique(invitees, me);
    if BadName(clean) then Done(CreateResult(InvalidName, None), db, [])
    else if |users| > MAX_INVITEES_PER_CREATE then Done(CreateResult(TooManyInvitees, None), db, [])
    else if !MayInvite(db.contacts, me, users) then Done(CreateResult(NotAllowed, None), db, [])
    else FoundPalette(db, me, clean, users, now, later)
  }

  datatype PaletteInviteOutcome = NowInvited | Unchanged | NotAMember | SelfInvite | InviteNotAllowed

  datatype PaletteInviteResult = PaletteInviteResult(outcome: PaletteInviteOutcome, conversation: Option<View>)

  predicate IsPaletteOf(db: Db, palette: ConversationId, me: SteamId) {
    IsPalette(db.conversations, palette) && me in db.conversations[palette].members
  }

  /** An invitation dropped because of a fresh decline still shows the invitee as invited. */
  function Shown(view: Option<View>, outcome: InviteOutcome, invitee: SteamId): Option<View> {
    if view.Some? && outcome == CooldownActive
    then Some(view.value.(invited := Ascending(Elements(view.value.invited) + {invitee})))
    else view
  }

  function InviteTo(db: Db, me: SteamId, palette: ConversationId, invitee: SteamId, now: int, later: int): Done<PaletteInviteResult> {
    var k := InviteKey(palette, invitee);
    if !IsPaletteOf(db, palette, me) then Done(PaletteInviteResult(NotAMember, None), db, [])
    else if me == invitee then Done(PaletteInviteResult(SelfInvite, None), db, [])
    else if !Connected(db.contacts, me, invitee) then Done(PaletteInviteResult(InviteNotAllowed, None), db, [])
    else
      var outcome := InviteOutcomeOf(db, k, now);
      var after := PutInvite(db, k, me, now);
      var view := Shown(Get(after, palette, later), outcome, invitee);
      Done(PaletteInviteResult(if outcome == Created then NowInvited else Unchanged, view), after,
           if outcome == Created
           then [PaletteInviteChanged(invitee, palette, db.conversations[palette].name, me, later, true)] else [])
  }

  function UpdatedFor(users: seq<SteamId>, me: SteamId, view: View): (events: seq<Event>)
    ensures forall e | e in events :: e.ConversationUpdated?
  {
    if users == [] then []
    else
      var last := users[|users| - 1];
      UpdatedFor(users[..|users| - 1], me, view) + if last == me then [] else [ConversationUpdated(last, view)]
  }

  function Join(db: Db, me: SteamId, palette: ConversationId, now: int, later: int): Done<Option<View>> {
    var k := InviteKey(palette, me);
    if !CanJoin(db, k, now) then Done(None, db, [])
    else
      var joined := AcceptInvite(db, k, now);
      var view := Get(joined, palette, later);
      Done(view, joined,
           [PaletteInviteChanged(me, palette, db.conversations[palette].name, 0, 0, false),
            ConversationAdded(me, view.value)] + UpdatedFor(view.value.members, me, view.value))
  }

  /** The inviter is not told. */
  function TurnDown(db: Db, me: SteamId, palette: ConversationId, now: int): Done<()> {
    var k := InviteKey(palette, me);
    Done((), DeclineInvite(db, k, now),
         if IsInvited(db.invites, k, now) then [PaletteInviteChanged(me, palette, "", 0, 0, false)] else [])
  }

  // ---------------------------------------------------------------- runs

  datatype Step =
    | SendRequestStep(me: SteamId, other: SteamId)
    | AcceptStep(me: SteamId, other: SteamId)
    | DeclineOrWithdrawStep(me: SteamId, other: SteamId)
    | SetLevelStep(me: SteamId, other: SteamId, level: Level)
    | RemoveOrUnblockStep(me: SteamId, other: SteamId)
    | OpenDmStep(me: SteamId, other: SteamId)
    | OpenPaletteStep(me: SteamId, name: string, invitees: seq<SteamId>)
    | InviteStep(me: SteamId, palette: ConversationId, other: SteamId)
    | JoinStep(me: SteamId, palette: ConversationId)
    | TurnDownStep(me: SteamId, palette: ConversationId)

  datatype Outcome = Outcome(db: Db, events: seq<Event>)

  function Of<R>(done: Done<R>): Outcome { Outcome(done.db, done.events) }

  ghost function Serve(db: Db, step: Step, now: int, later: int): Outcome {
    match step
    case SendRequestStep(me, other) => Of(SendRequest(db, me, other, now, later))
    case AcceptStep(me, other) => Of(Accept(db, me, other, now))
    case DeclineOrWithdrawStep(me, other) => Of(DeclineOrWithdraw(db, me, other, now))
    case SetLevelStep(me, other, level) => Of(SetLevel(db, me, other, level, now))
    case RemoveOrUnblockStep(me, other) => Of(RemoveOrUnblock(db, me, other))
    case OpenDmStep(me, other) => Of(OpenDm(db, me, other, now, later))
    case OpenPaletteStep(me, name, invitees) => Of(OpenPalette(db, me, name, invitees, now, later))
    case InviteStep(me, palette, other) => Of(InviteTo(db, me, palette, other, now, later))
    case JoinStep(me, palette) => Of(Join(db, me, palette, now, later))
    case TurnDownStep(me, palette) => Of(TurnDown(db, me, palette, now))
  }

  /** The tables, everything published so far, and the last clock reading. */
  datatype State = State(db: Db, log: seq<Event>, clock: int)

  ghost predicate Init(s: State) {
    s.log == [] && s.db.contacts == map[] && s.db.requests == map[] && s.db.conversations == map[] && s.db.dms == map[]
    && s.db.invites == map[]
  }

  /** One call, served whole, at clock readings that never go back. */
  ghost predicate Served(s: State, s': State, step: Step, now: int) {
    && s.clock <= now <= s'.clock
    && var o := Serve(s.db, step, now, s'.clock);
       s'.db == o.db && s'.log == s.log + o.events
  }

  ghost predicate Next(s: State, s': State) { exists step, now :: Served(s, s', step, now) }

  ghost predicate Follows(run: seq<State>, i: nat)
    requires 0 < i < |run|
  {
    Next(run[i - 1], run[i])
  }

  ghost predicate Run(run: seq<State>) {
    && 0 < |run| && Init(run[0])
    && forall i | 0 < i < |run| :: Follows(run, i)
  }
}
