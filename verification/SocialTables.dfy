/**
 * The tables behind contacts and conversations, and what each repository call does to them. A call is
 * one transaction, so one function from tables to tables.
 */
module SocialTables {
  import opened Common
  import DmRace

  const REQUEST_TTL_MS: int := 2592000000
  const DECLINE_COOLDOWN_MS: int := 604800000
  const RATE_WINDOW_MS: int := 86400000
  const MAX_REQUESTS_PER_DAY: nat := 20
  const MAX_PENDING_REQUESTS: nat := 50

  /** What the owner of a row regards the other person as; a stranger has no row. */
  datatype Level = Imposter | Ally | Friend

  /** The key of a contact row (owner, other) and of a request (sender, recipient). */
  datatype Edge = Edge(from: SteamId, to: SteamId)

  function Reverse(e: Edge): Edge { Edge(e.to, e.from) }

  datatype Contact = Contact(level: Level, since: int)

  datatype Request = Request(createdAt: int, declinedAt: Option<int>)

  datatype Conversation =
    | Dm(pair: DmRace.Pair, createdAt: int)
    | Palette(name: string, members: set<SteamId>, createdAt: int)

  datatype InviteKey = InviteKey(palette: ConversationId, invitee: SteamId)

  datatype Invite = Invite(inviter: SteamId, createdAt: int, declinedAt: Option<int>)

  type Contacts = map<Edge, Contact>
  type Requests = map<Edge, Request>
  type Conversations = map<ConversationId, Conversation>
  type Invites = map<InviteKey, Invite>

  /** `dms` is the unique index of the chat table on its pair. */
  datatype Db = Db(
    contacts: Contacts,
    requests: Requests,
    conversations: Conversations,
    dms: map<DmRace.Pair, ConversationId>,
    invites: Invites,
    nextId: ConversationId)

  // ---------------------------------------------------------------- contacts

  function LevelOf(contacts: Contacts, owner: SteamId, other: SteamId): Option<Level> {
    if Edge(owner, other) in contacts then Some(contacts[Edge(owner, other)].level) else None
  }

  predicate IsConnection(contacts: Contacts, e: Edge) {
    e in contacts && contacts[e].level != Imposter
  }

  predicate IsBlock(contacts: Contacts, e: Edge) {
    e in contacts && contacts[e].level == Imposter
  }

  /** canCommunicate: two rows, one each way, and neither of them a block. */
  predicate Connected(contacts: Contacts, first: SteamId, second: SteamId) {
    first != second && IsConnection(contacts, Edge(first, second)) && IsConnection(contacts, Edge(second, first))
  }

  function AllyIfAbsent(contacts: Contacts, e: Edge, now: int): Contacts {
    if e in contacts then contacts else contacts[e := Contact(Ally, now)]
  }

  // ---------------------------------------------------------------- requests

  /** The guard of the statements: not declined, and created after `now` minus the time to live. */
  predicate Live(createdAt: int, declinedAt: Option<int>, now: int) {
    declinedAt.None? && createdAt > now - REQUEST_TTL_MS
  }

  predicate IsPending(requests: Requests, e: Edge, now: int) {
    e in requests && Live(requests[e].createdAt, requests[e].declinedAt, now)
  }

  function PendingFrom(requests: Requests, user: SteamId, now: int): set<Edge> {
    set e | e in requests && e.from == user && IsPending(requests, e, now)
  }

  function CreatedSince(requests: Requests, user: SteamId, since: int): set<Edge> {
    set e | e in requests && e.from == user && requests[e].createdAt > since
  }

  /** Creates the request, or re-arms the row that is there. */
  function PutRequest(db: Db, e: Edge, now: int): Db {
    db.(requests := db.requests[e := Request(now, None)])
  }

  /** A pending request becomes a row on either side; a tier that is there is never lowered. */
  function AcceptRequest(db: Db, e: Edge, now: int): Db {
    if IsPending(db.requests, e, now)
    then db.(requests := db.requests - {e},
             contacts := AllyIfAbsent(AllyIfAbsent(db.contacts, e, now), Reverse(e), now))
    else db
  }

  function DeclineRequest(db: Db, e: Edge, now: int): Db {
    if IsPending(db.requests, e, now)
    then db.(requests := db.requests[e := db.requests[e].(declinedAt := Some(now))])
    else db
  }

  function WithdrawRequest(db: Db, e: Edge): Db {
    db.(requests := db.requests - {e})
  }

  // ---------------------------------------------------------------- ending and blocking

  predicate IsBetween(inviter: SteamId, invitee: SteamId, e: Edge) {
    (inviter == e.from && invitee == e.to) || (inviter == e.to && invitee == e.from)
  }

  function WithoutInvitesBetween(invites: Invites, e: Edge): Invites {
    map k | k in invites && !IsBetween(invites[k].inviter, k.invitee, e) :: invites[k]
  }

  function ConnectedRows(contacts: Contacts, e: Edge): set<Edge> {
    set r | r in {e, Reverse(e)} && IsConnection(contacts, r)
  }

  /** Ends a connection together with everything that depended on it; without a connected row, nothing. */
  function RemoveContact(db: Db, e: Edge): Db {
    if ConnectedRows(db.contacts, e) == {} then db
    else db.(contacts := db.contacts - ConnectedRows(db.contacts, e),
             requests := db.requests - {e, Reverse(e)},
             invites := WithoutInvitesBetween(db.invites, e))
  }

  /** The blocker's row becomes a block, and everything else between the two goes. */
  function Block(db: Db, e: Edge, now: int): Db {
    db.(contacts := db.contacts[e := Contact(Imposter, now)] - {Reverse(e)},
        requests := db.requests - {e, Reverse(e)},
        invites := WithoutInvitesBetween(db.invites, e))
  }

  function Unblock(db: Db, e: Edge): Db {
    if IsBlock(db.contacts, e) then db.(contacts := db.contacts - {e}) else db
  }

  function SetTier(db: Db, e: Edge, level: Level): Db {
    if level != Imposter && IsConnection(db.contacts, e)
    then db.(contacts := db.contacts[e := db.contacts[e].(level := level)])
    else db
  }

  // ---------------------------------------------------------------- conversations and invitations

  function MembersOf(c: Conversation): set<SteamId> {
    match c
    case Dm(pair, _) => {pair.low, pair.high}
    case Palette(_, members, _) => members
  }

  predicate IsMember(conversations: Conversations, c: ConversationId, user: SteamId) {
    c in conversations && user in MembersOf(conversations[c])
  }

  predicate IsInvited(invites: Invites, k: InviteKey, now: int) {
    k in invites && Live(invites[k].createdAt, invites[k].declinedAt, now)
  }

  function Invited(invites: Invites, palette: ConversationId, now: int): set<SteamId> {
    set k | k in invites && k.palette == palette && IsInvited(invites, k, now) :: k.invitee
  }

  /** What callers and members are shown of a conversation, both lists in ascending order. */
  datatype View = View(
    id: ConversationId,
    palette: bool,
    name: Option<string>,
    members: seq<SteamId>,
    invited: seq<SteamId>,
    createdAt: int)

  function Get(db: Db, c: ConversationId, now: int): Option<View> {
    if c !in db.conversations then None
    else
      var members := Ascending(MembersOf(db.conversations[c]));
      match db.conversations[c]
      case Dm(_, createdAt) => Some(View(c, false, None, members, [], createdAt))
      case Palette(name, _, createdAt) => Some(View(c, true, Some(name), members, Ascending(Invited(db.invites, c, now)), createdAt))
  }

  function CreateDm(db: Db, pair: DmRace.Pair, now: int): Db {
    db.(conversations := db.conversations[db.nextId := Dm(pair, now)], dms := db.dms[pair := db.nextId], nextId := db.nextId + 1)
  }

  function CreatePalette(db: Db, name: string, creator: SteamId, now: int): Db {
    db.(conversations := db.conversations[db.nextId := Palette(name, {creator}, now)], nextId := db.nextId + 1)
  }

  datatype InviteOutcome = Created | AlreadyMember | AlreadyInvited | CooldownActive

  function InviteOutcomeOf(db: Db, k: InviteKey, now: int): InviteOutcome {
    if IsMember(db.conversations, k.palette, k.invitee) then AlreadyMember
    else if k !in db.invites then Created
    else
      match db.invites[k].declinedAt
      case Some(declinedAt) => if now - declinedAt < DECLINE_COOLDOWN_MS then CooldownActive else Created
      case None => if now - db.invites[k].createdAt < REQUEST_TTL_MS then AlreadyInvited else Created
  }

  function PutInvite(db: Db, k: InviteKey, inviter: SteamId, now: int): Db {
    if InviteOutcomeOf(db, k, now) == Created then db.(invites := db.invites[k := Invite(inviter, now, None)]) else db
  }

  predicate IsPalette(conversations: Conversations, c: ConversationId) {
    c in conversations && conversations[c].Palette?
  }

  /** A pending invitation; its foreign key says that the palette is there. */
  predicate CanJoin(db: Db, k: InviteKey, now: int) {
    IsInvited(db.invites, k, now) && IsPalette(db.conversations, k.palette)
  }

  /** The invitation is used up and the invitee becomes a member, in one transaction. */
  function AcceptInvite(db: Db, k: InviteKey, now: int): Db {
    if CanJoin(db, k, now)
    then
      var p := db.conversations[k.palette];
      db.(invites := db.invites - {k}, conversations := db.conversations[k.palette := p.(members := p.members + {k.invitee})])
    else db
  }

  function DeclineInvite(db: Db, k: InviteKey, now: int): Db {
    if IsInvited(db.invites, k, now)
    then db.(invites := db.invites[k := db.invites[k].(declinedAt := Some(now))])
    else db
  }
}
