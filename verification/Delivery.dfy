/**
 * Sending, deleting and fanning out as interleaved steps of many threads. A call holds the mutex of
 * its conversation's stripe from before it reads the member list until after it has published; readers
 * take no lock and see `table` as it is at any moment.
 */
module Delivery {
  import opened Common
  import opened MessageLog

  type ThreadId = nat
  type ConnectionId = nat

  const STRIPES: nat := 64

  /** A conversation's mutex: its id, read as an unsigned 64-bit number, picks one of the stripes. */
  function StripeOf(c: ConversationId): (k: nat)
    ensures k < 64 && k == c % 64
  {
    (c % 0x1_0000_0000_0000_0000) % STRIPES
  }

  datatype Send = Send(
    conversation: ConversationId,
    sender: SteamId,
    clientId: string,
    body: string,
    now: int,
    origin: ConnectionId)

  datatype Delete = Delete(conversation: ConversationId, message: MessageId, sender: SteamId, now: int)

  datatype Frame =
    | Delivered(conversation: ConversationId, id: MessageId)
    | Removed(conversation: ConversationId, id: MessageId)
    | Acked(conversation: ConversationId, id: MessageId)

  /** What `submit` answered: the stored message of a key, whether new or a retry. */
  datatype Answer = Answer(key: Key, id: MessageId, sentAt: int)

  datatype Phase =
    | Sending(send: Send)
    | SendLocked(send: Send)
    | SendChecked(send: Send, to: set<SteamId>)
    | SendDrawn(send: Send, to: set<SteamId>, id: MessageId)
    | SendStored(send: Send, to: set<SteamId>, id: MessageId)
    | Removing(del: Delete)
    | RemoveLocked(del: Delete)
    | RemoveMarked(del: Delete)
    | FanningOut(frame: Frame, todo: set<SteamId>, except: Option<ConnectionId>)
    | Leaving(conversation: ConversationId, reply: Option<(ConnectionId, Frame)>)
    | Answering(ack: (ConnectionId, Frame))

  /** Who a stored message was meant for, as its sender's call read it. Bookkeeping for the proofs. */
  datatype Audience = Audience(to: set<SteamId>, origin: ConnectionId)

  datatype State = State(
    table: Table,
    nextId: MessageId,
    members: map<ConversationId, set<SteamId>>,
    locks: map<nat, ThreadId>,
    threads: map<ThreadId, Phase>,
    hub: map<ConnectionId, SteamId>,
    outbox: map<ConnectionId, seq<Frame>>,
    published: seq<Frame>,
    answers: set<Answer>,
    audience: map<MessageId, Audience>,
    orphans: set<MessageId>)

  /** The conversation whose stripe a call in this phase holds. */
  function Holding(p: Phase): Option<ConversationId> {
    match p
    case Sending(_) | Removing(_) | Answering(_) => None
    case SendLocked(send) => Some(send.conversation)
    case SendChecked(send, _) => Some(send.conversation)
    case SendDrawn(send, _, _) => Some(send.conversation)
    case SendStored(send, _, _) => Some(send.conversation)
    case RemoveLocked(del) => Some(del.conversation)
    case RemoveMarked(del) => Some(del.conversation)
    case FanningOut(frame, _, _) => Some(frame.conversation)
    case Leaving(c, _) => Some(c)
  }

  // ---------------------------------------------------------------- steps

  datatype Step =
    | BeginSend(t: ThreadId, send: Send)
    | BeginRemove(t: ThreadId, del: Delete)
    | Lock(t: ThreadId)
    | ReadMembers(t: ThreadId, allowed: bool)
    | DrawId(t: ThreadId)
    | Commit(t: ThreadId)
    | Mark(t: ThreadId)
    | Throw(t: ThreadId)
    | PublishMessage(t: ThreadId)
    | PublishRemoval(t: ThreadId)
    | FanOut(t: ThreadId, user: SteamId)
    | Published(t: ThreadId)
    | Unlock(t: ThreadId)
    | Ack(t: ThreadId)
    | Connect(connection: ConnectionId, user: SteamId)
    | Disconnect(connection: ConnectionId)
    | Create(conversation: ConversationId, users: set<SteamId>)
    | Join(conversation: ConversationId, user: SteamId)

  function KeyOfSend(send: Send): Key { Key(send.conversation, send.sender, send.clientId) }

  ghost predicate Enabled(s: State, step: Step) {
    match step
    case BeginSend(t, _) => t !in s.threads
    case BeginRemove(t, _) => t !in s.threads
    case Lock(t) =>
      && t in s.threads
      && (s.threads[t].Sending? || s.threads[t].Removing?)
      && StripeOf(Wanted(s.threads[t])) !in s.locks
    case ReadMembers(t, _) => t in s.threads && s.threads[t].SendLocked?
    case DrawId(t) => t in s.threads && s.threads[t].SendChecked?
    case Commit(t) => t in s.threads && s.threads[t].SendDrawn?
    case Mark(t) => t in s.threads && s.threads[t].RemoveLocked?
    case Throw(t) =>
      && t in s.threads
      && (s.threads[t].SendLocked? || s.threads[t].SendChecked? || s.threads[t].SendDrawn?
          || s.threads[t].SendStored? || s.threads[t].RemoveLocked? || s.threads[t].RemoveMarked?)
    case PublishMessage(t) => t in s.threads && s.threads[t].SendStored?
    case PublishRemoval(t) => t in s.threads && s.threads[t].RemoveMarked?
    case FanOut(t, user) => t in s.threads && s.threads[t].FanningOut? && user in s.threads[t].todo
    case Published(t) => t in s.threads && s.threads[t].FanningOut? && s.threads[t].todo == {}
    case Unlock(t) => t in s.threads && s.threads[t].Leaving?
    case Ack(t) => t in s.threads && s.threads[t].Answering?
    case Connect(connection, _) => connection !in s.outbox
    case Disconnect(connection) => connection in s.hub
    case Create(c, _) => c !in s.members
    case Join(c, _) => c in s.members
  }

  function Wanted(p: Phase): ConversationId
    requires p.Sending? || p.Removing?
  {
    if p.Sending? then p.send.conversation else p.del.conversation
  }

  /** Hands a frame to every open connection of one user, except the one that sent the message. */
  function HandedOut(s: State, frame: Frame, user: SteamId, except: Option<ConnectionId>): map<ConnectionId, seq<Frame>> {
    map x | x in s.outbox ::
      if x in s.hub && s.hub[x] == user && Some(x) != except then s.outbox[x] + [frame] else s.outbox[x]
  }

  ghost function Stored(t: Table, k: Key): MessageId
    requires KeyTaken(t, k)
    ensures Stored(t, k) in t && KeyOf(t[Stored(t, k)]) == k
  {
    var id :| id in t && KeyOf(t[id]) == k;
    id
  }

  function MembersNow(s: State, c: ConversationId): set<SteamId> {
    if c in s.members then s.members[c] else {}
  }

  /** The thread whose call a step advances; None for the steps of the surroundings. */
  function Mover(step: Step): Option<ThreadId> {
    match step
    case Connect(_, _) | Disconnect(_) | Create(_, _) | Join(_, _) => None
    case _ => Some(step.t)
  }

  /** A call's next phase (None: it has returned), and the shared state its step leaves behind. */
  datatype Effect = Effect(after: Option<Phase>, shared: State)

  /** INSERT ... ON CONFLICT DO NOTHING becoming visible, with the id drawn earlier. */
  ghost function CommitSend(s: State, send: Send, to: set<SteamId>, id: MessageId): Effect {
    var k := KeyOfSend(send);
    if KeyTaken(s.table, k) then
      var e := Stored(s.table, k);
      Effect(Some(Leaving(send.conversation, Some((send.origin, Acked(send.conversation, e))))),
             s.(answers := s.answers + {Answer(k, e, s.table[e].sentAt)}))
    else
      Effect(Some(SendStored(send, to, id)),
             s.(table := Insert(s.table, id, k, send.body, send.now), audience := s.audience[id := Audience(to, send.origin)]))
  }

  ghost function EffectOf(s: State, step: Step): Effect
    requires Enabled(s, step) && Mover(step).Some?
  {
    match step
    case BeginSend(_, send) => Effect(Some(Sending(send)), s)
    case BeginRemove(_, del) => Effect(Some(Removing(del)), s)
    case Lock(t) =>
      var p := s.threads[t];
      Effect(Some(if p.Sending? then SendLocked(p.send) else RemoveLocked(p.del)), s.(locks := s.locks[StripeOf(Wanted(p)) := t]))
    case ReadMembers(t, allowed) =>
      var send := s.threads[t].send;
      var c := send.conversation;
      var ok := c in s.members && send.sender in s.members[c] && allowed;
      Effect(Some(if ok then SendChecked(send, s.members[c]) else Leaving(c, None)), s)
    case DrawId(t) =>
      Effect(Some(SendDrawn(s.threads[t].send, s.threads[t].to, s.nextId)), s.(nextId := s.nextId + 1))
    case Commit(t) => CommitSend(s, s.threads[t].send, s.threads[t].to, s.threads[t].id)
    case Mark(t) =>
      var del := s.threads[t].del;
      if CanDelete(s.table, del.conversation, del.message, del.sender)
      then Effect(Some(RemoveMarked(del)), s.(table := MarkDeleted(s.table, del.message, del.now)))
      else Effect(Some(Leaving(del.conversation, None)), s)
    case Throw(t) =>
      var p := s.threads[t];
      Effect(Some(Leaving(Holding(p).value, None)), s.(orphans := if p.SendStored? then s.orphans + {p.id} else s.orphans))
    case PublishMessage(t) =>
      var SendStored(send, to, id) := s.threads[t];
      var frame := Frame.Delivered(send.conversation, id);
      Effect(Some(FanningOut(frame, to, Some(send.origin))),
             s.(published := s.published + [frame], answers := s.answers + {Answer(KeyOfSend(send), id, send.now)}))
    case PublishRemoval(t) =>
      var del := s.threads[t].del;
      var frame := Frame.Removed(del.conversation, del.message);
      Effect(Some(FanningOut(frame, MembersNow(s, del.conversation), None)), s.(published := s.published + [frame]))
    case FanOut(t, user) =>
      var p := s.threads[t];
      Effect(Some(p.(todo := p.todo - {user})), s.(outbox := HandedOut(s, p.frame, user, p.except)))
    case Published(t) =>
      var p := s.threads[t];
      var c := p.frame.conversation;
      Effect(Some(Leaving(c, if p.except.Some? then Some((p.except.value, Acked(c, p.frame.id))) else None)), s)
    case Unlock(t) =>
      var p := s.threads[t];
      Effect(if p.reply.Some? then Some(Answering(p.reply.value)) else None, s.(locks := s.locks - {StripeOf(p.conversation)}))
    case Ack(t) =>
      var (origin, frame) := s.threads[t].ack;
      Effect(None, s.(outbox := if origin in s.outbox then s.outbox[origin := s.outbox[origin] + [frame]] else s.outbox))
  }

  ghost function Surroundings(s: State, step: Step): State
    requires Enabled(s, step) && Mover(step).None?
  {
    match step
    case Connect(x, user) => s.(hub := s.hub[x := user], outbox := s.outbox[x := []])
    case Disconnect(x) => s.(hub := s.hub - {x})
    case Create(c, users) => s.(members := s.members[c := users])
    case Join(c, user) => s.(members := s.members[c := s.members[c] + {user}])
  }

  function WithPhase(threads: map<ThreadId, Phase>, t: ThreadId, p: Option<Phase>): map<ThreadId, Phase> {
    if p.Some? then threads[t := p.value] else threads - {t}
  }

  ghost function Apply(s: State, step: Step): State
    requires Enabled(s, step)
  {
    match Mover(step)
    case Some(t) =>
      var e := EffectOf(s, step);
      e.shared.(threads := WithPhase(s.threads, t, e.after))
    case None => Surroundings(s, step)
  }

  ghost predicate Init(s: State) {
    && s.table == map[] && s.nextId == 1
    && s.members == map[] && s.locks == map[] && s.threads == map[]
    && s.hub == map[] && s.outbox == map[]
    && s.published == [] && s.answers == {}
    && s.audience == map[] && s.orphans == {}
  }

  ghost predicate Next(s: State, s': State) {
    exists step :: Enabled(s, step) && s' == Apply(s, step)
  }

  ghost predicate Follows(run: seq<State>, i: nat)
    requires 0 < i < |run|
  {
    Next(run[i - 1], run[i])
  }

  ghost predicate Run(run: seq<State>) {
    && 0 < |run| && Init(run[0])
    && forall i | 0 < i < |run| :: Follows(run, i)
  }
}
