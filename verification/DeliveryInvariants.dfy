/** What every step of the delivery protocol keeps, and what follows for every reachable state. */
module DeliveryInvariants {
  import opened Common
  import opened MessageLog
  import opened Delivery

  /** The same state with the call of `t` in phase `p`. */
  function To(s: State, t: ThreadId, p: Phase): State { s.(threads := s.threads[t := p]) }

  /** Records a frame as published and starts handing it to the listed users. */
  function StartFanOut(s: State, t: ThreadId, frame: Frame, to: set<SteamId>, except: Option<ConnectionId>): State {
    To(s, t, FanningOut(frame, to, except)).(published := s.published + [frame])
  }

  // ---------------------------------------------------------------- frame sequences

  /** Deliveries of one conversation in strictly ascending id order, so each at most once. */
  ghost predicate InIdOrder(q: seq<Frame>) {
    forall i, j | 0 <= i < j < |q| && q[i].Delivered? && q[j].Delivered? && q[i].conversation == q[j].conversation ::
      q[i].id < q[j].id
  }

  /** No message is delivered after the frame that removes it. */
  ghost predicate NoOvertaking(q: seq<Frame>) {
    forall i, j | 0 <= i < j < |q| && q[i].Removed? && q[j].Delivered? && q[i].conversation == q[j].conversation ::
      q[i].id != q[j].id
  }

  ghost predicate RemovedOnce(q: seq<Frame>) {
    forall i, j | 0 <= i < j < |q| && q[i].Removed? && q[j].Removed? :: q[i].id != q[j].id
  }

  /** Every removal comes after the delivery of its message, unless that was never published. */
  ghost predicate RemovedAfterDelivered(q: seq<Frame>, orphans: set<MessageId>) {
    forall j | 0 <= j < |q| && q[j].Removed? && q[j].id !in orphans ::
      Frame.Delivered(q[j].conversation, q[j].id) in q[..j]
  }

  // ---------------------------------------------------------------- invariants

  ghost predicate LockedBy(s: State, t: ThreadId) {
    t in s.threads && Holding(s.threads[t]).Some? ==>
      var k := StripeOf(Holding(s.threads[t]).value);
      k in s.locks && s.locks[k] == t
  }

  ghost predicate LockInv(s: State) {
    forall t | t in s.threads :: LockedBy(s, t)
  }

  /** `id` is above every stored message of its conversation, except possibly itself. */
  ghost predicate Topmost(s: State, c: ConversationId, id: MessageId) {
    forall m | m in s.table && s.table[m].conversation == c && m != id :: m < id
  }

  /** `id` is above every message of its conversation published so far, except possibly itself. */
  ghost predicate AbovePublished(s: State, c: ConversationId, id: MessageId) {
    forall f | f in s.published && f.Delivered? && f.conversation == c && f.id != id :: f.id < id
  }

  ghost predicate RowOf(s: State, c: ConversationId, id: MessageId) {
    id in s.table && s.table[id].conversation == c
  }

  ghost predicate PhaseOk(s: State, p: Phase) {
    match p
    case SendDrawn(send, to, id) =>
      0 < id < s.nextId && id !in s.table && Topmost(s, send.conversation, id)
    case SendStored(send, to, id) =>
      && RowOf(s, send.conversation, id) && Topmost(s, send.conversation, id)
      && KeyOf(s.table[id]) == KeyOfSend(send) && s.table[id].sentAt == send.now
      && id in s.audience && s.audience[id] == Audience(to, send.origin) && id !in s.orphans
      && AbovePublished(s, send.conversation, id)
      && Frame.Delivered(send.conversation, id) !in s.published
      && Frame.Removed(send.conversation, id) !in s.published
    case RemoveMarked(del) =>
      && RowOf(s, del.conversation, del.message) && s.table[del.message].deletedAt.Some?
      && Frame.Removed(del.conversation, del.message) !in s.published
      && (Frame.Delivered(del.conversation, del.message) in s.published || del.message in s.orphans)
    case FanningOut(frame, todo, except) =>
      && !frame.Acked? && frame in s.published && RowOf(s, frame.conversation, frame.id)
      && (forall x | x in s.hub && x in s.outbox && s.hub[x] in todo :: frame !in s.outbox[x])
      && (frame.Delivered? ==>
            && AbovePublished(s, frame.conversation, frame.id)
            && Frame.Removed(frame.conversation, frame.id) !in s.published
            && frame.id in s.audience && todo <= s.audience[frame.id].to
            && except == Some(s.audience[frame.id].origin))
    case Leaving(_, reply) => reply.Some? ==> reply.value.1.Acked?
    case Answering(ack) => ack.1.Acked?
    case _ => true
  }

  ghost predicate PhaseInv(s: State) {
    forall t | t in s.threads :: PhaseOk(s, s.threads[t])
  }

  /** Drawn ids are distinct while they wait to be stored. */
  ghost predicate DrawnDistinct(s: State) {
    forall t, u | t in s.threads && u in s.threads && t != u && s.threads[t].SendDrawn? && s.threads[u].SendDrawn? ::
      s.threads[t].id != s.threads[u].id
  }

  ghost predicate Waiting(s: State, t: ThreadId, id: MessageId) {
    t in s.threads && s.threads[t].SendStored? && s.threads[t].id == id
  }

  /** Every stored row is published, or about to be, or its append never returned. */
  ghost predicate Accounted(s: State, id: MessageId)
    requires id in s.table
  {
    || Frame.Delivered(s.table[id].conversation, id) in s.published
    || id in s.orphans
    || exists t :: Waiting(s, t, id)
  }

  ghost predicate TableInv(s: State) {
    && WellFormed(s.table, s.nextId) && 0 < s.nextId
    && s.audience.Keys == s.table.Keys && s.orphans <= s.table.Keys
    && (forall id | id in s.table :: Accounted(s, id))
    && (forall a | a in s.answers :: a.id in s.table && KeyOf(s.table[a.id]) == a.key && s.table[a.id].sentAt == a.sentAt)
  }

  ghost predicate PublishedInv(s: State) {
    && (forall f | f in s.published :: !f.Acked? && RowOf(s, f.conversation, f.id))
    && (forall f | f in s.published && f.Delivered? :: f.id !in s.orphans)
    && (forall f | f in s.published && f.Removed? :: s.table[f.id].deletedAt.Some?)
    && InIdOrder(s.published) && NoOvertaking(s.published)
    && RemovedOnce(s.published) && RemovedAfterDelivered(s.published, s.orphans)
  }

  ghost predicate OutboxInv(s: State) {
    && s.hub.Keys <= s.outbox.Keys
    && (forall x | x in s.outbox :: InIdOrder(s.outbox[x]) && NoOvertaking(s.outbox[x]) && RemovedOnce(s.outbox[x]))
    && (forall x, f | x in s.outbox && f in s.outbox[x] && !f.Acked? :: f in s.published)
  }

  ghost predicate Inv(s: State) {
    LockInv(s) && PhaseInv(s) && DrawnDistinct(s) && TableInv(s) && PublishedInv(s) && OutboxInv(s)
  }

  lemma InitInv(s: State)
    requires Init(s)
    ensures Inv(s)
  {}

  /** Mutual exclusion: two calls on one conversation are never past their lock together. */
  lemma Exclusive(s: State, t: ThreadId, u: ThreadId)
    requires LockInv(s) && t in s.threads && u in s.threads
    requires Holding(s.threads[t]).Some? && Holding(s.threads[t]) == Holding(s.threads[u])
    ensures t == u
  {
    assert LockedBy(s, t) && LockedBy(s, u);
  }

  // ---------------------------------------------------------------- steps, one kind at a time

  /** Only the call of `t` changes, and neither gives up a stored row nor takes a new id. */
  ghost predicate OnlyMoves(s: State, s': State, t: ThreadId) {
    && s' == s.(threads := s'.threads, locks := s'.locks)
    && (forall u | u != t :: u in s.threads <==> u in s'.threads)
    && (forall u | u != t && u in s.threads :: s'.threads[u] == s.threads[u])
    && (t in s.threads ==> !s.threads[t].SendStored?)
    && (t in s'.threads ==> !s'.threads[t].SendDrawn? && PhaseOk(s, s'.threads[t]))
  }

  lemma SameBoxes(s: State, s': State)
    requires OutboxInv(s) && s'.outbox == s.outbox && s'.hub == s.hub
    requires forall f | f in s.published :: f in s'.published
    ensures OutboxInv(s')
  {}

  lemma MoveKeepsPhases(s: State, s': State, t: ThreadId)
    requires PhaseInv(s) && DrawnDistinct(s) && OnlyMoves(s, s', t)
    ensures PhaseInv(s') && DrawnDistinct(s')
  {
    forall u | u in s'.threads
      ensures PhaseOk(s', s'.threads[u])
    {
      if u != t { assert PhaseOk(s, s.threads[u]); }
    }
  }

  lemma MoveKeepsTable(s: State, s': State, t: ThreadId)
    requires TableInv(s) && OnlyMoves(s, s', t)
    ensures TableInv(s')
  {
    forall id | id in s'.table
      ensures Accounted(s', id)
    {
      assert Accounted(s, id);
      if u :| Waiting(s, u, id) { assert Waiting(s', u, id); }
    }
  }

  lemma MoveKeeps(s: State, s': State, t: ThreadId)
    requires Inv(s) && OnlyMoves(s, s', t) && LockInv(s')
    ensures Inv(s')
  {
    MoveKeepsPhases(s, s', t);
    MoveKeepsTable(s, s', t);
    SameBoxes(s, s');
  }

  lemma SameHolderKeepsLocks(s: State, s': State, t: ThreadId)
    requires LockInv(s) && s'.locks == s.locks
    requires forall u | u in s'.threads && u != t :: u in s.threads && s'.threads[u] == s.threads[u]
    requires t in s'.threads && Holding(s'.threads[t]).Some? ==>
               t in s.threads && Holding(s.threads[t]) == Holding(s'.threads[t])
    ensures LockInv(s')
  {
    forall u | u in s'.threads
      ensures LockedBy(s', u)
    {
      if u in s.threads { assert LockedBy(s, u); }
    }
  }

  /** What one step must show: the invariant again, and a table that only evolved. */
  ghost predicate Kept(s: State, step: Step)
    requires Enabled(s, step)
  {
    Inv(Apply(s, step)) && Evolves(s.table, Apply(s, step).table)
  }

  lemma BeginKeeps(s: State, step: Step)
    requires Inv(s) && Enabled(s, step) && (step.BeginSend? || step.BeginRemove?)
    ensures Kept(s, step)
  {
    EvolvesIsReflexive(s.table);
    var s' := Apply(s, step);
    SameHolderKeepsLocks(s, s', step.t);
    MoveKeeps(s, s', step.t);
  }

  lemma LockKeeps(s: State, t: ThreadId)
    requires Inv(s) && Enabled(s, Lock(t))
    ensures Kept(s, Lock(t))
  {
    EvolvesIsReflexive(s.table);
    var s' := Apply(s, Lock(t));
    forall u | u in s'.threads
      ensures LockedBy(s', u)
    {
      if u != t { assert LockedBy(s, u); }
    }
    MoveKeeps(s, s', t);
  }

  lemma UnlockKeepsLocks(s: State, s': State, t: ThreadId)
    requires LockInv(s) && t in s.threads && s.threads[t].Leaving?
    requires s'.locks == s.locks - {StripeOf(s.threads[t].conversation)}
    requires forall u | u in s'.threads && u != t :: u in s.threads && s'.threads[u] == s.threads[u]
    requires t in s'.threads ==> s'.threads[t].Answering?
    ensures LockInv(s')
  {
    assert LockedBy(s, t);
    forall u | u in s'.threads
      ensures LockedBy(s', u)
    {
      if u != t { assert LockedBy(s, u); }
    }
  }

  lemma UnlockKeeps(s: State, t: ThreadId)
    requires Inv(s) && Enabled(s, Unlock(t))
    ensures Kept(s, Unlock(t))
  {
    EvolvesIsReflexive(s.table);
    var s' := Apply(s, Unlock(t));
    assert PhaseOk(s, s.threads[t]);
    UnlockKeepsLocks(s, s', t);
    MoveKeeps(s, s', t);
  }

  lemma ReadMembersKeeps(s: State, t: ThreadId, allowed: bool)
    requires Inv(s) && Enabled(s, ReadMembers(t, allowed))
    ensures Kept(s, ReadMembers(t, allowed))
  {
    EvolvesIsReflexive(s.table);
    var s' := Apply(s, ReadMembers(t, allowed));
    SameHolderKeepsLocks(s, s', t);
    MoveKeeps(s, s', t);
  }

  /** What a call that has published replies, if it does. */
  function ReplyAfter(frame: Frame, except: Option<ConnectionId>): Option<(ConnectionId, Frame)> {
    if except.Some? then Some((except.value, Acked(frame.conversation, frame.id))) else None
  }

  lemma PublishedMoves(s: State, t: ThreadId)
    requires Inv(s) && Enabled(s, Step.Published(t))
    ensures Apply(s, Step.Published(t)) == To(s, t, Leaving(s.threads[t].frame.conversation, ReplyAfter(s.threads[t].frame, s.threads[t].except)))
  {}

  /** A call on its way out, with or without a reply. */
  lemma LeaveKeeps(s: State, t: ThreadId, reply: Option<(ConnectionId, Frame)>)
    requires Inv(s) && t in s.threads && Holding(s.threads[t]).Some? && !s.threads[t].SendStored?
    requires reply.Some? ==> reply.value.1.Acked?
    ensures Inv(To(s, t, Leaving(Holding(s.threads[t]).value, reply)))
  {
    var s' := To(s, t, Leaving(Holding(s.threads[t]).value, reply));
    SameHolderKeepsLocks(s, s', t);
    MoveKeeps(s, s', t);
  }

  lemma PublishedKeeps(s: State, t: ThreadId)
    requires Inv(s) && Enabled(s, Step.Published(t))
    ensures Kept(s, Step.Published(t))
  {
    EvolvesIsReflexive(s.table);
    PublishedMoves(s, t);
    LeaveKeeps(s, t, ReplyAfter(s.threads[t].frame, s.threads[t].except));
  }

  /** The rows accounted for stay so while published frames, orphans and waiting senders do. */
  lemma AccountedSurvives(s: State, s': State, t: ThreadId)
    requires forall id | id in s.table :: Accounted(s, id)
    requires forall id | id in s.table :: id in s'.table && s'.table[id].conversation == s.table[id].conversation
    requires forall f | f in s.published :: f in s'.published
    requires s.orphans <= s'.orphans
    requires forall u | u != t && u in s.threads :: u in s'.threads && s'.threads[u] == s.threads[u]
    requires t in s.threads && s.threads[t].SendStored? ==>
               var id := s.threads[t].id;
               (t in s'.threads && s'.threads[t] == s.threads[t]) || id !in s.table || id in s'.orphans
               || Frame.Delivered(s.table[id].conversation, id) in s'.published
    ensures forall id | id in s.table :: Accounted(s', id)
  {
    forall id | id in s.table
      ensures Accounted(s', id)
    {
      assert Accounted(s, id);
      if u :| Waiting(s, u, id) && Waiting(s', u, id) {}
    }
  }

  /** A step of `t` that leaves the table, the publications and the orphans alone leaves their invariants alone. */
  lemma SameTableKeeps(s: State, s': State, t: ThreadId)
    requires TableInv(s) && PublishedInv(s) && DrawnDistinct(s)
    requires s'.table == s.table && s'.nextId == s.nextId && s'.published == s.published && s'.orphans == s.orphans
    requires s'.audience == s.audience && s'.answers == s.answers
    requires forall u | u != t :: (u in s'.threads <==> u in s.threads) && (u in s.threads ==> s'.threads[u] == s.threads[u])
    requires t in s.threads ==> !s.threads[t].SendStored?
    requires t in s'.threads ==> !s'.threads[t].SendDrawn?
    ensures TableInv(s') && PublishedInv(s') && DrawnDistinct(s')
  {
    AccountedSurvives(s, s', t);
  }

  lemma RetryKeeps(s: State, s': State, t: ThreadId)
    requires Inv(s) && t in s.threads && s.threads[t].SendDrawn?
    requires KeyTaken(s.table, KeyOfSend(s.threads[t].send)) && s' == Apply(s, Commit(t))
    ensures Inv(s')
  {
    var send := s.threads[t].send;
    var moved := To(s, t, Leaving(send.conversation, Some((send.origin, Acked(send.conversation, Stored(s.table, KeyOfSend(send)))))));
    LeaveKeeps(s, t, Some((send.origin, Acked(send.conversation, Stored(s.table, KeyOfSend(send))))));
    assert s' == moved.(answers := s'.answers);
    AnswersOnly(moved, s');
  }

  lemma AnswersOnly(s: State, s': State)
    requires Inv(s) && s' == s.(answers := s'.answers)
    requires forall a | a in s'.answers :: a.id in s.table && KeyOf(s.table[a.id]) == a.key && s.table[a.id].sentAt == a.sentAt
    ensures Inv(s')
  {
    AccountedSurvives(s, s', 0);
    forall u | u in s'.threads
      ensures PhaseOk(s', s'.threads[u]) && LockedBy(s', u)
    {
      assert PhaseOk(s, s.threads[u]) && LockedBy(s, u);
    }
  }

  ghost predicate Draws(s: State, s': State, t: ThreadId) {
    && t in s.threads && s.threads[t].SendChecked?
    && s' == To(s, t, SendDrawn(s.threads[t].send, s.threads[t].to, s.nextId)).(nextId := s.nextId + 1)
  }

  lemma DrawIdKeepsPhases(s: State, s': State, t: ThreadId)
    requires PhaseInv(s) && DrawnDistinct(s) && TableInv(s) && Draws(s, s', t)
    ensures PhaseInv(s') && DrawnDistinct(s')
  {
    forall u | u in s'.threads
      ensures PhaseOk(s', s'.threads[u])
      ensures u != t && s'.threads[u].SendDrawn? ==> s'.threads[u].id != s.nextId
    {
      if u != t { assert PhaseOk(s, s.threads[u]); }
    }
  }

  lemma DrawIdKeeps(s: State, s': State, t: ThreadId)
    requires Inv(s) && Draws(s, s', t)
    ensures Inv(s')
  {
    SameHolderKeepsLocks(s, s', t);
    DrawIdKeepsPhases(s, s', t);
    AccountedSurvives(s, s', t);
  }

  // A new row becomes visible.

  ghost predicate Stores(s: State, s': State, t: ThreadId) {
    && t in s.threads && s.threads[t].SendDrawn? && !KeyTaken(s.table, KeyOfSend(s.threads[t].send))
    && s' == Apply(s, Commit(t))
  }

  lemma PhaseSurvivesStore(s: State, s': State, t: ThreadId, p: Phase)
    requires Stores(s, s', t) && PhaseOk(s, p) && PhaseOk(s, s.threads[t])
    requires Holding(p) != Some(s.threads[t].send.conversation)
    requires p.SendDrawn? ==> p.id != s.threads[t].id
    ensures PhaseOk(s', p)
  {}

  lemma StoredPhase(s: State, s': State, t: ThreadId)
    requires Inv(s) && Stores(s, s', t)
    ensures PhaseOk(s', s'.threads[t])
  {
    assert PhaseOk(s, s.threads[t]);
  }

  lemma StoreAddsARow(s: State, s': State, t: ThreadId)
    requires Inv(s) && Stores(s, s', t)
    ensures WellFormed(s'.table, s'.nextId) && OnlyNewRows(s.table, s'.table)
    ensures s'.table.Keys == s.table.Keys + {s.threads[t].id} && s'.audience.Keys == s'.table.Keys
  {
    var SendDrawn(send, to, id) := s.threads[t];
    assert PhaseOk(s, s.threads[t]);
    InsertingEvolves(s.table, s.nextId, id, KeyOfSend(send), send.body, send.now);
  }

  lemma StoreAccounts(s: State, s': State, t: ThreadId)
    requires TableInv(s) && Stores(s, s', t)
    requires OnlyNewRows(s.table, s'.table) && s'.table.Keys == s.table.Keys + {s.threads[t].id}
    ensures forall id | id in s'.table :: Accounted(s', id)
  {
    AccountedSurvives(s, s', t);
    assert Waiting(s', t, s.threads[t].id);
  }

  lemma StoreKeepsTable(s: State, s': State, t: ThreadId)
    requires Inv(s) && Stores(s, s', t)
    ensures TableInv(s') && Evolves(s.table, s'.table)
  {
    StoreAddsARow(s, s', t);
    StoreAccounts(s, s', t);
    assert s'.answers == s.answers && s'.orphans == s.orphans && s'.nextId == s.nextId;
  }

  lemma StoreKeepsPhases(s: State, s': State, t: ThreadId)
    requires Inv(s) && Stores(s, s', t)
    ensures PhaseInv(s') && DrawnDistinct(s')
  {
    StoredPhase(s, s', t);
    assert PhaseOk(s, s.threads[t]);
    forall u | u in s'.threads && u != t
      ensures PhaseOk(s', s'.threads[u])
    {
      assert PhaseOk(s, s.threads[u]);
      if Holding(s.threads[u]) == Holding(s.threads[t]) { Exclusive(s, t, u); }
      PhaseSurvivesStore(s, s', t, s.threads[u]);
    }
  }

  lemma StoreKeeps(s: State, s': State, t: ThreadId)
    requires Inv(s) && Stores(s, s', t)
    ensures Inv(s') && Evolves(s.table, s'.table)
  {
    SameHolderKeepsLocks(s, s', t);
    StoreKeepsTable(s, s', t);
    StoreKeepsPhases(s, s', t);
  }

  // A row is marked deleted.

  ghost predicate Marks(s: State, s': State, t: ThreadId) {
    && t in s.threads && s.threads[t].RemoveLocked?
    && var del := s.threads[t].del;
    && CanDelete(s.table, del.conversation, del.message, del.sender)
    && s' == To(s, t, RemoveMarked(del)).(table := MarkDeleted(s.table, del.message, del.now))
  }

  /** The sender of the message being deleted is past its own publication: it held the same lock. */
  lemma MarkedIsPublished(s: State, s': State, t: ThreadId)
    requires Inv(s) && Marks(s, s', t)
    ensures PhaseOk(s', s'.threads[t])
  {
    var del := s.threads[t].del;
    forall u | u in s.threads
      ensures !Waiting(s, u, del.message)
    {
      assert PhaseOk(s, s.threads[u]);
      if Holding(s.threads[u]) == Holding(s.threads[t]) { Exclusive(s, t, u); }
    }
    assert Accounted(s, del.message);
  }

  lemma PhaseSurvivesMark(s: State, s': State, t: ThreadId, p: Phase)
    requires Marks(s, s', t) && PhaseOk(s, p)
    ensures PhaseOk(s', p)
  {}

  lemma MarkKeepsTable(s: State, s': State, t: ThreadId)
    requires Inv(s) && Marks(s, s', t)
    ensures TableInv(s') && Evolves(s.table, s'.table)
  {
    var del := s.threads[t].del;
    DeletingEvolves(s.table, s.nextId, del.conversation, del.message, del.sender, del.now);
    assert s'.table.Keys == s.table.Keys;
    AccountedSurvives(s, s', t);
  }

  lemma MarkKeepsPhases(s: State, s': State, t: ThreadId)
    requires Inv(s) && Marks(s, s', t)
    ensures PhaseInv(s')
  {
    MarkedIsPublished(s, s', t);
    forall u | u in s'.threads && u != t
      ensures PhaseOk(s', s'.threads[u])
    {
      assert PhaseOk(s, s.threads[u]);
      PhaseSurvivesMark(s, s', t, s.threads[u]);
    }
  }

  lemma MarkKeepsPublished(s: State, s': State, t: ThreadId)
    requires PublishedInv(s) && Marks(s, s', t) && Evolves(s.table, s'.table)
    ensures PublishedInv(s')
  {
    forall f | f in s'.published
      ensures RowOf(s', f.conversation, f.id) && (f.Removed? ==> s'.table[f.id].deletedAt.Some?)
    {
      assert SameMessage(s.table[f.id], s'.table[f.id]);
    }
  }

  /** No call draws an id in a step of `t`, so those waiting to be stored stay distinct. */
  lemma OneFewerDrawn(s: State, s': State, t: ThreadId)
    requires DrawnDistinct(s) && forall u | u in s'.threads && u != t :: u in s.threads && s'.threads[u] == s.threads[u]
    requires t in s'.threads ==> !s'.threads[t].SendDrawn?
    ensures DrawnDistinct(s')
  {}

  lemma MarkKeeps(s: State, s': State, t: ThreadId)
    requires Inv(s) && Marks(s, s', t)
    ensures Inv(s') && Evolves(s.table, s'.table)
  {
    SameHolderKeepsLocks(s, s', t);
    MarkKeepsTable(s, s', t);
    MarkKeepsPhases(s, s', t);
    MarkKeepsPublished(s, s', t);
    SameBoxes(s, s');
    OneFewerDrawn(s, s', t);
  }

  // An append whose reply is lost.

  ghost predicate Loses(s: State, s': State, t: ThreadId) {
    && t in s.threads && s.threads[t].SendStored?
    && s' == To(s, t, Leaving(s.threads[t].send.conversation, None)).(orphans := s.orphans + {s.threads[t].id})
  }

  lemma PhaseSurvivesLoss(s: State, s': State, t: ThreadId, p: Phase)
    requires Loses(s, s', t) && PhaseOk(s, p) && PhaseOk(s, s.threads[t])
    requires Holding(p) != Some(s.threads[t].send.conversation)
    ensures PhaseOk(s', p)
  {}

  lemma LoseKeepsTable(s: State, s': State, t: ThreadId)
    requires TableInv(s) && Loses(s, s', t) && PhaseOk(s, s.threads[t])
    ensures TableInv(s')
  {
    AccountedSurvives(s, s', t);
  }

  lemma LoseKeepsPublished(s: State, s': State, t: ThreadId)
    requires PublishedInv(s) && Loses(s, s', t) && PhaseOk(s, s.threads[t])
    ensures PublishedInv(s')
  {
    assert forall g: Frame | g.Delivered? :: g == Frame.Delivered(g.conversation, g.id);
  }

  lemma LoseKeepsPhases(s: State, s': State, t: ThreadId)
    requires Inv(s) && Loses(s, s', t)
    ensures PhaseInv(s')
  {
    assert PhaseOk(s, s.threads[t]);
    forall u | u in s'.threads
      ensures PhaseOk(s', s'.threads[u])
    {
      if u != t {
        assert PhaseOk(s, s.threads[u]);
        if Holding(s.threads[u]) == Holding(s.threads[t]) { Exclusive(s, t, u); }
        PhaseSurvivesLoss(s, s', t, s.threads[u]);
      }
    }
  }

  lemma LoseKeeps(s: State, s': State, t: ThreadId)
    requires Inv(s) && Loses(s, s', t)
    ensures Inv(s')
  {
    assert PhaseOk(s, s.threads[t]);
    SameHolderKeepsLocks(s, s', t);
    LoseKeepsTable(s, s', t);
    LoseKeepsPublished(s, s', t);
    LoseKeepsPhases(s, s', t);
    SameBoxes(s, s');
    OneFewerDrawn(s, s', t);
  }

  // A frame is published.

  ghost predicate Publishable(s: State, frame: Frame, to: set<SteamId>, except: Option<ConnectionId>) {
    && !frame.Acked? && frame !in s.published && RowOf(s, frame.conversation, frame.id)
    && (frame.Delivered? ==>
          && AbovePublished(s, frame.conversation, frame.id) && frame.id !in s.orphans
          && Frame.Removed(frame.conversation, frame.id) !in s.published
          && frame.id in s.audience && s.audience[frame.id].to == to && except == Some(s.audience[frame.id].origin))
    && (frame.Removed? ==>
          && s.table[frame.id].deletedAt.Some?
          && (Frame.Delivered(frame.conversation, frame.id) in s.published || frame.id in s.orphans))
  }

  ghost predicate Publishes(s: State, s': State, t: ThreadId, frame: Frame, to: set<SteamId>, except: Option<ConnectionId>) {
    && t in s.threads && Holding(s.threads[t]) == Some(frame.conversation)
    && s' == StartFanOut(s, t, frame, to, except)
    && Publishable(s, frame, to, except)
    && (s.threads[t].SendStored? ==> frame == Frame.Delivered(s.threads[t].send.conversation, s.threads[t].id))
  }

  lemma PhaseSurvivesFrame(s: State, s': State, f: Frame, p: Phase)
    requires s'.table == s.table && s'.nextId == s.nextId && s'.audience == s.audience && s'.orphans == s.orphans
    requires s'.hub == s.hub && s'.outbox == s.outbox && s'.published == s.published + [f]
    requires PhaseOk(s, p) && Holding(p) != Some(f.conversation)
    ensures PhaseOk(s', p)
  {}

  lemma PublishedPhase(s: State, s': State, t: ThreadId, frame: Frame, to: set<SteamId>, except: Option<ConnectionId>)
    requires OutboxInv(s) && Publishes(s, s', t, frame, to, except)
    ensures PhaseOk(s', s'.threads[t])
  {
    assert frame in s'.published;
  }

  lemma InIdOrderGrows(q: seq<Frame>, f: Frame)
    requires InIdOrder(q)
    requires f.Delivered? ==> forall g | g in q && g.Delivered? && g.conversation == f.conversation :: g.id < f.id
    ensures InIdOrder(q + [f])
  {}

  lemma NoOvertakingGrows(q: seq<Frame>, f: Frame)
    requires NoOvertaking(q) && (f.Delivered? ==> Frame.Removed(f.conversation, f.id) !in q)
    ensures NoOvertaking(q + [f])
  {
    assert forall g: Frame | g.Removed? :: g == Frame.Removed(g.conversation, g.id);
  }

  lemma RemovalsGrow(q: seq<Frame>, f: Frame, orphans: set<MessageId>)
    requires RemovedOnce(q) && RemovedAfterDelivered(q, orphans)
    requires f.Removed? ==> forall g | g in q && g.Removed? :: g.id != f.id
    requires f.Removed? ==> f.id in orphans || Frame.Delivered(f.conversation, f.id) in q
    ensures RemovedOnce(q + [f]) && RemovedAfterDelivered(q + [f], orphans)
  {
    forall j | 0 <= j < |q + [f]| && (q + [f])[j].Removed? && (q + [f])[j].id !in orphans
      ensures Frame.Delivered((q + [f])[j].conversation, (q + [f])[j].id) in (q + [f])[..j]
    {
      assert (q + [f])[..j] == q[..j];
    }
  }

  lemma PublishKeepsPublished(s: State, s': State, t: ThreadId, frame: Frame, to: set<SteamId>, except: Option<ConnectionId>)
    requires PublishedInv(s) && Publishes(s, s', t, frame, to, except)
    ensures PublishedInv(s')
  {
    assert forall g: Frame | g.Removed? :: g == Frame.Removed(g.conversation, g.id);
    assert forall g: Frame | g.Delivered? :: g == Frame.Delivered(g.conversation, g.id);
    InIdOrderGrows(s.published, frame);
    NoOvertakingGrows(s.published, frame);
    RemovalsGrow(s.published, frame, s.orphans);
  }

  lemma PublishKeepsPhases(s: State, s': State, t: ThreadId, frame: Frame, to: set<SteamId>, except: Option<ConnectionId>)
    requires LockInv(s) && PhaseInv(s) && OutboxInv(s) && Publishes(s, s', t, frame, to, except)
    ensures PhaseInv(s')
  {
    PublishedPhase(s, s', t, frame, to, except);
    forall u | u in s'.threads && u != t
      ensures PhaseOk(s', s'.threads[u])
    {
      assert PhaseOk(s, s.threads[u]);
      if Holding(s.threads[u]) == Holding(s.threads[t]) { Exclusive(s, t, u); }
      PhaseSurvivesFrame(s, s', frame, s.threads[u]);
    }
  }

  lemma PublishKeepsTable(s: State, s': State, t: ThreadId, frame: Frame, to: set<SteamId>, except: Option<ConnectionId>)
    requires TableInv(s) && Publishes(s, s', t, frame, to, except) && PhaseOk(s, s.threads[t])
    ensures TableInv(s')
  {
    AccountedSurvives(s, s', t);
  }

  lemma PublishKeeps(s: State, s': State, t: ThreadId, frame: Frame, to: set<SteamId>, except: Option<ConnectionId>)
    requires Inv(s) && Publishes(s, s', t, frame, to, except)
    ensures Inv(s')
  {
    assert PhaseOk(s, s.threads[t]);
    SameHolderKeepsLocks(s, s', t);
    PublishKeepsPublished(s, s', t, frame, to, except);
    PublishKeepsPhases(s, s', t, frame, to, except);
    PublishKeepsTable(s, s', t, frame, to, except);
    SameBoxes(s, s');
    OneFewerDrawn(s, s', t);
  }

  lemma PublishMessageKeeps(s: State, s': State, t: ThreadId)
    requires Inv(s) && Enabled(s, PublishMessage(t)) && s' == Apply(s, PublishMessage(t))
    ensures Inv(s')
  {
    var SendStored(send, to, id) := s.threads[t];
    assert PhaseOk(s, s.threads[t]);
    var frame := Frame.Delivered(send.conversation, id);
    var published := StartFanOut(s, t, frame, to, Some(send.origin));
    PublishKeeps(s, published, t, frame, to, Some(send.origin));
    AnswersOnly(published, s');
  }

  lemma PublishRemovalKeeps(s: State, s': State, t: ThreadId)
    requires Inv(s) && Enabled(s, PublishRemoval(t)) && s' == Apply(s, PublishRemoval(t))
    ensures Inv(s')
  {
    var del := s.threads[t].del;
    assert PhaseOk(s, s.threads[t]);
    PublishKeeps(s, s', t, Frame.Removed(del.conversation, del.message), MembersNow(s, del.conversation), None);
  }

  // A published frame reaches the connections of one member.

  ghost predicate Hands(s: State, s': State, t: ThreadId, user: SteamId) {
    && t in s.threads && s.threads[t].FanningOut? && user in s.threads[t].todo
    && var p := s.threads[t];
    && s' == To(s, t, p.(todo := p.todo - {user})).(outbox := HandedOut(s, p.frame, user, p.except))
  }

  lemma RemovedOnceGrows(q: seq<Frame>, f: Frame)
    requires RemovedOnce(q) && (f.Removed? ==> forall g | g in q && g.Removed? :: g.id != f.id)
    ensures RemovedOnce(q + [f])
  {}

  /** Two published removals of one message are one frame. */
  lemma SameRemoval(s: State, f: Frame, g: Frame)
    requires PublishedInv(s) && f in s.published && g in s.published && f.Removed? && g.Removed? && f.id == g.id
    ensures f == g
  {
    assert RowOf(s, f.conversation, f.id) && RowOf(s, g.conversation, g.id);
  }

  lemma BoxTakesFrame(s: State, x: ConnectionId, frame: Frame)
    requires OutboxInv(s) && PublishedInv(s) && x in s.outbox && frame in s.published && !frame.Acked? && frame !in s.outbox[x]
    requires frame.Delivered? ==> AbovePublished(s, frame.conversation, frame.id) && Frame.Removed(frame.conversation, frame.id) !in s.published
    ensures var q := s.outbox[x] + [frame];
            InIdOrder(q) && NoOvertaking(q) && RemovedOnce(q) && forall f | f in q && !f.Acked? :: f in s.published
  {
    var q := s.outbox[x];
    assert forall g: Frame | g.Delivered? :: g == Frame.Delivered(g.conversation, g.id);
    InIdOrderGrows(q, frame);
    NoOvertakingGrows(q, frame);
    forall g | g in q && g.Removed? && frame.Removed?
      ensures g.id != frame.id
    {
      if g.id == frame.id { SameRemoval(s, g, frame); }
    }
    RemovedOnceGrows(q, frame);
  }

  lemma HandingKeepsOutbox(s: State, s': State, t: ThreadId, user: SteamId)
    requires OutboxInv(s) && PublishedInv(s) && Hands(s, s', t, user) && PhaseOk(s, s.threads[t])
    ensures OutboxInv(s')
  {
    forall x | x in s'.outbox
      ensures InIdOrder(s'.outbox[x]) && NoOvertaking(s'.outbox[x]) && RemovedOnce(s'.outbox[x])
      ensures forall f | f in s'.outbox[x] && !f.Acked? :: f in s.published
    {
      if s'.outbox[x] != s.outbox[x] { BoxTakesFrame(s, x, s.threads[t].frame); }
    }
  }

  lemma PhaseSurvivesHanding(s: State, s': State, t: ThreadId, user: SteamId, p: Phase)
    requires Hands(s, s', t, user) && PhaseOk(s, p)
    requires Holding(p).None? || Holding(p) != Holding(s.threads[t])
    ensures PhaseOk(s', p)
  {}

  lemma HandKeepsPhases(s: State, s': State, t: ThreadId, user: SteamId)
    requires LockInv(s) && PhaseInv(s) && Hands(s, s', t, user)
    ensures PhaseInv(s')
  {
    assert PhaseOk(s, s.threads[t]);
    forall u | u in s'.threads && u != t
      ensures PhaseOk(s', s'.threads[u])
    {
      assert PhaseOk(s, s.threads[u]);
      if Holding(s.threads[u]) == Holding(s.threads[t]) { Exclusive(s, t, u); }
      PhaseSurvivesHanding(s, s', t, user, s.threads[u]);
    }
  }

  lemma HandKeeps(s: State, s': State, t: ThreadId, user: SteamId)
    requires Inv(s) && Hands(s, s', t, user)
    ensures Inv(s')
  {
    assert PhaseOk(s, s.threads[t]);
    SameHolderKeepsLocks(s, s', t);
    HandingKeepsOutbox(s, s', t, user);
    HandKeepsPhases(s, s', t, user);
    SameTableKeeps(s, s', t);
  }

  // Acknowledgements and connections.

  /** Only connections and their outboxes change: they come, go, or get an acknowledgement more. */
  ghost predicate OnlyBoxes(s: State, s': State) {
    && s' == s.(outbox := s'.outbox, hub := s'.hub, members := s'.members)
    && s'.hub.Keys <= s'.outbox.Keys
    && (forall x | x in s'.outbox ::
          if x in s.outbox then s'.outbox[x] == s.outbox[x] || (exists f: Frame :: f.Acked? && s'.outbox[x] == s.outbox[x] + [f])
          else s'.outbox[x] == [])
    && (forall x | x in s'.hub && x in s.outbox :: x in s.hub && s'.hub[x] == s.hub[x])
  }

  lemma BoxesKeepPhases(s: State, s': State)
    requires LockInv(s) && PhaseInv(s) && OnlyBoxes(s, s')
    ensures LockInv(s') && PhaseInv(s')
  {
    forall u | u in s'.threads
      ensures PhaseOk(s', s'.threads[u]) && LockedBy(s', u)
    {
      assert PhaseOk(s, s.threads[u]) && LockedBy(s, u);
    }
  }

  lemma BoxesStayInOrder(s: State, s': State)
    requires OutboxInv(s) && OnlyBoxes(s, s')
    ensures OutboxInv(s')
  {}

  /** Acknowledgements, new connections and closed ones leave everything about deliveries alone. */
  lemma OutboxOnly(s: State, s': State)
    requires Inv(s) && OnlyBoxes(s, s')
    ensures Inv(s')
  {
    AccountedSurvives(s, s', 0);
    BoxesKeepPhases(s, s');
    BoxesStayInOrder(s, s');
  }

  lemma EndKeeps(s: State, t: ThreadId)
    requires Inv(s) && t in s.threads && s.threads[t].Answering?
    ensures Inv(s.(threads := s.threads - {t}))
  {
    var s' := s.(threads := s.threads - {t});
    SameHolderKeepsLocks(s, s', t);
    MoveKeeps(s, s', t);
  }

  lemma AckIsOnlyABox(s: State, t: ThreadId)
    requires Inv(s) && t in s.threads && s.threads[t].Answering?
    ensures OnlyBoxes(s.(threads := s.threads - {t}), Apply(s, Step.Ack(t)))
  {
    assert PhaseOk(s, s.threads[t]);
  }

  lemma AckKeeps(s: State, s': State, t: ThreadId)
    requires Inv(s) && t in s.threads && s.threads[t].Answering? && s' == Apply(s, Step.Ack(t))
    ensures Inv(s')
  {
    EndKeeps(s, t);
    AckIsOnlyABox(s, t);
    OutboxOnly(s.(threads := s.threads - {t}), s');
  }

  lemma CallStepKeeps(s: State, step: Step)
    requires Inv(s) && Enabled(s, step)
    requires step.BeginSend? || step.BeginRemove? || step.Lock? || step.Unlock?
    ensures Kept(s, step)
  {
    match step
    case BeginSend(_, _) => BeginKeeps(s, step);
    case BeginRemove(_, _) => BeginKeeps(s, step);
    case Lock(t) => LockKeeps(s, t);
    case Unlock(t) => UnlockKeeps(s, t);
  }

  lemma LockedStepKeeps(s: State, step: Step)
    requires Inv(s) && Enabled(s, step) && (step.ReadMembers? || step.DrawId? || step.Published?)
    ensures Kept(s, step)
  {
    EvolvesIsReflexive(s.table);
    match step
    case ReadMembers(t, allowed) => ReadMembersKeeps(s, t, allowed);
    case DrawId(t) => DrawIdKeeps(s, Apply(s, step), t);
    case Published(t) => PublishedKeeps(s, t);
  }

  lemma CommitKeeps(s: State, t: ThreadId)
    requires Inv(s) && Enabled(s, Commit(t))
    ensures Kept(s, Commit(t))
  {
    EvolvesIsReflexive(s.table);
    var s' := Apply(s, Commit(t));
    if KeyTaken(s.table, KeyOfSend(s.threads[t].send)) { RetryKeeps(s, s', t); } else { StoreKeeps(s, s', t); }
  }

  lemma MarkStepKeeps(s: State, t: ThreadId)
    requires Inv(s) && Enabled(s, Mark(t))
    ensures Kept(s, Mark(t))
  {
    EvolvesIsReflexive(s.table);
    if Marks(s, Apply(s, Mark(t)), t) { MarkKeeps(s, Apply(s, Mark(t)), t); } else { LeaveKeeps(s, t, None); }
  }

  lemma ThrowKeeps(s: State, t: ThreadId)
    requires Inv(s) && Enabled(s, Throw(t))
    ensures Kept(s, Throw(t))
  {
    EvolvesIsReflexive(s.table);
    if s.threads[t].SendStored? { LoseKeeps(s, Apply(s, Throw(t)), t); } else { LeaveKeeps(s, t, None); }
  }

  lemma CommitStepKeeps(s: State, step: Step)
    requires Inv(s) && Enabled(s, step) && (step.Commit? || step.Mark? || step.Throw?)
    ensures Kept(s, step)
  {
    match step
    case Commit(t) => CommitKeeps(s, t);
    case Mark(t) => MarkStepKeeps(s, t);
    case Throw(t) => ThrowKeeps(s, t);
  }

  lemma FrameStepKeeps(s: State, step: Step)
    requires Inv(s) && Enabled(s, step) && (step.PublishMessage? || step.PublishRemoval? || step.FanOut? || step.Ack?)
    ensures Kept(s, step)
  {
    var s' := Apply(s, step);
    EvolvesIsReflexive(s.table);
    match step
    case PublishMessage(t) => PublishMessageKeeps(s, s', t);
    case PublishRemoval(t) => PublishRemovalKeeps(s, s', t);
    case FanOut(t, user) => HandKeeps(s, s', t, user);
    case Ack(t) => AckKeeps(s, s', t);
  }

  lemma OtherStepKeeps(s: State, step: Step)
    requires Inv(s) && Enabled(s, step) && (step.Connect? || step.Disconnect? || step.Create? || step.Join?)
    ensures Kept(s, step)
  {
    EvolvesIsReflexive(s.table);
    OutboxOnly(s, Apply(s, step));
  }

  /** Every step keeps the invariant, and shows readers only what `Evolves` allows. */
  lemma StepKeeps(s: State, step: Step)
    requires Inv(s) && Enabled(s, step)
    ensures Inv(Apply(s, step)) && Evolves(s.table, Apply(s, step).table)
  {
    assert Kept(s, step) by {
      if step.Commit? || step.Mark? || step.Throw? { CommitStepKeeps(s, step); }
      else if step.PublishMessage? || step.PublishRemoval? || step.FanOut? || step.Ack? { FrameStepKeeps(s, step); }
      else if step.Connect? || step.Disconnect? || step.Create? || step.Join? { OtherStepKeeps(s, step); }
      else if step.ReadMembers? || step.DrawId? || step.Published? { LockedStepKeeps(s, step); }
      else { CallStepKeeps(s, step); }
    }
  }
}
