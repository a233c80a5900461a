/** What clients may rely on in every run of the delivery protocol. */
module DeliveryGuarantees {
  import opened Common
  import opened MessageLog
  import opened Delivery
  import opened DeliveryInvariants

  function Tables(run: seq<State>): (ts: seq<Table>) {
    seq(|run|, i requires 0 <= i < |run| => run[i].table)
  }

  lemma NextKeeps(s: State, s': State)
    requires Inv(s) && Next(s, s')
    ensures Inv(s') && Evolves(s.table, s'.table)
  {
    var step :| Enabled(s, step) && s' == Apply(s, step);
    StepKeeps(s, step);
  }

  lemma {:induction false} InvAt(run: seq<State>, i: nat)
    requires Run(run) && i < |run|
    ensures Inv(run[i])
  {
    if i == 0 {
      InitInv(run[0]);
    } else {
      InvAt(run, i - 1);
      assert Follows(run, i);
      NextKeeps(run[i - 1], run[i]);
    }
  }

  /** Every reachable state satisfies the invariant, and the tables of a run form a history. */
  lemma RunKeeps(run: seq<State>)
    requires Run(run)
    ensures forall i | 0 <= i < |run| :: Inv(run[i])
    ensures History(Tables(run))
  {
    forall i | 0 <= i < |run|
      ensures Inv(run[i])
      ensures i + 1 < |run| ==> Evolves(run[i].table, run[i + 1].table)
    {
      InvAt(run, i);
      if i + 1 < |run| {
        assert Follows(run, i + 1);
        NextKeeps(run[i], run[i + 1]);
      }
    }
  }

  // ---------------------------------------------------------------- what lock-free readers see

  /** A reader who has seen an id of a conversation never finds a new one below it later. */
  lemma ReadersSeePrefixes(run: seq<State>, i: nat, j: nat, seen: MessageId, appeared: MessageId)
    requires Run(run) && i <= j < |run|
    requires seen in run[i].table && appeared in run[j].table && appeared !in run[i].table
    requires run[j].table[appeared].conversation == run[i].table[seen].conversation
    ensures seen < appeared
  {
    RunKeeps(run);
    NothingAppearsBelow(Tables(run), i, j, seen, appeared);
  }

  /** Any two answers to submits of one key name the same message and the same server time. */
  lemma AnswersAgree(run: seq<State>, i: nat, j: nat, a: Answer, b: Answer)
    requires Run(run) && i <= j < |run|
    requires a in run[i].answers && b in run[j].answers && a.key == b.key
    ensures a.id == b.id && a.sentAt == b.sentAt
  {
    RunKeeps(run);
    OneMessagePerKey(Tables(run), i, j, a.id, b.id, run[j].nextId);
  }

  /** Once a read could miss a message because it is deleted, every later read misses it too. */
  lemma DeletedStaysDeleted(run: seq<State>, i: nat, j: nat, id: MessageId, c: ConversationId, n: MessageId)
    requires Run(run) && i <= j < |run| && id in run[i].table && run[i].table[id].deletedAt.Some?
    ensures id in run[j].table && run[j].table[id].text == "" && run[j].table[id].deletedAt == run[i].table[id].deletedAt
    ensures id !in LiveAfter(run[j].table, c, n) && id !in LiveBefore(run[j].table, c, n)
  {
    RunKeeps(run);
    DeletionIsForever(Tables(run), i, j, id, c, n, run[i].nextId);
  }

  lemma OtherStepsLeaveTheTable(s: State, step: Step)
    requires Enabled(s, step) && !step.Commit? && !step.Mark?
    ensures Apply(s, step).table == s.table
  {}

  lemma MarkChanges(s: State, t: ThreadId)
    requires Enabled(s, Mark(t))
    ensures var u := Apply(s, Mark(t)).table; u == s.table || MarksOne(s.table, u)
  {
    var del := s.threads[t].del;
    if CanDelete(s.table, del.conversation, del.message, del.sender) {
      assert Apply(s, Mark(t)).table == MarkDeleted(s.table, del.message, del.now);
    }
  }

  lemma CommitChanges(s: State, t: ThreadId)
    requires Inv(s) && Enabled(s, Commit(t))
    ensures var u := Apply(s, Commit(t)).table; u == s.table || OnlyNewRows(s.table, u)
  {
    if !KeyTaken(s.table, KeyOfSend(s.threads[t].send)) { StoreAddsARow(s, Apply(s, Commit(t)), t); }
  }

  ghost predicate MarksOne(t: Table, u: Table) {
    exists id, now :: id in t && t[id].deletedAt.None? && u == MarkDeleted(t, id, now)
  }

  /** A step of the protocol changes the table in one of the two ways a device has to reckon with. */
  lemma TableChanges(s: State, step: Step)
    requires Inv(s) && Enabled(s, step)
    ensures var u := Apply(s, step).table; u == s.table || OnlyNewRows(s.table, u) || MarksOne(s.table, u)
  {
    match step
    case Commit(t) => CommitChanges(s, t);
    case Mark(t) => MarkChanges(s, t);
    case _ => OtherStepsLeaveTheTable(s, step);
  }

  // ---------------------------------------------------------------- what is published

  /**
   * Publication order, in every reachable state: the deliveries of one conversation carry strictly
   * ascending ids (so each message once), a removal is published at most once, and nothing is
   * delivered after its removal; and so on every connection.
   */
  lemma PublicationOrder(run: seq<State>, i: nat)
    requires Run(run) && i < |run|
    ensures InIdOrder(run[i].published) && RemovedOnce(run[i].published) && NoOvertaking(run[i].published)
    ensures forall x | x in run[i].outbox ::
              InIdOrder(run[i].outbox[x]) && NoOvertaking(run[i].outbox[x]) && RemovedOnce(run[i].outbox[x])
  {
    RunKeeps(run);
  }

  /** Exactly one of three things is true of every stored message. */
  lemma PublishedExactlyOnce(run: seq<State>, i: nat, id: MessageId)
    requires Run(run) && i < |run| && id in run[i].table
    ensures var s := run[i];
            var published := Frame.Delivered(s.table[id].conversation, id) in s.published;
            var waiting := exists t :: Waiting(s, t, id);
            && (published || waiting || id in s.orphans)
            && !(published && waiting) && !(published && id in s.orphans) && !(waiting && id in s.orphans)
  {
    RunKeeps(run);
    var s := run[i];
    assert Accounted(s, id);
    forall t | Waiting(s, t, id)
      ensures Frame.Delivered(s.table[id].conversation, id) !in s.published && id !in s.orphans
    {
      assert PhaseOk(s, s.threads[t]);
    }
  }

  /**
   * A removal follows the delivery of its message exactly when the append that stored the message
   * returned; after an append whose reply was lost, members hear only the removal.
   */
  lemma RemovalFollowsDelivery(run: seq<State>, i: nat, j: nat)
    requires Run(run) && i < |run| && j < |run[i].published| && run[i].published[j].Removed?
    ensures var f := run[i].published[j];
            Frame.Delivered(f.conversation, f.id) in run[i].published[..j] <==> f.id !in run[i].orphans
  {
    RunKeeps(run);
    var s := run[i];
    var f := s.published[j];
    if Frame.Delivered(f.conversation, f.id) in s.published[..j] {
      assert Frame.Delivered(f.conversation, f.id) in s.published;
    }
  }

  // ---------------------------------------------------------------- who is handed a delivery

  ghost predicate HandedTo(s: State, x: ConnectionId, id: MessageId) {
    id in s.table && x in s.outbox && Frame.Delivered(s.table[id].conversation, id) in s.outbox[x]
  }

  /** The call that stored `id` will still hand it to `user`. */
  ghost predicate OnItsWay(s: State, t: ThreadId, id: MessageId, user: SteamId) {
    && t in s.threads
    && (|| (s.threads[t].SendStored? && s.threads[t].id == id)
        || (s.threads[t].FanningOut? && s.threads[t].frame.Delivered? && s.threads[t].frame.id == id && user in s.threads[t].todo))
  }

  /** Only the audience is ever handed a delivery, and never the connection that sent it. */
  ghost predicate AudienceOnly(s: State) {
    forall x, f | x in s.hub && x in s.outbox && f in s.outbox[x] && f.Delivered? ::
      f.id in s.audience && s.hub[x] in s.audience[f.id].to && x != s.audience[f.id].origin
  }

  /** Of the rows stored since `known` was the table, all meant for `x` have reached it or will. */
  ghost predicate NoneSkipped(known: Table, s: State, x: ConnectionId, user: SteamId) {
    forall id | id in s.table && id !in known && id in s.audience && user in s.audience[id].to && s.audience[id].origin != x ::
      HandedTo(s, x, id) || id in s.orphans || exists t :: OnItsWay(s, t, id, user)
  }

  ghost predicate BoxesKept(s: State, s': State) { s'.outbox == s.outbox && s'.hub == s.hub }

  lemma CallsLeaveBoxes(s: State, step: Step)
    requires Enabled(s, step) && Mover(step).Some? && !step.FanOut? && !step.Ack?
    ensures BoxesKept(s, Apply(s, step))
  {}

  lemma AckChanges(s: State, t: ThreadId)
    requires Enabled(s, Step.Ack(t))
    ensures var s', (origin, frame) := Apply(s, Step.Ack(t)), s.threads[t].ack;
            s'.hub == s.hub && s'.outbox == if origin in s.outbox then s.outbox[origin := s.outbox[origin] + [frame]] else s.outbox
  {}

  /** Apart from FanOut, a step hands no delivery to anyone. */
  lemma OutboxChanges(s: State, step: Step)
    requires Enabled(s, step) && !step.FanOut?
    ensures var s' := Apply(s, step);
            forall x | x in s'.outbox ::
              x !in s.outbox || s'.outbox[x] == s.outbox[x] || (step.Ack? && s'.outbox[x] == s.outbox[x] + [s.threads[step.t].ack.1])
    ensures var s' := Apply(s, step); s.outbox.Keys <= s'.outbox.Keys
    ensures forall x | x in Apply(s, step).outbox && x !in s.outbox :: Apply(s, step).outbox[x] == []
    ensures forall x | x in Apply(s, step).hub && x in s.outbox :: x in s.hub && Apply(s, step).hub[x] == s.hub[x]
  {
    match step
    case Ack(t) => AckChanges(s, t);
    case Connect(_, _) =>
    case Disconnect(_) =>
    case Create(_, _) =>
    case Join(_, _) =>
    case _ => CallsLeaveBoxes(s, step);
  }

  lemma AudienceGrows(s: State, step: Step)
    requires Enabled(s, step) && (step.Commit? ==> s.threads[step.t].id !in s.audience)
    ensures forall id | id in s.audience :: id in Apply(s, step).audience && Apply(s, step).audience[id] == s.audience[id]
  {}

  lemma FanOutKeepsAudience(s: State, t: ThreadId, user: SteamId)
    requires PhaseInv(s) && AudienceOnly(s) && Enabled(s, FanOut(t, user))
    ensures AudienceOnly(Apply(s, FanOut(t, user)))
  {
    var s' := Apply(s, FanOut(t, user));
    assert s'.outbox == HandedOut(s, s.threads[t].frame, user, s.threads[t].except) && s'.hub == s.hub && s'.audience == s.audience;
    assert PhaseOk(s, s.threads[t]);
  }

  /** Boxes gain no delivery and no connection changes its user, while what is known of audiences only grows. */
  lemma NoDeliveryKeepsAudience(s: State, s': State)
    requires AudienceOnly(s)
    requires forall id | id in s.audience :: id in s'.audience && s'.audience[id] == s.audience[id]
    requires forall x, f | x in s'.outbox && f in s'.outbox[x] && f.Delivered? :: x in s.outbox && f in s.outbox[x]
    requires forall x | x in s'.hub && x in s.outbox :: x in s.hub && s'.hub[x] == s.hub[x]
    ensures AudienceOnly(s')
  {}

  lemma StepKeepsAudience(s: State, step: Step)
    requires Inv(s) && AudienceOnly(s) && Enabled(s, step)
    ensures AudienceOnly(Apply(s, step))
  {
    if step.FanOut? {
      FanOutKeepsAudience(s, step.t, step.user);
    } else {
      if step.Commit? || step.Ack? { assert PhaseOk(s, s.threads[step.t]); }
      AudienceGrows(s, step);
      OutboxChanges(s, step);
      NoDeliveryKeepsAudience(s, Apply(s, step));
    }
  }

  lemma OthersStand(s: State, step: Step, u: ThreadId)
    requires Enabled(s, step) && u in s.threads && Mover(step) != Some(u)
    ensures u in Apply(s, step).threads && Apply(s, step).threads[u] == s.threads[u]
  {}

  lemma OutboxGrows(s: State, step: Step, x: ConnectionId, f: Frame)
    requires Enabled(s, step) && x in s.outbox && f in s.outbox[x]
    ensures x in Apply(s, step).outbox && f in Apply(s, step).outbox[x]
  {
    if step.FanOut? {
      assert Apply(s, step).outbox == HandedOut(s, s.threads[step.t].frame, step.user, s.threads[step.t].except);
    } else {
      OutboxChanges(s, step);
    }
  }

  lemma FanOutReaches(s: State, t: ThreadId, u: SteamId, x: ConnectionId)
    requires Enabled(s, FanOut(t, u)) && x in s.hub && x in s.outbox && s.hub[x] == u && s.threads[t].except != Some(x)
    ensures s.threads[t].frame in Apply(s, FanOut(t, u)).outbox[x]
  {
    var s' := Apply(s, FanOut(t, u));
    assert s'.outbox == HandedOut(s, s.threads[t].frame, u, s.threads[t].except);
    assert s'.outbox[x] == s.outbox[x] + [s.threads[t].frame];
  }

  /** A delivery on its way to `x` comes nearer with every step of its call, or is lost to an exception. */
  lemma DeliveryGoesOn(s: State, step: Step, t: ThreadId, id: MessageId, x: ConnectionId, user: SteamId)
    requires OutboxInv(s) && Enabled(s, step) && Mover(step) == Some(t) && OnItsWay(s, t, id, user)
    requires PhaseOk(s, s.threads[t])
    requires id in s.audience && user in s.audience[id].to && s.audience[id].origin != x
    requires x in s.hub && s.hub[x] == user
    ensures HandedTo(Apply(s, step), x, id) || id in Apply(s, step).orphans || OnItsWay(Apply(s, step), t, id, user)
  {
    if s.threads[t].FanningOut? && step.FanOut? && step.user == user {
      FanOutReaches(s, t, user, x);
      assert s.threads[t].frame == Frame.Delivered(s.table[id].conversation, id);
    }
  }

  lemma CommitStores(s: State, t: ThreadId, id: MessageId)
    requires Enabled(s, Commit(t)) && id in Apply(s, Commit(t)).table && id !in s.table
    ensures var SendDrawn(send, to, drawn) := s.threads[t];
            && id == drawn && Apply(s, Commit(t)).threads == s.threads[t := SendStored(send, to, id)]
            && Apply(s, Commit(t)).table[id].conversation == send.conversation
            && Apply(s, Commit(t)).audience == s.audience[id := Audience(to, send.origin)]
  {
    var SendDrawn(send, to, drawn) := s.threads[t];
    var e := CommitSend(s, send, to, drawn);
    assert Apply(s, Commit(t)) == e.shared.(threads := WithPhase(s.threads, t, e.after));
    assert !KeyTaken(s.table, KeyOfSend(send));
  }

  lemma NewRowIsStored(s: State, step: Step, id: MessageId)
    requires Enabled(s, step) && id in Apply(s, step).table && id !in s.table
    ensures step.Commit? && Apply(s, step).threads == s.threads[step.t := SendStored(s.threads[step.t].send, s.threads[step.t].to, id)]
    ensures Apply(s, step).table[id].conversation == s.threads[step.t].send.conversation
    ensures Apply(s, step).audience == s.audience[id := Audience(s.threads[step.t].to, s.threads[step.t].send.origin)]
  {
    match step
    case Commit(t) => CommitStores(s, t, id);
    case Mark(t) => MarkChanges(s, t);
    case _ => OtherStepsLeaveTheTable(s, step);
  }

  lemma NewRowIsOnItsWay(s: State, step: Step, id: MessageId, user: SteamId)
    requires Enabled(s, step)
    requires var s' := Apply(s, step); id in s'.table && id !in s.table && id in s'.audience && user in s'.audience[id].to
    ensures exists t :: OnItsWay(Apply(s, step), t, id, user)
  {
    NewRowIsStored(s, step, id);
    assert OnItsWay(Apply(s, step), step.t, id, user);
  }

  lemma HandedStays(s: State, step: Step, id: MessageId, x: ConnectionId)
    requires Enabled(s, step) && HandedTo(s, x, id)
    requires id in Apply(s, step).table && Apply(s, step).table[id].conversation == s.table[id].conversation
    ensures HandedTo(Apply(s, step), x, id)
  {
    OutboxGrows(s, step, x, Frame.Delivered(s.table[id].conversation, id));
  }

  lemma OrphansGrow(s: State, step: Step)
    requires Enabled(s, step)
    ensures s.orphans <= Apply(s, step).orphans
  {}

  lemma CallGoesOn(s: State, step: Step, t: ThreadId, id: MessageId, x: ConnectionId, user: SteamId)
    requires OutboxInv(s) && PhaseInv(s) && Enabled(s, step) && OnItsWay(s, t, id, user)
    requires id in s.audience && user in s.audience[id].to && s.audience[id].origin != x
    requires x in s.hub && s.hub[x] == user
    ensures HandedTo(Apply(s, step), x, id) || id in Apply(s, step).orphans || OnItsWay(Apply(s, step), t, id, user)
  {
    if Mover(step) == Some(t) {
      assert PhaseOk(s, s.threads[t]);
      DeliveryGoesOn(s, step, t, id, x, user);
    } else {
      OthersStand(s, step, t);
    }
  }

  lemma RowGoesOn(s: State, step: Step, id: MessageId, x: ConnectionId, user: SteamId)
    requires OutboxInv(s) && PhaseInv(s) && Enabled(s, step)
    requires id in s.table && id in s.audience && user in s.audience[id].to && s.audience[id].origin != x
    requires id in Apply(s, step).table && Apply(s, step).table[id].conversation == s.table[id].conversation
    requires x in s.hub && s.hub[x] == user
    requires HandedTo(s, x, id) || id in s.orphans || exists t :: OnItsWay(s, t, id, user)
    ensures HandedTo(Apply(s, step), x, id) || id in Apply(s, step).orphans || exists t :: OnItsWay(Apply(s, step), t, id, user)
  {
    if HandedTo(s, x, id) {
      HandedStays(s, step, id, x);
    } else if id in s.orphans {
      OrphansGrow(s, step);
    } else {
      var t: ThreadId :| OnItsWay(s, t, id, user);
      CallGoesOn(s, step, t, id, x, user);
    }
  }

  lemma RowStays(s: State, step: Step, id: MessageId)
    requires Inv(s) && Enabled(s, step) && id in s.table
    ensures id in Apply(s, step).table && Apply(s, step).table[id].conversation == s.table[id].conversation
  {
    StepKeeps(s, step);
    assert SameMessage(s.table[id], Apply(s, step).table[id]);
  }

  lemma StepSkipsNone(known: Table, s: State, step: Step, x: ConnectionId, user: SteamId)
    requires Inv(s) && NoneSkipped(known, s, x, user) && Enabled(s, step)
    requires x in s.hub && s.hub[x] == user
    ensures NoneSkipped(known, Apply(s, step), x, user)
  {
    var s' := Apply(s, step);
    assert step.Commit? ==> PhaseOk(s, s.threads[step.t]);
    AudienceGrows(s, step);
    forall id | id in s'.table && id !in known && id in s'.audience && user in s'.audience[id].to && s'.audience[id].origin != x
      ensures HandedTo(s', x, id) || id in s'.orphans || exists t :: OnItsWay(s', t, id, user)
    {
      if id in s.table {
        RowStays(s, step, id);
        RowGoesOn(s, step, id, x, user);
      } else {
        NewRowIsOnItsWay(s, step, id, user);
      }
    }
  }
}
