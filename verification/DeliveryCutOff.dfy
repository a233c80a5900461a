/**
 * A connection may be cut off at any frame: its queue overflows or closes, and its socket has seen some
 * prefix of what was pushed. Below the highest id in that prefix nothing from others is missing, so
 * whatever was lost lies above the device's plain maximum.
 */
module DeliveryCutOff {
  import opened Common
  import opened MessageLog
  import opened CatchUp
  import opened Delivery
  import opened DeliveryInvariants
  import opened DeliveryGuarantees
  import opened DeliveryCoverage

  /** After an answer naming an id, no delivery of that conversation lies below it. */
  ghost predicate AnswersInPlace(q: seq<Frame>) {
    forall i, j | 0 <= i < j < |q| && q[i].Acked? && q[j].Delivered? && q[i].conversation == q[j].conversation ::
      q[i].id <= q[j].id
  }

  ghost predicate NamesRow(s: State, f: Frame) { f.Acked? ==> RowOf(s, f.conversation, f.id) }

  ghost predicate CallInPlace(s: State, p: Phase) {
    match p
    case FanningOut(frame, _, _) => frame.Delivered? ==> Topmost(s, frame.conversation, frame.id)
    case Leaving(_, reply) => reply.Some? ==> NamesRow(s, reply.value.1)
    case Answering(ack) => NamesRow(s, ack.1)
    case _ => true
  }

  ghost predicate CallsInPlace(s: State) { forall t | t in s.threads :: CallInPlace(s, s.threads[t]) }

  ghost predicate OutboxInPlace(s: State, x: ConnectionId) {
    x in s.outbox ==> AnswersInPlace(s.outbox[x]) && forall f | f in s.outbox[x] :: NamesRow(s, f)
  }

  ghost predicate InPlace(s: State) { CallsInPlace(s) && forall x :: OutboxInPlace(s, x) }

  lemma NameStays(s: State, s': State, f: Frame)
    requires Evolves(s.table, s'.table) && NamesRow(s, f)
    ensures NamesRow(s', f)
  {
    if f.Acked? { assert SameMessage(s.table[f.id], s'.table[f.id]); }
  }

  /** New rows belong to a conversation whose lock `t` holds. */
  ghost predicate NewRowsLocked(s: State, s': State, t: ThreadId) {
    forall m | m in s'.table && m !in s.table :: t in s.threads && Holding(s.threads[t]) == Some(s'.table[m].conversation)
  }

  lemma NewRowsAreLocked(s: State, step: Step, t: ThreadId)
    requires Enabled(s, step) && (Mover(step) == None || Mover(step) == Some(t))
    ensures NewRowsLocked(s, Apply(s, step), t)
  {
    forall m | m in Apply(s, step).table && m !in s.table
      ensures t in s.threads && Holding(s.threads[t]) == Some(Apply(s, step).table[m].conversation)
    {
      NewRowIsStored(s, step, m);
    }
  }

  /** Another call cannot store a row above one that is being handed out: both would need the same lock. */
  lemma TopmostStays(s: State, s': State, t: ThreadId, u: ThreadId, frame: Frame)
    requires LockInv(s) && t != u && NewRowsLocked(s, s', t) && Evolves(s.table, s'.table)
    requires u in s.threads && s.threads[u].FanningOut? && s.threads[u].frame == frame && Topmost(s, frame.conversation, frame.id)
    ensures Topmost(s', frame.conversation, frame.id)
  {
    forall m | m in s'.table && m !in s.table
      ensures s'.table[m].conversation != frame.conversation
    {
      if s'.table[m].conversation == frame.conversation { Exclusive(s, t, u); }
    }
    forall m | m in s.table
      ensures m in s'.table && s'.table[m].conversation == s.table[m].conversation
    {
      assert SameMessage(s.table[m], s'.table[m]);
    }
  }

  lemma OtherCallStaysInPlace(s: State, s': State, t: ThreadId, u: ThreadId)
    requires LockInv(s) && t != u && NewRowsLocked(s, s', t) && Evolves(s.table, s'.table)
    requires u in s.threads && CallInPlace(s, s.threads[u])
    ensures CallInPlace(s', s.threads[u])
  {
    match s.threads[u]
    case FanningOut(frame, _, _) => if frame.Delivered? { TopmostStays(s, s', t, u, frame); }
    case Leaving(_, reply) => if reply.Some? { NameStays(s, s', reply.value.1); }
    case Answering(ack) => NameStays(s, s', ack.1);
    case _ =>
  }

  lemma PublisherInPlace(s: State, t: ThreadId)
    requires PhaseInv(s) && Enabled(s, PublishMessage(t))
    ensures CallInPlace(Apply(s, PublishMessage(t)), Apply(s, PublishMessage(t)).threads[t])
  {
    assert PhaseOk(s, s.threads[t]);
    assert Apply(s, PublishMessage(t)).table == s.table;
  }

  /** Past publication a call's row stays the topmost one, and its answer names that row. */
  lemma PublishedInPlace(s: State, step: Step)
    requires PhaseInv(s) && CallsInPlace(s) && Enabled(s, step) && (step.FanOut? || step.Published? || step.Unlock?)
    ensures step.t in Apply(s, step).threads ==> CallInPlace(Apply(s, step), Apply(s, step).threads[step.t])
  {
    assert PhaseOk(s, s.threads[step.t]) && CallInPlace(s, s.threads[step.t]);
    assert Apply(s, step).table == s.table;
  }

  lemma MoverInPlace(s: State, step: Step, t: ThreadId)
    requires PhaseInv(s) && CallsInPlace(s) && Enabled(s, step) && Mover(step) == Some(t)
    requires t in Apply(s, step).threads
    ensures CallInPlace(Apply(s, step), Apply(s, step).threads[t])
  {
    match step
    case Commit(_) => CommitterInPlace(s, t);
    case PublishMessage(_) => PublisherInPlace(s, t);
    case FanOut(_, _) => PublishedInPlace(s, step);
    case Published(_) => PublishedInPlace(s, step);
    case Unlock(_) => PublishedInPlace(s, step);
    case _ =>
  }

  lemma CommitterInPlace(s: State, t: ThreadId)
    requires Enabled(s, Commit(t))
    ensures CallInPlace(Apply(s, Commit(t)), Apply(s, Commit(t)).threads[t])
  {
    var k := KeyOfSend(s.threads[t].send);
    if KeyTaken(s.table, k) { assert KeyOf(s.table[Stored(s.table, k)]) == k; }
  }

  lemma StepKeepsCalls(s: State, step: Step)
    requires Inv(s) && CallsInPlace(s) && Enabled(s, step)
    ensures CallsInPlace(Apply(s, step))
  {
    var s' := Apply(s, step);
    assert Evolves(s.table, s'.table) by { StepKeeps(s, step); }
    forall u | u in s'.threads
      ensures CallInPlace(s', s'.threads[u])
    {
      if Mover(step) != Some(u) {
        var t := if Mover(step).Some? then Mover(step).value else u + 1;
        assert u in s.threads && s'.threads[u] == s.threads[u];
        NewRowsAreLocked(s, step, t);
        OtherCallStaysInPlace(s, s', t, u);
      } else {
        MoverInPlace(s, step, u);
      }
    }
  }

  /** One more delivery of the topmost row, or one more answer. */
  lemma OneMoreInPlace(s: State, q: seq<Frame>, f: Frame)
    requires AnswersInPlace(q) && (forall g | g in q :: NamesRow(s, g)) && NamesRow(s, f)
    requires f.Delivered? ==> Topmost(s, f.conversation, f.id)
    ensures AnswersInPlace(q + [f]) && forall g | g in q + [f] :: NamesRow(s, g)
  {
    forall i, j | 0 <= i < j < |q + [f]| && (q + [f])[i].Acked? && (q + [f])[j].Delivered?
                  && (q + [f])[i].conversation == (q + [f])[j].conversation
      ensures (q + [f])[i].id <= (q + [f])[j].id
    {
      assert (q + [f])[i] in q;
    }
  }

  lemma FanOutKeepsBox(s: State, t: ThreadId, user: SteamId, x: ConnectionId)
    requires CallsInPlace(s) && OutboxInPlace(s, x) && Enabled(s, FanOut(t, user)) && !s.threads[t].frame.Acked?
    ensures OutboxInPlace(Apply(s, FanOut(t, user)), x)
  {
    var s' := Apply(s, FanOut(t, user));
    assert s'.outbox == HandedOut(s, s.threads[t].frame, user, s.threads[t].except);
    assert CallInPlace(s, s.threads[t]);
    EvolvesIsReflexive(s.table);
    if x in s.outbox {
      BoxStays(s, s', s.outbox[x]);
      if s'.outbox[x] != s.outbox[x] { OneMoreInPlace(s', s.outbox[x], s.threads[t].frame); }
    }
  }

  lemma BoxStays(s: State, s': State, q: seq<Frame>)
    requires Evolves(s.table, s'.table) && forall f | f in q :: NamesRow(s, f)
    ensures forall f | f in q :: NamesRow(s', f)
  {
    forall f | f in q
      ensures NamesRow(s', f)
    {
      NameStays(s, s', f);
    }
  }

  lemma StepKeepsBox(s: State, step: Step, x: ConnectionId)
    requires Inv(s) && CallsInPlace(s) && OutboxInPlace(s, x) && Enabled(s, step)
    ensures OutboxInPlace(Apply(s, step), x)
  {
    var s' := Apply(s, step);
    if step.FanOut? {
      assert PhaseOk(s, s.threads[step.t]);
      FanOutKeepsBox(s, step.t, step.user, x);
    } else if x in s'.outbox {
      OutboxChanges(s, step);
      assert Evolves(s.table, s'.table) by { StepKeeps(s, step); }
      if x in s.outbox {
        BoxStays(s, s', s.outbox[x]);
        if s'.outbox[x] != s.outbox[x] {
          var ack := s.threads[step.t].ack.1;
          assert PhaseOk(s, s.threads[step.t]) && CallInPlace(s, s.threads[step.t]);
          NameStays(s, s', ack);
          OneMoreInPlace(s', s.outbox[x], ack);
        }
      }
    }
  }

  lemma NextInPlace(s: State, s': State)
    requires Inv(s) && InPlace(s) && Next(s, s')
    ensures InPlace(s')
  {
    var step :| Enabled(s, step) && s' == Apply(s, step);
    StepKeepsCalls(s, step);
    forall x
      ensures OutboxInPlace(s', x)
    {
      StepKeepsBox(s, step, x);
    }
  }

  lemma {:induction false} InPlaceAt(run: seq<State>, i: nat)
    requires Run(run) && i < |run|
    ensures Inv(run[i]) && InPlace(run[i])
  {
    InvAt(run, i);
    if i > 0 {
      InPlaceAt(run, i - 1);
      NextAt(run, i);
      NextInPlace(run[i - 1], run[i]);
    }
  }

  /** Every delivery below an id that a prefix of the outbox names is in that prefix. */
  lemma PrefixIsGapless(run: seq<State>, i: nat, x: ConnectionId, received: seq<Frame>, f: Frame, named: Frame)
    requires Run(run) && i < |run| && x in run[i].outbox && received <= run[i].outbox[x]
    requires named in received && !named.Removed?
    requires f in run[i].outbox[x] && f.Delivered? && f.conversation == named.conversation && f.id < named.id
    ensures f in received
  {
    InPlaceAt(run, i);
    var q := run[i].outbox[x];
    assert OutboxInPlace(run[i], x) && InIdOrder(q);
    var a :| 0 <= a < |received| && received[a] == named;
    var b :| 0 <= b < |q| && q[b] == f;
    assert q[a] == named;
    assert b <= a;
    assert received[b] == f;
  }

  /** While a message is still on its way, no higher id of its conversation has reached any connection. */
  lemma NoneAboveOnItsWay(s: State, t: ThreadId, id: MessageId, user: SteamId, named: Frame)
    requires PhaseInv(s) && CallsInPlace(s) && OnItsWay(s, t, id, user) && id in s.table
    requires !named.Removed? && named.conversation == s.table[id].conversation && RowOf(s, named.conversation, named.id)
    ensures named.id <= id
  {
    assert PhaseOk(s, s.threads[t]) && CallInPlace(s, s.threads[t]);
  }

  lemma PageIsKnown(t: Table, c: ConversationId, cursor: Option<MessageId>, limit: nat, id: MessageId)
    requires id in SyncOf(t, c, cursor, limit).page
    ensures Live(t, c, id)
  {
    assert id in LiveAfter(t, c, CursorOf(cursor));
  }

  /** What a connection has been delivered was published, and came from elsewhere. */
  lemma DeliveredMeans(run: seq<State>, n: nat, x: ConnectionId, c: ConversationId, id: MessageId)
    requires Run(run) && n < |run| && x in run[n].hub && x in run[n].outbox && Frame.Delivered(c, id) in run[n].outbox[x]
    ensures id in run[n].table && id !in run[n].orphans && id in run[n].audience && run[n].audience[id].origin != x
  {
    AudienceAt(run, n);
  }

  lemma NewOneArrived(run: seq<State>, k: nat, n: nat, x: ConnectionId, user: SteamId, c: ConversationId,
                      received: seq<Frame>, named: Frame, id: MessageId)
    requires Run(run) && k <= n < |run| && RegisteredThroughout(run, k, n, x, user) && SeenByAllSends(run[k], x, user, c)
    requires x in run[n].outbox && received <= run[n].outbox[x]
    requires named in received && !named.Removed? && named.conversation == c
    requires id in run[n].table && run[n].table[id].conversation == c && id < named.id
    requires id !in run[k].table && id !in run[n].orphans && (id in run[n].audience ==> run[n].audience[id].origin != x)
    ensures Frame.Delivered(c, id) in received
  {
    var s := run[n];
    InPlaceAt(run, n);
    SinceMember(run, k, n, x, user, c);
    SinceRegistered(run, k, n, x, user);
    assert OutboxInPlace(s, x) && named in s.outbox[x] && NamesRow(s, named);
    forall t
      ensures !OnItsWay(s, t, id, user)
    {
      if OnItsWay(s, t, id, user) { NoneAboveOnItsWay(s, t, id, user, named); }
    }
    assert HandedTo(s, x, id);
    PrefixIsGapless(run, n, x, received, Frame.Delivered(c, id), named);
  }

  /**
   * End to end: the device registered, read with a fixed cursor at moment `k`, and by moment `n` its
   * socket has seen some prefix of what was pushed to it. Of the live messages it should cover below any
   * id that the prefix names, it has exactly those that were stored when it read and those that others
   * sent since, unless their append never returned. To a message of its own it has an answer, or will.
   */
  lemma NothingMissingBelow(run: seq<State>, k: nat, n: nat, x: ConnectionId, user: SteamId, c: ConversationId,
                            cursor: Option<MessageId>, limit: nat, received: seq<Frame>, named: Frame, id: MessageId)
    requires Run(run) && k <= n < |run| && RegisteredThroughout(run, k, n, x, user)
    requires SeenByAllSends(run[k], x, user, c) && 0 < limit
    requires x in run[n].outbox && received <= run[n].outbox[x]
    requires named in received && !named.Removed? && named.conversation == c
    requires Live(run[n].table, c, id) && Covered(SyncOf(run[k].table, c, cursor, limit), cursor, id) && id < named.id
    ensures id in run[n].audience
    ensures id in SyncOf(run[k].table, c, cursor, limit).page || Frame.Delivered(c, id) in received <==>
              id in run[k].table || (id !in run[n].orphans && run[n].audience[id].origin != x)
    ensures id !in run[k].table && id !in run[n].orphans && run[n].audience[id].origin == x ==>
              Acknowledged(run[n], x, id) || exists t :: Replying(run[n], t, id, x)
  {
    AudienceAt(run, n);
    SinceRegistered(run, k, n, x, user);
    assert x in run[n].hub;
    var page := SyncOf(run[k].table, c, cursor, limit).page;
    if id in page { PageIsKnown(run[k].table, c, cursor, limit, id); }
    if Frame.Delivered(c, id) in received { DeliveredMeans(run, n, x, c, id); }
    if id in run[k].table {
      WasLive(run, k, n, c, id);
      CoveredIsRead(run[k].table, run[k].nextId, c, cursor, limit, id);
    } else if id !in run[n].orphans && run[n].audience[id].origin != x {
      NewOneArrived(run, k, n, x, user, c, received, named, id);
    }
  }

  // ---------------------------------------------------------------- after the cut-off

  /** A frame by which the device learns that it holds message `id`: a delivery, or the answer to its own send. */
  ghost predicate Names(received: seq<Frame>, c: ConversationId, id: MessageId) {
    Frame.Delivered(c, id) in received || Acked(c, id) in received
  }

  /** The plain maximum of what the device holds after the first page and the frames. */
  ghost predicate IsMaximum(page: seq<MessageId>, received: seq<Frame>, c: ConversationId, top: MessageId) {
    && (top in page || Names(received, c, top))
    && (forall id | id in page :: id <= top)
    && (forall id: MessageId | Names(received, c, id) :: id <= top)
  }

  /** What the device holds once the second answer is installed or appended. */
  ghost predicate HeldAfter(first: Synced, received: seq<Frame>, second: Synced, c: ConversationId, id: MessageId) {
    if second.reset then id in second.page else id in first.page || Names(received, c, id) || id in second.page
  }

  ghost predicate CoveredAfter(first: Synced, cursor: Option<MessageId>, second: Synced, id: MessageId) {
    if second.reset then second.page == [] || second.page[0] <= id else Covered(first, cursor, id)
  }

  lemma NamedIsKnown(run: seq<State>, n: nat, x: ConnectionId, received: seq<Frame>, c: ConversationId, id: MessageId)
    requires Run(run) && n < |run| && x in run[n].outbox && received <= run[n].outbox[x] && Names(received, c, id)
    ensures RowOf(run[n], c, id)
  {
    InPlaceAt(run, n);
    assert OutboxInPlace(run[n], x);
    if Frame.Delivered(c, id) in received {
      assert Frame.Delivered(c, id) in run[n].published;
    } else {
      assert Acked(c, id) in run[n].outbox[x];
      assert NamesRow(run[n], Acked(c, id));
    }
  }

  lemma MaximumIsKnown(run: seq<State>, k: nat, n: nat, x: ConnectionId, c: ConversationId, cursor: Option<MessageId>, limit: nat,
                       received: seq<Frame>, top: MessageId)
    requires Run(run) && k <= n < |run| && x in run[n].outbox && received <= run[n].outbox[x]
    requires IsMaximum(SyncOf(run[k].table, c, cursor, limit).page, received, c, top)
    ensures RowOf(run[n], c, top)
  {
    if top in SyncOf(run[k].table, c, cursor, limit).page {
      PageIsKnown(run[k].table, c, cursor, limit, top);
      RunKeeps(run);
      HistoryEvolves(Tables(run), k, n);
      assert SameMessage(run[k].table[top], run[n].table[top]);
    } else {
      NamedIsKnown(run, n, x, received, c, top);
    }
  }

  /** Of the messages stored since the first read, the device has below its maximum exactly these. */
  lemma BelowTheMaximum(run: seq<State>, k: nat, n: nat, x: ConnectionId, user: SteamId, c: ConversationId,
                        cursor: Option<MessageId>, limit: nat, received: seq<Frame>, top: MessageId, id: MessageId)
    requires Run(run) && k <= n < |run| && RegisteredThroughout(run, k, n, x, user)
    requires SeenByAllSends(run[k], x, user, c) && x in run[n].outbox && received <= run[n].outbox[x]
    requires IsMaximum(SyncOf(run[k].table, c, cursor, limit).page, received, c, top)
    requires RowOf(run[n], c, id) && id !in run[k].table && id <= top
    ensures id in run[n].audience
    ensures Names(received, c, id) <==> Acked(c, id) in received || (id !in run[n].orphans && run[n].audience[id].origin != x)
  {
    AudienceAt(run, n);
    assert x in run[n].hub;
    var page := SyncOf(run[k].table, c, cursor, limit).page;
    if top in page {
      PageIsKnown(run[k].table, c, cursor, limit, top);
      ReadersSeePrefixes(run, k, n, top, id);
    }
    if Frame.Delivered(c, id) in received {
      DeliveredMeans(run, n, x, c, id);
    } else if Acked(c, id) !in received && id !in run[n].orphans && run[n].audience[id].origin != x {
      var named := if Frame.Delivered(c, top) in received then Frame.Delivered(c, top) else Acked(c, top);
      NewOneArrived(run, k, n, x, user, c, received, named, id);
    }
  }

  /**
   * A device that registered, read at moment `k`, took frames until it was cut off at `n`, and reads again
   * at `m` with its plain maximum as the cursor. Of the live messages in its range it lacks exactly those
   * that were stored between the reads, lie at or below the maximum, and were its own or of an append that
   * never returned, without an answer among the frames. A reset leaves out nothing.
   */
  lemma ResumeLacksOnly(run: seq<State>, k: nat, n: nat, m: nat, x: ConnectionId, user: SteamId, c: ConversationId,
                        cursor: Option<MessageId>, limit: nat, received: seq<Frame>, top: MessageId, again: nat, id: MessageId)
    requires Run(run) && k <= n <= m < |run| && RegisteredThroughout(run, k, n, x, user)
    requires SeenByAllSends(run[k], x, user, c) && 0 < limit && 0 < again
    requires x in run[n].outbox && received <= run[n].outbox[x]
    requires IsMaximum(SyncOf(run[k].table, c, cursor, limit).page, received, c, top)
    requires var first, second := SyncOf(run[k].table, c, cursor, limit), SyncOf(run[m].table, c, Some(top), again);
             Live(run[m].table, c, id) && CoveredAfter(first, cursor, second, id)
    ensures var first, second := SyncOf(run[k].table, c, cursor, limit), SyncOf(run[m].table, c, Some(top), again);
            !HeldAfter(first, received, second, c, id) <==>
              && !second.reset && id !in run[k].table && id <= top && Acked(c, id) !in received
              && (id in run[n].orphans || (id in run[n].audience && run[n].audience[id].origin == x))
  {
    var second := SyncOf(run[m].table, c, Some(top), again);
    RunKeeps(run);
    if second.reset || top < id {
      if !second.reset && Names(received, c, id) { NamedIsKnown(run, n, x, received, c, id); }
      CoveredIsRead(run[m].table, run[m].nextId, c, Some(top), again, id);
    } else {
      BelowIsDecided(run, k, n, m, x, user, c, cursor, limit, received, top, again, id);
    }
  }

  lemma BelowIsDecided(run: seq<State>, k: nat, n: nat, m: nat, x: ConnectionId, user: SteamId, c: ConversationId,
                       cursor: Option<MessageId>, limit: nat, received: seq<Frame>, top: MessageId, again: nat, id: MessageId)
    requires Run(run) && k <= n <= m < |run| && RegisteredThroughout(run, k, n, x, user)
    requires SeenByAllSends(run[k], x, user, c) && 0 < limit && x in run[n].outbox && received <= run[n].outbox[x]
    requires IsMaximum(SyncOf(run[k].table, c, cursor, limit).page, received, c, top) && id <= top
    requires Live(run[m].table, c, id) && Covered(SyncOf(run[k].table, c, cursor, limit), cursor, id)
    ensures id !in SyncOf(run[m].table, c, Some(top), again).page && id in run[n].audience
    ensures id in run[k].table ==> id in SyncOf(run[k].table, c, cursor, limit).page
    ensures id !in run[k].table ==>
              && id !in SyncOf(run[k].table, c, cursor, limit).page
              && (Names(received, c, id) <==> Acked(c, id) in received || (id !in run[n].orphans && run[n].audience[id].origin != x))
  {
    MaximumIsKnown(run, k, n, x, c, cursor, limit, received, top);
    if id !in run[n].table { ReadersSeePrefixes(run, n, m, top, id); }
    WasLive(run, n, m, c, id);
    AudienceAt(run, n);
    if id in SyncOf(run[k].table, c, cursor, limit).page { PageIsKnown(run[k].table, c, cursor, limit, id); }
    if id in run[k].table {
      WasLive(run, k, m, c, id);
      CoveredIsRead(run[k].table, run[k].nextId, c, cursor, limit, id);
    } else {
      BelowTheMaximum(run, k, n, x, user, c, cursor, limit, received, top, id);
    }
    assert id !in LiveAfter(run[m].table, c, top);
  }
}
