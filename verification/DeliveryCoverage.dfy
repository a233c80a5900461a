/**
 * End to end: a device whose connection is registered before it reads with a fixed cursor misses
 * nothing. What it read, what its connection was handed since, and the answers to its own sends cover
 * every message from its cursor on.
 */
module DeliveryCoverage {
  import opened Common
  import opened MessageLog
  import opened CatchUp
  import opened Delivery
  import opened DeliveryInvariants
  import opened DeliveryGuarantees

  // ---------------------------------------------------------------- answers to a connection's own sends

  function AckOf(s: State, id: MessageId): Frame
    requires id in s.table
  {
    Acked(s.table[id].conversation, id)
  }

  ghost predicate Acknowledged(s: State, x: ConnectionId, id: MessageId) {
    id in s.table && x in s.outbox && AckOf(s, id) in s.outbox[x]
  }

  /** The call that stored `id` for connection `x` will still answer it. */
  ghost predicate Replying(s: State, t: ThreadId, id: MessageId, x: ConnectionId) {
    && t in s.threads && id in s.table
    && match s.threads[t]
       case SendStored(send, _, stored) => stored == id && send.origin == x && send.conversation == s.table[id].conversation
       case FanningOut(frame, _, except) =>
         frame == Frame.Delivered(s.table[id].conversation, id) && except == Some(x)
       case Leaving(_, reply) => reply == Some((x, AckOf(s, id)))
       case Answering(ack) => ack == (x, AckOf(s, id))
       case _ => false
  }

  ghost predicate NoneUnanswered(known: Table, s: State, x: ConnectionId) {
    forall id | id in s.table && id !in known && id in s.audience && s.audience[id].origin == x ::
      Acknowledged(s, x, id) || id in s.orphans || exists t :: Replying(s, t, id, x)
  }

  lemma AckReaches(s: State, t: ThreadId, x: ConnectionId)
    requires Enabled(s, Step.Ack(t)) && x in s.outbox && s.threads[t].ack.0 == x
    ensures s.threads[t].ack.1 in Apply(s, Step.Ack(t)).outbox[x]
  {
    assert Apply(s, Step.Ack(t)).outbox[x] == s.outbox[x] + [s.threads[t].ack.1];
  }

  lemma ReplyGoesOn(s: State, step: Step, t: ThreadId, id: MessageId, x: ConnectionId)
    requires Enabled(s, step) && Replying(s, t, id, x) && PhaseOk(s, s.threads[t]) && x in s.outbox
    requires id in Apply(s, step).table && Apply(s, step).table[id].conversation == s.table[id].conversation
    ensures Acknowledged(Apply(s, step), x, id) || id in Apply(s, step).orphans || Replying(Apply(s, step), t, id, x)
  {
    if Mover(step) != Some(t) {
      OthersStand(s, step, t);
    } else if step.Ack? {
      AckReaches(s, t, x);
    }
  }

  lemma NewRowIsAnswered(s: State, step: Step, id: MessageId, x: ConnectionId)
    requires Enabled(s, step)
    requires var s' := Apply(s, step); id in s'.table && id !in s.table && id in s'.audience && s'.audience[id].origin == x
    ensures exists t :: Replying(Apply(s, step), t, id, x)
  {
    NewRowIsStored(s, step, id);
    assert Replying(Apply(s, step), step.t, id, x);
  }

  lemma OwnRowGoesOn(s: State, step: Step, id: MessageId, x: ConnectionId)
    requires PhaseInv(s) && Enabled(s, step) && id in s.table && x in s.outbox
    requires id in Apply(s, step).table && Apply(s, step).table[id].conversation == s.table[id].conversation
    requires Acknowledged(s, x, id) || id in s.orphans || exists t :: Replying(s, t, id, x)
    ensures Acknowledged(Apply(s, step), x, id) || id in Apply(s, step).orphans || exists t :: Replying(Apply(s, step), t, id, x)
  {
    if Acknowledged(s, x, id) {
      OutboxGrows(s, step, x, AckOf(s, id));
    } else if id in s.orphans {
      OrphansGrow(s, step);
    } else {
      var t: ThreadId :| Replying(s, t, id, x);
      assert PhaseOk(s, s.threads[t]);
      ReplyGoesOn(s, step, t, id, x);
    }
  }

  lemma StepAnswers(known: Table, s: State, step: Step, x: ConnectionId)
    requires Inv(s) && NoneUnanswered(known, s, x) && Enabled(s, step) && x in s.outbox
    ensures NoneUnanswered(known, Apply(s, step), x)
  {
    var s' := Apply(s, step);
    assert step.Commit? ==> PhaseOk(s, s.threads[step.t]);
    AudienceGrows(s, step);
    forall id | id in s'.table && id !in known && id in s'.audience && s'.audience[id].origin == x
      ensures Acknowledged(s', x, id) || id in s'.orphans || exists t :: Replying(s', t, id, x)
    {
      if id in s.table {
        RowStays(s, step, id);
        OwnRowGoesOn(s, step, id, x);
      } else {
        NewRowIsAnswered(s, step, id, x);
      }
    }
  }

  // ---------------------------------------------------------------- whose member list a send has read

  /**
   * A call from elsewhere has read the member list without the user in it, and can still store its row:
   * its key is free.
   */
  ghost predicate HasLeftOut(s: State, t: ThreadId, x: ConnectionId, user: SteamId, c: ConversationId) {
    && t in s.threads && (s.threads[t].SendChecked? || s.threads[t].SendDrawn?)
    && s.threads[t].send.conversation == c && s.threads[t].send.origin != x && user !in s.threads[t].to
    && !KeyTaken(s.table, KeyOfSend(s.threads[t].send))
  }

  /** The user is a member, and no send that has already read the member list left the user out. */
  ghost predicate SeenByAllSends(s: State, x: ConnectionId, user: SteamId, c: ConversationId) {
    && c in s.members && user in s.members[c]
    && forall t | t in s.threads :: !HasLeftOut(s, t, x, user, c)
  }

  ghost predicate AllMeantFor(known: Table, s: State, x: ConnectionId, user: SteamId, c: ConversationId) {
    forall id | id in s.table && id !in known && s.table[id].conversation == c ::
      id in s.audience && (user in s.audience[id].to || s.audience[id].origin == x)
  }

  lemma KeyStaysTaken(s: State, step: Step, k: Key)
    requires Inv(s) && Enabled(s, step) && KeyTaken(s.table, k)
    ensures KeyTaken(Apply(s, step).table, k)
  {
    var id :| id in s.table && KeyOf(s.table[id]) == k;
    StepKeeps(s, step);
    assert SameMessage(s.table[id], Apply(s, step).table[id]);
  }

  lemma MoverLeavesNobodyOut(s: State, step: Step, t: ThreadId, x: ConnectionId, user: SteamId, c: ConversationId)
    requires SeenByAllSends(s, x, user, c) && Enabled(s, step) && Mover(step) == Some(t)
    ensures !HasLeftOut(Apply(s, step), t, x, user, c)
  {
    if t in s.threads { assert !HasLeftOut(s, t, x, user, c); }
  }

  lemma OtherLeavesNobodyOut(s: State, step: Step, t: ThreadId, x: ConnectionId, user: SteamId, c: ConversationId)
    requires Inv(s) && Enabled(s, step) && t in s.threads && Mover(step) != Some(t) && !HasLeftOut(s, t, x, user, c)
    ensures !HasLeftOut(Apply(s, step), t, x, user, c)
  {
    OthersStand(s, step, t);
    if (s.threads[t].SendChecked? || s.threads[t].SendDrawn?) && KeyTaken(s.table, KeyOfSend(s.threads[t].send)) {
      KeyStaysTaken(s, step, KeyOfSend(s.threads[t].send));
    }
  }

  lemma MembersStay(s: State, step: Step, user: SteamId, c: ConversationId)
    requires Enabled(s, step) && c in s.members && user in s.members[c]
    ensures c in Apply(s, step).members && user in Apply(s, step).members[c]
  {
    if Mover(step).Some? { CallsLeaveMembers(s, step); }
  }

  lemma CallsLeaveMembers(s: State, step: Step)
    requires Enabled(s, step) && Mover(step).Some?
    ensures Apply(s, step).members == s.members
  {
    assert EffectOf(s, step).shared.members == s.members;
  }

  lemma StepSeesMember(s: State, step: Step, x: ConnectionId, user: SteamId, c: ConversationId)
    requires Inv(s) && SeenByAllSends(s, x, user, c) && Enabled(s, step)
    ensures SeenByAllSends(Apply(s, step), x, user, c)
  {
    MembersStay(s, step, user, c);
    forall t | t in Apply(s, step).threads
      ensures !HasLeftOut(Apply(s, step), t, x, user, c)
    {
      if Mover(step) == Some(t) {
        MoverLeavesNobodyOut(s, step, t, x, user, c);
      } else {
        ThreadWasThere(s, step, t);
        OtherLeavesNobodyOut(s, step, t, x, user, c);
      }
    }
  }

  lemma ThreadWasThere(s: State, step: Step, t: ThreadId)
    requires Enabled(s, step) && t in Apply(s, step).threads && Mover(step) != Some(t)
    ensures t in s.threads
  {}

  lemma NewRowIsMeantFor(s: State, step: Step, x: ConnectionId, user: SteamId, c: ConversationId, id: MessageId)
    requires SeenByAllSends(s, x, user, c) && Enabled(s, step)
    requires id in Apply(s, step).table && id !in s.table && Apply(s, step).table[id].conversation == c
    ensures var s' := Apply(s, step); id in s'.audience && (user in s'.audience[id].to || s'.audience[id].origin == x)
  {
    NewRowIsStored(s, step, id);
    assert !HasLeftOut(s, step.t, x, user, c);
    assert !KeyTaken(s.table, KeyOfSend(s.threads[step.t].send));
  }

  lemma StepMeansMember(known: Table, s: State, step: Step, x: ConnectionId, user: SteamId, c: ConversationId)
    requires Inv(s) && SeenByAllSends(s, x, user, c) && AllMeantFor(known, s, x, user, c) && Enabled(s, step)
    ensures AllMeantFor(known, Apply(s, step), x, user, c)
  {
    var s' := Apply(s, step);
    assert step.Commit? ==> PhaseOk(s, s.threads[step.t]);
    AudienceGrows(s, step);
    forall id | id in s'.table && id !in known && s'.table[id].conversation == c
      ensures id in s'.audience && (user in s'.audience[id].to || s'.audience[id].origin == x)
    {
      if id in s.table { RowStays(s, step, id); } else { NewRowIsMeantFor(s, step, x, user, c, id); }
    }
  }

  // ---------------------------------------------------------------- whole runs

  ghost predicate RegisteredThroughout(run: seq<State>, from: nat, to: nat, x: ConnectionId, user: SteamId)
    requires from <= to < |run|
  {
    forall i | from <= i <= to :: x in run[i].hub && run[i].hub[x] == user
  }

  lemma {:induction false} AudienceAt(run: seq<State>, i: nat)
    requires Run(run) && i < |run|
    ensures Inv(run[i]) && AudienceOnly(run[i])
  {
    InvAt(run, i);
    if i > 0 {
      AudienceAt(run, i - 1);
      assert Follows(run, i);
      var step :| Enabled(run[i - 1], step) && run[i] == Apply(run[i - 1], step);
      StepKeepsAudience(run[i - 1], step);
    }
  }

  /** Since any moment at which the connection is registered, nothing meant for it is skipped. */
  lemma {:induction false} SinceRegistered(run: seq<State>, k: nat, n: nat, x: ConnectionId, user: SteamId)
    requires Run(run) && k <= n < |run| && RegisteredThroughout(run, k, n, x, user)
    ensures NoneSkipped(run[k].table, run[n], x, user) && NoneUnanswered(run[k].table, run[n], x)
    decreases n
  {
    if k < n {
      SinceRegistered(run, k, n - 1, x, user);
      InvAt(run, n - 1);
      assert Follows(run, n);
      var step :| Enabled(run[n - 1], step) && run[n] == Apply(run[n - 1], step);
      assert x in run[n - 1].hub && run[n - 1].hub[x] == user;
      StepSkipsNone(run[k].table, run[n - 1], step, x, user);
      StepAnswers(run[k].table, run[n - 1], step, x);
    }
  }

  lemma NextSeesMember(known: Table, s: State, s': State, x: ConnectionId, user: SteamId, c: ConversationId)
    requires Inv(s) && Next(s, s') && SeenByAllSends(s, x, user, c) && AllMeantFor(known, s, x, user, c)
    ensures SeenByAllSends(s', x, user, c) && AllMeantFor(known, s', x, user, c)
  {
    var step :| Enabled(s, step) && s' == Apply(s, step);
    StepSeesMember(s, step, x, user, c);
    StepMeansMember(known, s, step, x, user, c);
  }

  lemma NextAt(run: seq<State>, n: nat)
    requires Run(run) && 0 < n < |run|
    ensures Inv(run[n - 1]) && Next(run[n - 1], run[n])
  {
    InvAt(run, n - 1);
    assert Follows(run, n);
  }

  lemma {:induction false} SinceMember(run: seq<State>, k: nat, n: nat, x: ConnectionId, user: SteamId, c: ConversationId)
    requires Run(run) && k <= n < |run| && SeenByAllSends(run[k], x, user, c)
    ensures SeenByAllSends(run[n], x, user, c) && AllMeantFor(run[k].table, run[n], x, user, c)
    decreases n
  {
    var known := run[k].table;
    if k < n {
      SinceMember(run, k, n - 1, x, user, c);
      NextAt(run, n);
      NextSeesMember(known, run[n - 1], run[n], x, user, c);
    }
  }

  /** No call that stored a row is still on its way to hand it out or to answer it. */
  ghost predicate Settled(s: State, id: MessageId) {
    forall t | t in s.threads ::
      && !(s.threads[t].SendStored? && s.threads[t].id == id)
      && !(s.threads[t].FanningOut? && s.threads[t].frame.Delivered? && s.threads[t].frame.id == id)
      && !(s.threads[t].Leaving? && s.threads[t].reply.Some? && s.threads[t].reply.value.1.id == id)
      && !(s.threads[t].Answering? && s.threads[t].ack.1.id == id)
  }

  /**
   * Exactly who gets a message that was stored while the connection was registered: once its call is
   * done, and unless its append never returned, the connection was handed the delivery if and only if
   * its user was in the member list that the send read and it is not the sending connection; and the
   * sending connection was answered.
   */
  lemma HandedExactlyToAudience(run: seq<State>, k: nat, n: nat, x: ConnectionId, user: SteamId, id: MessageId)
    requires Run(run) && k <= n < |run| && RegisteredThroughout(run, k, n, x, user)
    requires id in run[n].table && id !in run[k].table && id !in run[n].orphans && Settled(run[n], id)
    ensures id in run[n].audience
    ensures HandedTo(run[n], x, id) <==> user in run[n].audience[id].to && run[n].audience[id].origin != x
    ensures run[n].audience[id].origin == x ==> Acknowledged(run[n], x, id)
  {
    var s := run[n];
    AudienceAt(run, n);
    SinceRegistered(run, k, n, x, user);
    assert id in s.audience;
    assert x in s.hub && s.hub[x] == user;
    assert !exists t :: OnItsWay(s, t, id, user);
    assert !exists t :: Replying(s, t, id, x);
  }

  /** The part of the log a device covers after a catch-up read: from its cursor, or from the first row of a reset. */
  predicate Covered(synced: Synced, cursor: Option<MessageId>, id: MessageId) {
    if synced.reset then synced.page == [] || synced.page[0] <= id else CursorOf(cursor) < id
  }

  lemma WasLive(run: seq<State>, k: nat, n: nat, c: ConversationId, id: MessageId)
    requires Run(run) && k <= n < |run| && id in run[k].table && Live(run[n].table, c, id)
    ensures Live(run[k].table, c, id) && WellFormed(run[k].table, run[k].nextId)
  {
    RunKeeps(run);
    HistoryEvolves(Tables(run), k, n);
    assert SameMessage(run[k].table[id], run[n].table[id]);
  }

  lemma NewIsHandedOrAnswered(run: seq<State>, k: nat, n: nat, x: ConnectionId, user: SteamId, c: ConversationId, id: MessageId)
    requires Run(run) && k <= n < |run| && RegisteredThroughout(run, k, n, x, user) && SeenByAllSends(run[k], x, user, c)
    requires id in run[n].table && id !in run[k].table && run[n].table[id].conversation == c
    requires id !in run[n].orphans && Settled(run[n], id)
    ensures HandedTo(run[n], x, id) || Acknowledged(run[n], x, id)
  {
    SinceMember(run, k, n, x, user, c);
    HandedExactlyToAudience(run, k, n, x, user, id);
  }

  lemma CoveredIsRead(t: Table, nextId: MessageId, c: ConversationId, cursor: Option<MessageId>, limit: nat, id: MessageId)
    requires WellFormed(t, nextId) && Live(t, c, id) && 0 < limit
    requires Covered(SyncOf(t, c, cursor, limit), cursor, id)
    ensures id in SyncOf(t, c, cursor, limit).page
  {
    var synced := SyncOf(t, c, cursor, limit);
    if synced.reset {
      ResetIsNewestPage(t, c, cursor, limit);
      if synced.page != [] { assert synced.page[0] in synced.page; }
    } else {
      DeltaIsComplete(t, c, cursor, limit);
    }
  }

  /**
   * The device registers its connection, fixes its cursor and then reads, at moment `k`. If the user is
   * a member whom no send in progress had left out, then at any later moment `n` at which the connection
   * is still registered every live message it should cover is in the page it read, was handed to the
   * connection, or answers one of its own sends; or the message's own call is not finished, or never
   * returned.
   */
  lemma NothingIsMissed(run: seq<State>, k: nat, n: nat, x: ConnectionId, user: SteamId,
                        c: ConversationId, cursor: Option<MessageId>, limit: nat, id: MessageId)
    requires Run(run) && k <= n < |run| && RegisteredThroughout(run, k, n, x, user)
    requires SeenByAllSends(run[k], x, user, c) && 0 < limit
    requires Live(run[n].table, c, id) && Covered(SyncOf(run[k].table, c, cursor, limit), cursor, id)
    ensures || id in SyncOf(run[k].table, c, cursor, limit).page
            || HandedTo(run[n], x, id)
            || Acknowledged(run[n], x, id)
            || id in run[n].orphans
            || !Settled(run[n], id)
  {
    if id in run[k].table {
      WasLive(run, k, n, c, id);
      CoveredIsRead(run[k].table, run[k].nextId, c, cursor, limit, id);
    } else if id !in run[n].orphans && Settled(run[n], id) {
      NewIsHandedOrAnswered(run, k, n, x, user, c, id);
    }
  }
}
