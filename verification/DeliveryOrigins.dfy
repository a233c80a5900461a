/**
 * Where rows, tombstones and answers come from: every stored message is one that was submitted, only its
 * sender deletes it, and a retry is answered like the first attempt.
 */
module DeliveryOrigins {
  import opened Common
  import opened MessageLog
  import opened Delivery
  import opened DeliveryInvariants
  import opened DeliveryGuarantees
  import opened DeliveryCoverage

  ghost function SendingNow(s: State): (sends: set<Send>)
    ensures forall t | t in s.threads && s.threads[t].Sending? :: s.threads[t].send in sends
  {
    set t | t in s.threads && s.threads[t].Sending? :: s.threads[t].send
  }

  ghost function RemovingNow(s: State): (dels: set<Delete>)
    ensures forall t | t in s.threads && s.threads[t].Removing? :: s.threads[t].del in dels
  {
    set t | t in s.threads && s.threads[t].Removing? :: s.threads[t].del
  }

  /** Everything ever submitted, up to a moment of a run. */
  ghost function Submitted(run: seq<State>, i: nat): set<Send>
    requires i < |run|
  {
    (if i == 0 then {} else Submitted(run, i - 1)) + SendingNow(run[i])
  }

  /** Every removal ever asked for. */
  ghost function AskedToRemove(run: seq<State>, i: nat): set<Delete>
    requires i < |run|
  {
    (if i == 0 then {} else AskedToRemove(run, i - 1)) + RemovingNow(run[i])
  }

  /** The row is this submission, deleted or not. */
  ghost predicate IsRowOf(row: Row, send: Send) {
    && row.conversation == send.conversation && row.sender == send.sender && row.clientId == send.clientId
    && row.sentAt == send.now && row.text == if row.deletedAt.None? then send.body else ""
  }

  ghost predicate StoredFrom(row: Row, sends: set<Send>) { exists send :: send in sends && IsRowOf(row, send) }

  /** A tombstone was asked for by the sender of its message, at the time it carries. */
  ghost predicate RemovedBy(id: MessageId, row: Row, dels: set<Delete>) {
    row.deletedAt.Some? ==> Delete(row.conversation, id, row.sender, row.deletedAt.value) in dels
  }

  ghost predicate CallFrom(p: Phase, sends: set<Send>, dels: set<Delete>) {
    && (p.SendLocked? || p.SendChecked? || p.SendDrawn? || p.SendStored? || p.Sending? ==> p.send in sends)
    && (p.RemoveLocked? || p.RemoveMarked? || p.Removing? ==> p.del in dels)
  }

  ghost predicate CallsFrom(s: State, sends: set<Send>, dels: set<Delete>) {
    forall t | t in s.threads :: CallFrom(s.threads[t], sends, dels)
  }

  ghost predicate RowsFrom(s: State, sends: set<Send>, dels: set<Delete>) {
    forall id | id in s.table :: StoredFrom(s.table[id], sends) && RemovedBy(id, s.table[id], dels)
  }

  // ---------------------------------------------------------------- one step

  lemma MoverIsFrom(s: State, step: Step, t: ThreadId, sends: set<Send>, dels: set<Delete>)
    requires CallsFrom(s, sends, dels) && Enabled(s, step) && Mover(step) == Some(t) && t in Apply(s, step).threads
    requires SendingNow(Apply(s, step)) <= sends && RemovingNow(Apply(s, step)) <= dels
    ensures CallFrom(Apply(s, step).threads[t], sends, dels)
  {
    if t in s.threads { assert CallFrom(s.threads[t], sends, dels); }
  }

  lemma StepKeepsCallsFrom(s: State, step: Step, sends: set<Send>, dels: set<Delete>)
    requires CallsFrom(s, sends, dels) && Enabled(s, step)
    requires SendingNow(Apply(s, step)) <= sends && RemovingNow(Apply(s, step)) <= dels
    ensures CallsFrom(Apply(s, step), sends, dels)
  {
    forall t | t in Apply(s, step).threads
      ensures CallFrom(Apply(s, step).threads[t], sends, dels)
    {
      if Mover(step) == Some(t) {
        MoverIsFrom(s, step, t, sends, dels);
      } else {
        ThreadWasThere(s, step, t);
        OthersStand(s, step, t);
      }
    }
  }

  lemma CommitInserts(s: State, t: ThreadId)
    requires Enabled(s, Commit(t))
    ensures var SendDrawn(send, _, id) := s.threads[t];
            var u := Apply(s, Commit(t)).table;
            u == s.table || u == s.table[id := Row(send.conversation, send.sender, send.clientId, send.body, send.now, None)]
  {
    var SendDrawn(send, to, id) := s.threads[t];
    var e := CommitSend(s, send, to, id);
    assert Apply(s, Commit(t)) == e.shared.(threads := WithPhase(s.threads, t, e.after));
  }

  lemma CommitKeepsRowsFrom(s: State, t: ThreadId, sends: set<Send>, dels: set<Delete>)
    requires CallsFrom(s, sends, dels) && RowsFrom(s, sends, dels) && Enabled(s, Commit(t))
    ensures RowsFrom(Apply(s, Commit(t)), sends, dels)
  {
    CommitInserts(s, t);
    assert CallFrom(s.threads[t], sends, dels);
    var send := s.threads[t].send;
    assert IsRowOf(Row(send.conversation, send.sender, send.clientId, send.body, send.now, None), send);
  }

  lemma MarkKeepsRowsFrom(s: State, t: ThreadId, sends: set<Send>, dels: set<Delete>)
    requires CallsFrom(s, sends, dels) && RowsFrom(s, sends, dels) && Enabled(s, Mark(t))
    ensures RowsFrom(Apply(s, Mark(t)), sends, dels)
  {
    var del := s.threads[t].del;
    assert CallFrom(s.threads[t], sends, dels);
    if CanDelete(s.table, del.conversation, del.message, del.sender) {
      var u := MarkDeleted(s.table, del.message, del.now);
      assert Apply(s, Mark(t)).table == u;
      var send :| send in sends && IsRowOf(s.table[del.message], send);
      assert IsRowOf(u[del.message], send);
      assert del == Delete(u[del.message].conversation, del.message, u[del.message].sender, del.now);
    } else {
      assert Apply(s, Mark(t)).table == s.table;
    }
  }

  lemma StepKeepsRowsFrom(s: State, step: Step, sends: set<Send>, dels: set<Delete>)
    requires CallsFrom(s, sends, dels) && RowsFrom(s, sends, dels) && Enabled(s, step)
    ensures RowsFrom(Apply(s, step), sends, dels)
  {
    match step
    case Commit(t) => CommitKeepsRowsFrom(s, t, sends, dels);
    case Mark(t) => MarkKeepsRowsFrom(s, t, sends, dels);
    case _ => OtherStepsLeaveTheTable(s, step);
  }

  lemma MoreIsFine(s: State, sends: set<Send>, dels: set<Delete>, moreSends: set<Send>, moreDels: set<Delete>)
    requires CallsFrom(s, sends, dels) && RowsFrom(s, sends, dels) && sends <= moreSends && dels <= moreDels
    ensures CallsFrom(s, moreSends, moreDels) && RowsFrom(s, moreSends, moreDels)
  {
    forall t | t in s.threads
      ensures CallFrom(s.threads[t], moreSends, moreDels)
    {
      assert CallFrom(s.threads[t], sends, dels);
    }
    forall id | id in s.table
      ensures StoredFrom(s.table[id], moreSends) && RemovedBy(id, s.table[id], moreDels)
    {
      assert StoredFrom(s.table[id], sends) && RemovedBy(id, s.table[id], dels);
    }
  }

  ghost predicate AllFrom(s: State, sends: set<Send>, dels: set<Delete>) { CallsFrom(s, sends, dels) && RowsFrom(s, sends, dels) }

  lemma NextKeepsFrom(s: State, s': State, sends: set<Send>, dels: set<Delete>)
    requires Next(s, s') && AllFrom(s, sends, dels)
    ensures AllFrom(s', sends + SendingNow(s'), dels + RemovingNow(s'))
  {
    var step :| Enabled(s, step) && s' == Apply(s, step);
    var (moreSends, moreDels) := (sends + SendingNow(s'), dels + RemovingNow(s'));
    MoreIsFine(s, sends, dels, moreSends, moreDels);
    StepKeepsCallsFrom(s, step, moreSends, moreDels);
    StepKeepsRowsFrom(s, step, moreSends, moreDels);
  }

  lemma {:induction false} FromAt(run: seq<State>, i: nat)
    requires Run(run) && i < |run|
    ensures AllFrom(run[i], Submitted(run, i), AskedToRemove(run, i))
  {
    if i > 0 {
      FromAt(run, i - 1);
      assert Follows(run, i);
      NextKeepsFrom(run[i - 1], run[i], Submitted(run, i - 1), AskedToRemove(run, i - 1));
    }
  }

  // ---------------------------------------------------------------- for every run

  /** Every stored message is one that was submitted: same conversation, sender, key, time, and text while it lives. */
  lemma StoredAsSubmitted(run: seq<State>, i: nat, id: MessageId)
    requires Run(run) && i < |run| && id in run[i].table
    ensures var row := run[i].table[id];
            exists send :: && send in Submitted(run, i)
                           && send.conversation == row.conversation && send.sender == row.sender
                           && send.clientId == row.clientId && send.now == row.sentAt
                           && (row.deletedAt.None? ==> send.body == row.text)
  {
    FromAt(run, i);
    assert StoredFrom(run[i].table[id], Submitted(run, i));
    var send :| send in Submitted(run, i) && IsRowOf(run[i].table[id], send);
  }

  /** Nobody deletes a message of somebody else: behind every tombstone is a removal its own sender asked for. */
  lemma DeletedByItsSender(run: seq<State>, i: nat, id: MessageId)
    requires Run(run) && i < |run| && id in run[i].table && run[i].table[id].deletedAt.Some?
    ensures var row := run[i].table[id];
            Delete(row.conversation, id, row.sender, row.deletedAt.value) in AskedToRemove(run, i)
  {
    FromAt(run, i);
    assert RemovedBy(id, run[i].table[id], AskedToRemove(run, i));
  }

  // ---------------------------------------------------------------- retries

  /** The call will answer the connection with this frame. */
  ghost predicate Owes(s: State, t: ThreadId, x: ConnectionId, f: Frame) {
    t in s.threads && match s.threads[t]
                      case Leaving(_, reply) => reply == Some((x, f))
                      case Answering(ack) => ack == (x, f)
                      case _ => false
  }

  ghost predicate AnsweredOrOwed(s: State, x: ConnectionId, f: Frame) {
    (x in s.outbox && f in s.outbox[x]) || exists t :: Owes(s, t, x, f)
  }

  lemma OwedGoesOn(s: State, step: Step, t: ThreadId, x: ConnectionId, f: Frame)
    requires Enabled(s, step) && Owes(s, t, x, f) && x in s.outbox
    ensures AnsweredOrOwed(Apply(s, step), x, f)
  {
    if Mover(step) != Some(t) {
      OthersStand(s, step, t);
      assert Owes(Apply(s, step), t, x, f);
    } else if step.Ack? {
      AckReaches(s, t, x);
    } else {
      assert Owes(Apply(s, step), t, x, f);
    }
  }

  lemma NextKeepsOwed(s: State, s': State, x: ConnectionId, f: Frame)
    requires Next(s, s') && AnsweredOrOwed(s, x, f) && x in s.outbox
    ensures AnsweredOrOwed(s', x, f) && x in s'.outbox
  {
    var step :| Enabled(s, step) && s' == Apply(s, step);
    if f in s.outbox[x] {
      OutboxGrows(s, step, x, f);
    } else {
      var t: ThreadId :| Owes(s, t, x, f);
      OwedGoesOn(s, step, t, x, f);
      BoxesStay(s, step);
    }
  }

  lemma BoxesStay(s: State, step: Step)
    requires Enabled(s, step)
    ensures s.outbox.Keys <= Apply(s, step).outbox.Keys
  {
    if step.FanOut? {
      assert Apply(s, step).outbox == HandedOut(s, s.threads[step.t].frame, step.user, s.threads[step.t].except);
    } else {
      OutboxChanges(s, step);
    }
  }

  lemma {:induction false} OwedAt(run: seq<State>, k: nat, n: nat, x: ConnectionId, f: Frame)
    requires Run(run) && k <= n < |run| && AnsweredOrOwed(run[k], x, f) && x in run[k].outbox
    ensures AnsweredOrOwed(run[n], x, f) && x in run[n].outbox
    decreases n
  {
    if k < n {
      OwedAt(run, k, n - 1, x, f);
      assert Follows(run, n);
      NextKeepsOwed(run[n - 1], run[n], x, f);
    }
  }

  /** A commit under a key that is taken stores and publishes nothing, and owes the sender the stored message's id. */
  lemma RetryStoresNothing(s: State, t: ThreadId)
    requires Enabled(s, Commit(t)) && KeyTaken(s.table, KeyOfSend(s.threads[t].send))
    ensures var (s', send) := (Apply(s, Commit(t)), s.threads[t].send);
            && s'.table == s.table && s'.published == s.published && s'.outbox == s.outbox
            && exists id :: && id in s.table && s.table[id].conversation == send.conversation
                            && s.table[id].sender == send.sender && s.table[id].clientId == send.clientId
                            && Owes(s', t, send.origin, Acked(send.conversation, id))
  {
    var SendDrawn(send, to, drawn) := s.threads[t];
    var e := CommitSend(s, send, to, drawn);
    assert Apply(s, Commit(t)) == e.shared.(threads := WithPhase(s.threads, t, e.after));
    var id := Stored(s.table, KeyOfSend(send));
    assert Owes(Apply(s, Commit(t)), t, send.origin, Acked(send.conversation, id));
  }

  /**
   * A retry is answered like the first attempt: between two moments the call of `t` commits under a key
   * that is taken; whatever comes between, its connection is answered the stored message's id, or is
   * still owed that answer, and nothing was stored or published for the retry.
   */
  lemma RetryIsAnswered(run: seq<State>, k: nat, n: nat, t: ThreadId)
    requires Run(run) && k < n < |run| && Enabled(run[k], Commit(t)) && run[k + 1] == Apply(run[k], Commit(t))
    requires KeyTaken(run[k].table, KeyOfSend(run[k].threads[t].send)) && run[k].threads[t].send.origin in run[k].outbox
    ensures var send := run[k].threads[t].send;
            && run[k + 1].table == run[k].table && run[k + 1].published == run[k].published
            && exists id :: && id in run[k].table && run[k].table[id].conversation == send.conversation
                            && run[k].table[id].sender == send.sender && run[k].table[id].clientId == send.clientId
                            && AnsweredOrOwed(run[n], send.origin, Acked(send.conversation, id))
  {
    var send := run[k].threads[t].send;
    RetryStoresNothing(run[k], t);
    var id :| id in run[k].table && run[k].table[id].conversation == send.conversation
              && run[k].table[id].sender == send.sender && run[k].table[id].clientId == send.clientId
              && Owes(run[k + 1], t, send.origin, Acked(send.conversation, id));
    OwedAt(run, k + 1, n, send.origin, Acked(send.conversation, id));
  }

  // ---------------------------------------------------------------- removals are published

  /** The removal of a deleted message is published, or its call is about to. */
  ghost predicate Told(s: State, id: MessageId)
    requires id in s.table
  {
    || Frame.Removed(s.table[id].conversation, id) in s.published
    || exists t :: WillTell(s, t, s.table[id].conversation, id)
  }

  ghost predicate WillTell(s: State, t: ThreadId, c: ConversationId, id: MessageId) {
    t in s.threads && s.threads[t].RemoveMarked? && s.threads[t].del.message == id && s.threads[t].del.conversation == c
  }

  /** Between the two states, the call that has deleted the message ends with an exception. */
  ghost predicate LostToException(s: State, s': State, id: MessageId) {
    exists t :: t in s.threads && s.threads[t].RemoveMarked? && s.threads[t].del.message == id && s' == Apply(s, Throw(t))
  }

  lemma ToldStays(s: State, step: Step, id: MessageId)
    requires Inv(s) && Enabled(s, step) && id in s.table && s.table[id].deletedAt.Some? && Told(s, id)
    ensures id in Apply(s, step).table && (Told(Apply(s, step), id) || LostToException(s, Apply(s, step), id))
  {
    RowStays(s, step, id);
    if Frame.Removed(s.table[id].conversation, id) in s.published {
      FrameStays(s, step, Frame.Removed(s.table[id].conversation, id));
    } else {
      var t: ThreadId :| WillTell(s, t, s.table[id].conversation, id);
      TellerGoesOn(s, step, t, s.table[id].conversation, id);
    }
  }

  lemma TellerGoesOn(s: State, step: Step, t: ThreadId, c: ConversationId, id: MessageId)
    requires Enabled(s, step) && WillTell(s, t, c, id)
    ensures || Frame.Removed(c, id) in Apply(s, step).published || WillTell(Apply(s, step), t, c, id)
            || LostToException(s, Apply(s, step), id)
  {
    if Mover(step) != Some(t) {
      OthersStand(s, step, t);
    } else if step.PublishRemoval? {
      assert Apply(s, step).published == s.published + [Frame.Removed(c, id)];
    }
  }

  lemma FrameStays(s: State, step: Step, f: Frame)
    requires Enabled(s, step) && f in s.published
    ensures f in Apply(s, step).published
  {}

  lemma MarkTells(s: State, t: ThreadId, id: MessageId)
    requires Enabled(s, Mark(t)) && id in s.table && s.table[id].deletedAt.None?
    requires id in Apply(s, Mark(t)).table && Apply(s, Mark(t)).table[id].deletedAt.Some?
    ensures Told(Apply(s, Mark(t)), id)
  {
    var del := s.threads[t].del;
    var s' := Apply(s, Mark(t));
    if CanDelete(s.table, del.conversation, del.message, del.sender) {
      assert s'.table == MarkDeleted(s.table, del.message, del.now);
      assert WillTell(s', t, del.conversation, del.message);
    }
  }

  lemma NewTombstoneIsTold(s: State, step: Step, id: MessageId)
    requires Inv(s) && Enabled(s, step) && id in Apply(s, step).table && Apply(s, step).table[id].deletedAt.Some?
    requires id !in s.table || s.table[id].deletedAt.None?
    ensures Told(Apply(s, step), id)
  {
    match step
    case Mark(t) =>
      MarkChanges(s, t);
      MarkTells(s, t, id);
    case Commit(t) => CommitInserts(s, t);
    case _ => OtherStepsLeaveTheTable(s, step);
  }

  lemma NextTells(s: State, s': State, id: MessageId)
    requires Inv(s) && Next(s, s') && id in s'.table && s'.table[id].deletedAt.Some?
    requires Deleted(s, id) ==> Told(s, id)
    ensures Told(s', id) || LostToException(s, s', id)
  {
    var step :| Enabled(s, step) && s' == Apply(s, step);
    if id in s.table && s.table[id].deletedAt.Some? { ToldStays(s, step, id); } else { NewTombstoneIsTold(s, step, id); }
  }

  predicate Deleted(s: State, id: MessageId) { id in s.table && s.table[id].deletedAt.Some? }

  ghost predicate LostAt(run: seq<State>, m: nat, id: MessageId)
    requires m + 1 < |run|
  {
    LostToException(run[m], run[m + 1], id)
  }

  /**
   * Every deletion is published, or about to be; the one exception is a call that has deleted its message
   * and then ends with an exception.
   */
  lemma {:induction false} DeletionIsPublished(run: seq<State>, i: nat, id: MessageId)
    requires Run(run) && i < |run| && id in run[i].table && run[i].table[id].deletedAt.Some?
    ensures Told(run[i], id) || exists m :: 0 <= m < i && LostAt(run, m, id)
  {
    if i > 0 {
      if Deleted(run[i - 1], id) { DeletionIsPublished(run, i - 1, id); }
      if forall m | 0 <= m < i - 1 :: !LostAt(run, m, id) {
        NextAt(run, i);
        NextTells(run[i - 1], run[i], id);
        assert LostToException(run[i - 1], run[i], id) ==> LostAt(run, i - 1, id);
      }
    }
  }
}
