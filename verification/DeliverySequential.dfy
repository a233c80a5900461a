/**
 * A call that nothing interrupts: from the moment it starts, its steps lead to the state the service
 * promises. So every call can finish once it has its lock, and the interleaved steps do, run one after
 * the other, what one whole call does.
 */
module DeliverySequential {
  import opened Common
  import opened MessageLog
  import opened Delivery
  import opened DeliveryInvariants

  ghost predicate Path(run: seq<State>, s: State, s': State) {
    0 < |run| && run[0] == s && run[|run| - 1] == s' && forall i | 0 < i < |run| :: Follows(run, i)
  }

  ghost predicate Leads(s: State, s': State) { exists run :: Path(run, s, s') }

  lemma LeadsNowhere(s: State)
    ensures Leads(s, s)
  {
    assert Path([s], s, s);
  }

  lemma LeadsOn(s: State, m: State, step: Step)
    requires Leads(s, m) && Enabled(m, step)
    ensures Leads(s, Apply(m, step))
  {
    var run :| Path(run, s, m);
    var longer := run + [Apply(m, step)];
    forall i | 0 < i < |longer|
      ensures Follows(longer, i)
    {
      if i < |run| { assert Follows(run, i); } else { assert Next(m, Apply(m, step)); }
    }
    assert Path(longer, s, Apply(m, step));
  }

  // ---------------------------------------------------------------- handing a frame to everyone

  /** Every open connection of the listed users has one frame more, except the named one; nobody else has. */
  ghost predicate Handed(s: State, s': State, frame: Frame, users: set<SteamId>, except: Option<ConnectionId>) {
    && s'.outbox.Keys == s.outbox.Keys
    && forall x | x in s.outbox ::
         s'.outbox[x] == s.outbox[x] + if x in s.hub && s.hub[x] in users && Some(x) != except then [frame] else []
  }

  lemma HandOne(s: State, t: ThreadId, u: SteamId)
    requires Enabled(s, FanOut(t, u))
    ensures var p := s.threads[t];
            Apply(s, FanOut(t, u)) ==
              To(s, t, FanningOut(p.frame, p.todo - {u}, p.except)).(outbox := HandedOut(s, p.frame, u, p.except))
  {}

  lemma HandedAll(s: State, m: State, s': State, u: SteamId, frame: Frame, todo: set<SteamId>, except: Option<ConnectionId>)
    requires u in todo && m.hub == s.hub && m.outbox == HandedOut(s, frame, u, except)
    requires Handed(m, s', frame, todo - {u}, except)
    ensures Handed(s, s', frame, todo, except)
  {
    forall x | x in s.outbox
      ensures s'.outbox[x] == s.outbox[x] + if x in s.hub && s.hub[x] in todo && Some(x) != except then [frame] else []
    {
      assert x in m.outbox;
      if x in s.hub && s.hub[x] == u { assert s.hub[x] !in todo - {u}; }
    }
  }

  lemma OnlyTheLastPhase(s: State, m: State, s': State, t: ThreadId, p: Phase, q: Phase)
    requires m == To(s, t, p).(outbox := m.outbox) && s' == To(m, t, q).(outbox := s'.outbox)
    ensures s' == To(s, t, q).(outbox := s'.outbox)
  {
    assert s.threads[t := p][t := q] == s.threads[t := q];
  }

  /** The fan-out of a call comes to its end. */
  lemma {:induction false} FanOutAlone(start: State, s: State, t: ThreadId) returns (s': State)
    requires Leads(start, s) && t in s.threads && s.threads[t].FanningOut?
    ensures var p := s.threads[t];
            && Leads(start, s') && Handed(s, s', p.frame, p.todo, p.except)
            && s' == To(s, t, FanningOut(p.frame, {}, p.except)).(outbox := s'.outbox)
    decreases |s.threads[t].todo|
  {
    var p := s.threads[t];
    if p.todo == {} {
      s' := s;
      assert s.threads[t := p] == s.threads;
    } else {
      var u :| u in p.todo;
      var m := Apply(s, FanOut(t, u));
      HandOne(s, t, u);
      LeadsOn(start, s, FanOut(t, u));
      s' := FanOutAlone(start, m, t);
      OnlyTheLastPhase(s, m, s', t, FanningOut(p.frame, p.todo - {u}, p.except), FanningOut(p.frame, {}, p.except));
      HandedAll(s, m, s', u, p.frame, p.todo, p.except);
    }
  }

  // ---------------------------------------------------------------- a send

  ghost predicate FreeFor(s: State, c: ConversationId) { StripeOf(c) !in s.locks }

  function WithLock(s: State, c: ConversationId, t: ThreadId): State { s.(locks := s.locks[StripeOf(c) := t]) }

  /** An allowed send of a member under a free key is stored under the next id, and on its way. */
  lemma SendIsPublished(s: State, t: ThreadId) returns (m: State)
    requires t in s.threads && s.threads[t].Sending? && FreeFor(s, s.threads[t].send.conversation)
    requires var send := s.threads[t].send;
             && send.conversation in s.members && send.sender in s.members[send.conversation] && !KeyTaken(s.table, KeyOfSend(send))
    ensures var (send, id) := (s.threads[t].send, s.nextId);
            var (c, frame) := (send.conversation, Frame.Delivered(send.conversation, id));
            && Leads(s, m)
            && m == To(WithLock(s, c, t), t, FanningOut(frame, s.members[c], Some(send.origin))).(
                      nextId := id + 1, published := s.published + [frame],
                      table := s.table[id := Row(c, send.sender, send.clientId, send.body, send.now, None)],
                      answers := m.answers, audience := m.audience)
  {
    var (send, id) := (s.threads[t].send, s.nextId);
    var c := send.conversation;
    LeadsNowhere(s);
    LeadsOn(s, s, Lock(t));
    var s1 := Apply(s, Lock(t));
    assert s1 == To(WithLock(s, c, t), t, SendLocked(send));
    LeadsOn(s, s1, ReadMembers(t, true));
    var s2 := Apply(s1, ReadMembers(t, true));
    assert s2 == To(s1, t, SendChecked(send, s.members[c]));
    LeadsOn(s, s2, DrawId(t));
    var s3 := Apply(s2, DrawId(t));
    assert s3 == To(s2, t, SendDrawn(send, s.members[c], id)).(nextId := id + 1);
    LeadsOn(s, s3, Commit(t));
    var s4 := CommitAlone(s3, t);
    LeadsOn(s, s4, PublishMessage(t));
    m := Apply(s4, PublishMessage(t));
    assert m.threads == s4.threads[t := FanningOut(Frame.Delivered(c, id), s.members[c], Some(send.origin))];
  }

  lemma CommitAlone(s: State, t: ThreadId) returns (s': State)
    requires Enabled(s, Commit(t)) && !KeyTaken(s.table, KeyOfSend(s.threads[t].send))
    ensures s' == Apply(s, Commit(t))
    ensures var SendDrawn(send, to, id) := s.threads[t];
            s' == To(s, t, SendStored(send, to, id)).(
                    table := s.table[id := Row(send.conversation, send.sender, send.clientId, send.body, send.now, None)],
                    audience := s'.audience)
  {
    s' := Apply(s, Commit(t));
    var SendDrawn(send, to, id) := s.threads[t];
    var e := CommitSend(s, send, to, id);
    assert s' == e.shared.(threads := WithPhase(s.threads, t, e.after));
  }

  /** Once everyone has the frame, a send gives its lock back and answers. */
  lemma SendReturns(start: State, s: State, t: ThreadId, c: ConversationId, id: MessageId, x: ConnectionId) returns (s': State)
    requires Leads(start, s) && t in s.threads && x in s.outbox
    requires s.threads[t] == FanningOut(Frame.Delivered(c, id), {}, Some(x))
    ensures Leads(start, s')
    ensures s' == s.(threads := s.threads - {t}, locks := s.locks - {StripeOf(c)}, outbox := s.outbox[x := s.outbox[x] + [Acked(c, id)]])
  {
    LeadsOn(start, s, Published(t));
    var s1 := Apply(s, Published(t));
    assert s1 == To(s, t, Leaving(c, Some((x, Acked(c, id)))));
    s' := CallReturns(start, s1, t, c, x, Acked(c, id));
    assert s1.threads - {t} == s.threads - {t};
  }

  lemma CallReturns(start: State, s: State, t: ThreadId, c: ConversationId, x: ConnectionId, f: Frame) returns (s': State)
    requires Leads(start, s) && t in s.threads && x in s.outbox && s.threads[t] == Leaving(c, Some((x, f)))
    ensures Leads(start, s')
    ensures s' == s.(threads := s.threads - {t}, locks := s.locks - {StripeOf(c)}, outbox := s.outbox[x := s.outbox[x] + [f]])
  {
    LeadsOn(start, s, Unlock(t));
    var s1 := Apply(s, Unlock(t));
    assert s1 == To(s, t, Answering((x, f))).(locks := s.locks - {StripeOf(c)});
    LeadsOn(start, s1, Step.Ack(t));
    s' := Apply(s1, Step.Ack(t));
    assert s1.threads - {t} == s.threads - {t};
  }

  /**
   * A send of a member under a free key, not interrupted: the message is stored under the next id and
   * published; every other connection of every member has one delivery more, the sending connection one
   * answer; the lock is free again, and nothing else has changed.
   */
  lemma SendAlone(s: State, t: ThreadId) returns (s': State)
    requires t in s.threads && s.threads[t].Sending? && FreeFor(s, s.threads[t].send.conversation)
    requires s.threads[t].send.origin in s.outbox
    requires var send := s.threads[t].send;
             && send.conversation in s.members && send.sender in s.members[send.conversation] && !KeyTaken(s.table, KeyOfSend(send))
    ensures Leads(s, s')
    ensures var (send, id) := (s.threads[t].send, s.nextId);
            var c := send.conversation;
            && s'.table == s.table[id := Row(c, send.sender, send.clientId, send.body, send.now, None)] && s'.nextId == id + 1
            && s'.published == s.published + [Frame.Delivered(c, id)]
            && s'.threads == s.threads - {t} && s'.locks == s.locks && s'.members == s.members && s'.hub == s.hub
            && s'.orphans == s.orphans && s'.outbox.Keys == s.outbox.Keys
            && forall x | x in s.outbox ::
                 s'.outbox[x] == s.outbox[x]
                   + (if x in s.hub && s.hub[x] in s.members[c] && x != send.origin then [Frame.Delivered(c, id)] else [])
                   + (if x == send.origin then [Acked(c, id)] else [])
  {
    var (send, id) := (s.threads[t].send, s.nextId);
    var c := send.conversation;
    var published := SendIsPublished(s, t);
    var handed := FanOutAlone(s, published, t);
    s' := SendReturns(s, handed, t, c, id, send.origin);
    assert s.locks[StripeOf(c) := t] - {StripeOf(c)} == s.locks;
    assert handed.threads - {t} == s.threads - {t};
  }

  /** A retry, not interrupted: it uses up an id, and its connection is answered the stored message's; nothing else changes. */
  lemma RetryAlone(s: State, t: ThreadId) returns (s': State, id: MessageId)
    requires t in s.threads && s.threads[t].Sending? && FreeFor(s, s.threads[t].send.conversation)
    requires s.threads[t].send.origin in s.outbox
    requires var send := s.threads[t].send;
             && send.conversation in s.members && send.sender in s.members[send.conversation] && KeyTaken(s.table, KeyOfSend(send))
    ensures Leads(s, s') && id in s.table && KeyOf(s.table[id]) == KeyOfSend(s.threads[t].send)
    ensures var send := s.threads[t].send;
            s' == s.(nextId := s.nextId + 1, threads := s.threads - {t}, answers := s'.answers,
                     outbox := s.outbox[send.origin := s.outbox[send.origin] + [Acked(send.conversation, id)]])
  {
    var send := s.threads[t].send;
    var c := send.conversation;
    LeadsNowhere(s);
    LeadsOn(s, s, Lock(t));
    var s1 := Apply(s, Lock(t));
    assert s1 == To(WithLock(s, c, t), t, SendLocked(send));
    LeadsOn(s, s1, ReadMembers(t, true));
    var s2 := Apply(s1, ReadMembers(t, true));
    assert s2 == To(s1, t, SendChecked(send, s.members[c]));
    LeadsOn(s, s2, DrawId(t));
    var s3 := Apply(s2, DrawId(t));
    assert s3 == To(s2, t, SendDrawn(send, s.members[c], s.nextId)).(nextId := s.nextId + 1);
    LeadsOn(s, s3, Commit(t));
    id := Stored(s.table, KeyOfSend(send));
    var s4 := RetryCommits(s3, t);
    s' := CallReturns(s, s4, t, c, send.origin, Acked(c, id));
    assert s.locks[StripeOf(c) := t] - {StripeOf(c)} == s.locks;
    assert s4.threads - {t} == s.threads - {t};
  }

  lemma RetryCommits(s: State, t: ThreadId) returns (s': State)
    requires Enabled(s, Commit(t)) && KeyTaken(s.table, KeyOfSend(s.threads[t].send))
    ensures s' == Apply(s, Commit(t))
    ensures var send := s.threads[t].send;
            s' == To(s, t, Leaving(send.conversation, Some((send.origin, Acked(send.conversation, Stored(s.table, KeyOfSend(send))))))).(
                    answers := s'.answers)
  {
    s' := Apply(s, Commit(t));
    var SendDrawn(send, to, id) := s.threads[t];
    var e := CommitSend(s, send, to, id);
    assert s' == e.shared.(threads := WithPhase(s.threads, t, e.after));
  }

  lemma CallLeaves(start: State, s: State, t: ThreadId, c: ConversationId) returns (s': State)
    requires Leads(start, s) && t in s.threads && s.threads[t] == Leaving(c, None)
    ensures Leads(start, s') && s' == s.(threads := s.threads - {t}, locks := s.locks - {StripeOf(c)})
  {
    LeadsOn(start, s, Unlock(t));
    s' := Apply(s, Unlock(t));
  }

  /** A send of somebody who is not a member, or whom the contact check turns away, leaves nothing behind. */
  lemma RejectedAlone(s: State, t: ThreadId, allowed: bool) returns (s': State)
    requires t in s.threads && s.threads[t].Sending? && FreeFor(s, s.threads[t].send.conversation)
    requires var send := s.threads[t].send;
             !allowed || send.conversation !in s.members || send.sender !in s.members[send.conversation]
    ensures Leads(s, s') && s' == s.(threads := s.threads - {t})
  {
    var send := s.threads[t].send;
    LeadsNowhere(s);
    LeadsOn(s, s, Lock(t));
    var s1 := Apply(s, Lock(t));
    assert s1 == To(WithLock(s, send.conversation, t), t, SendLocked(send));
    LeadsOn(s, s1, ReadMembers(t, allowed));
    var s2 := Apply(s1, ReadMembers(t, allowed));
    assert s2 == To(s1, t, Leaving(send.conversation, None));
    s' := CallLeaves(s, s2, t, send.conversation);
    assert s.locks[StripeOf(send.conversation) := t] - {StripeOf(send.conversation)} == s.locks;
    assert s2.threads - {t} == s.threads - {t};
  }

  // ---------------------------------------------------------------- a removal

  lemma RemovalIsPublished(s: State, t: ThreadId) returns (m: State)
    requires t in s.threads && s.threads[t].Removing? && FreeFor(s, s.threads[t].del.conversation)
    requires var del := s.threads[t].del; CanDelete(s.table, del.conversation, del.message, del.sender)
    ensures var del := s.threads[t].del;
            var (c, frame) := (del.conversation, Frame.Removed(del.conversation, del.message));
            && Leads(s, m)
            && m == To(WithLock(s, c, t), t, FanningOut(frame, MembersNow(s, c), None)).(
                      published := s.published + [frame], table := MarkDeleted(s.table, del.message, del.now))
  {
    var del := s.threads[t].del;
    var c := del.conversation;
    LeadsNowhere(s);
    LeadsOn(s, s, Lock(t));
    var s1 := Apply(s, Lock(t));
    assert s1 == To(WithLock(s, c, t), t, RemoveLocked(del));
    LeadsOn(s, s1, Mark(t));
    var s2 := Apply(s1, Mark(t));
    assert s2 == To(s1, t, RemoveMarked(del)).(table := MarkDeleted(s.table, del.message, del.now));
    LeadsOn(s, s2, PublishRemoval(t));
    m := Apply(s2, PublishRemoval(t));
    assert m.threads == s2.threads[t := FanningOut(Frame.Removed(c, del.message), MembersNow(s, c), None)];
  }

  /**
   * The removal of one's own live message, not interrupted: the row keeps its place, stamped and emptied;
   * every connection of every member, the remover's included, has one removal more; nothing else has changed.
   */
  lemma RemoveAlone(s: State, t: ThreadId) returns (s': State)
    requires t in s.threads && s.threads[t].Removing? && FreeFor(s, s.threads[t].del.conversation)
    requires var del := s.threads[t].del;
             && del.message in s.table && s.table[del.message].conversation == del.conversation
             && s.table[del.message].sender == del.sender && s.table[del.message].deletedAt.None?
    ensures Leads(s, s')
    ensures var del := s.threads[t].del;
            var c := del.conversation;
            && s'.table == s.table[del.message := Row(c, del.sender, s.table[del.message].clientId, "", s.table[del.message].sentAt, Some(del.now))]
            && s'.published == s.published + [Frame.Removed(c, del.message)]
            && s'.threads == s.threads - {t} && s'.locks == s.locks && s'.members == s.members && s'.hub == s.hub
            && s'.nextId == s.nextId && s'.orphans == s.orphans && s'.outbox.Keys == s.outbox.Keys
            && forall x | x in s.outbox ::
                 s'.outbox[x] == s.outbox[x]
                   + if x in s.hub && c in s.members && s.hub[x] in s.members[c] then [Frame.Removed(c, del.message)] else []
  {
    var del := s.threads[t].del;
    var c := del.conversation;
    var published := RemovalIsPublished(s, t);
    var handed := FanOutAlone(s, published, t);
    LeadsOn(s, handed, Published(t));
    var done := Apply(handed, Published(t));
    assert done == To(handed, t, Leaving(c, None));
    s' := CallLeaves(s, done, t, c);
    assert s.locks[StripeOf(c) := t] - {StripeOf(c)} == s.locks;
    assert done.threads - {t} == s.threads - {t};
  }

  /** The removal of anything else, not interrupted, leaves nothing behind. */
  lemma RefusedAlone(s: State, t: ThreadId) returns (s': State)
    requires t in s.threads && s.threads[t].Removing? && FreeFor(s, s.threads[t].del.conversation)
    requires var del := s.threads[t].del;
             !(&& del.message in s.table && s.table[del.message].conversation == del.conversation
               && s.table[del.message].sender == del.sender && s.table[del.message].deletedAt.None?)
    ensures Leads(s, s') && s' == s.(threads := s.threads - {t})
  {
    var del := s.threads[t].del;
    LeadsNowhere(s);
    LeadsOn(s, s, Lock(t));
    var s1 := Apply(s, Lock(t));
    assert s1 == To(WithLock(s, del.conversation, t), t, RemoveLocked(del));
    LeadsOn(s, s1, Mark(t));
    var s2 := Apply(s1, Mark(t));
    assert s2 == To(s1, t, Leaving(del.conversation, None));
    s' := CallLeaves(s, s2, t, del.conversation);
    assert s.locks[StripeOf(del.conversation) := t] - {StripeOf(del.conversation)} == s.locks;
    assert s2.threads - {t} == s.threads - {t};
  }
}
