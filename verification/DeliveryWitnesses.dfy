/** Runs that show which conditions of the delivery guarantees cannot be dropped. */
module DeliveryWitnesses {
  import opened Common
  import opened MessageLog
  import opened CatchUp
  import opened Delivery
  import opened DeliveryInvariants
  import opened DeliveryGuarantees
  import opened DeliveryCoverage
  import opened DeliveryCutOff

  ghost function Start(): State {
    State(map[], 1, map[], map[], map[], map[], map[], [], {}, map[], {})
  }

  function Last(run: seq<State>): State
    requires run != []
  {
    run[|run| - 1]
  }

  /** One more step at the end of a run. */
  lemma Extend(run: seq<State>, step: Step) returns (longer: seq<State>)
    requires Run(run) && Enabled(Last(run), step)
    ensures longer == run + [Apply(Last(run), step)] && Run(longer)
  {
    longer := run + [Apply(Last(run), step)];
    forall i | 0 < i < |longer|
      ensures Follows(longer, i)
    {
      if i < |run| { assert Follows(run, i); }
    }
  }

  /** `run` goes on from `before` without any connection coming or going. */
  ghost predicate GoesOn(before: seq<State>, run: seq<State>) {
    && Run(before) && Run(run) && |before| <= |run| && run[..|before|] == before
    && forall i | |before| <= i < |run| :: run[i].hub == Last(before).hub
  }

  lemma GoOn(before: seq<State>, run: seq<State>, step: Step) returns (longer: seq<State>)
    requires GoesOn(before, run) && Last(run).hub == Last(before).hub
    requires Enabled(Last(run), step) && !step.Connect? && !step.Disconnect?
    ensures GoesOn(before, longer) && Last(longer) == Apply(Last(run), step) && Last(longer).hub == Last(before).hub
  {
    longer := Extend(run, step);
    assert Apply(Last(run), step).hub == Last(run).hub;
    assert longer[..|before|] == run[..|before|];
  }

  // ---------------------------------------------------------------- one send, part by part, from any state

  /** The run goes on from `before`, and ends in `s`. */
  ghost predicate EndsIn(before: seq<State>, run: seq<State>, s: State) {
    GoesOn(before, run) && Last(run) == s && s.hub == Last(before).hub
  }

  ghost function CheckedBy(s: State, t: ThreadId, send: Send): State
    requires send.conversation in s.members
  {
    s.(threads := s.threads[t := SendChecked(send, s.members[send.conversation])], locks := s.locks[StripeOf(send.conversation) := t])
  }

  /** The call takes the lock and reads the member list. */
  lemma Check(before: seq<State>, run: seq<State>, s: State, t: ThreadId, send: Send) returns (longer: seq<State>)
    requires EndsIn(before, run, s) && t !in s.threads && StripeOf(send.conversation) !in s.locks
    requires send.conversation in s.members && send.sender in s.members[send.conversation]
    ensures EndsIn(before, longer, CheckedBy(s, t, send))
  {
    longer := GoOn(before, run, BeginSend(t, send));
    longer := GoOn(before, longer, Lock(t));
    assert Last(longer) == s.(threads := s.threads[t := SendLocked(send)], locks := s.locks[StripeOf(send.conversation) := t]);
    longer := GoOn(before, longer, ReadMembers(t, true));
  }

  ghost function StoredBy(s: State, t: ThreadId, send: Send, to: set<SteamId>, id: MessageId): State {
    s.(threads := s.threads[t := SendStored(send, to, id)], table := Insert(s.table, id, KeyOfSend(send), send.body, send.now),
       audience := s.audience[id := Audience(to, send.origin)])
  }

  lemma Draw(before: seq<State>, run: seq<State>, s: State, t: ThreadId) returns (longer: seq<State>)
    requires EndsIn(before, run, s) && t in s.threads && s.threads[t].SendChecked?
    ensures EndsIn(before, longer, To(s, t, SendDrawn(s.threads[t].send, s.threads[t].to, s.nextId)).(nextId := s.nextId + 1))
  {
    longer := GoOn(before, run, DrawId(t));
  }

  lemma Store(before: seq<State>, run: seq<State>, s: State, t: ThreadId) returns (longer: seq<State>)
    requires EndsIn(before, run, s) && t in s.threads && s.threads[t].SendDrawn? && !KeyTaken(s.table, KeyOfSend(s.threads[t].send))
    ensures EndsIn(before, longer, StoredBy(s, t, s.threads[t].send, s.threads[t].to, s.threads[t].id))
  {
    longer := GoOn(before, run, Commit(t));
  }

  /** Everyone in `todo` has been handed the frame, except the named connection. */
  function AllHanded(s: State, frame: Frame, todo: set<SteamId>, except: Option<ConnectionId>): map<ConnectionId, seq<Frame>> {
    map x | x in s.outbox ::
      if x in s.hub && s.hub[x] in todo && Some(x) != except then s.outbox[x] + [frame] else s.outbox[x]
  }

  ghost function OneHanded(s: State, t: ThreadId, u: SteamId): State
    requires t in s.threads && s.threads[t].FanningOut?
  {
    var p := s.threads[t];
    To(s, t, p.(todo := p.todo - {u})).(outbox := HandedOut(s, p.frame, u, p.except))
  }

  lemma HandOne(before: seq<State>, run: seq<State>, s: State, t: ThreadId, u: SteamId) returns (longer: seq<State>)
    requires EndsIn(before, run, s) && t in s.threads && s.threads[t].FanningOut? && u in s.threads[t].todo
    ensures EndsIn(before, longer, OneHanded(s, t, u))
  {
    longer := GoOn(before, run, FanOut(t, u));
  }

  /** Everybody handed: the call has nothing left to do. */
  ghost function HandedBy(s: State, t: ThreadId): State
    requires t in s.threads && s.threads[t].FanningOut?
  {
    var p := s.threads[t];
    To(s, t, p.(todo := {})).(outbox := AllHanded(s, p.frame, p.todo, p.except))
  }

  lemma OneThenAll(s: State, t: ThreadId, u: SteamId)
    requires t in s.threads && s.threads[t].FanningOut? && u in s.threads[t].todo
    ensures HandedBy(OneHanded(s, t, u), t) == HandedBy(s, t)
  {
    var p, next := s.threads[t], OneHanded(s, t, u);
    assert AllHanded(next, p.frame, p.todo - {u}, p.except) == AllHanded(s, p.frame, p.todo, p.except);
    assert next.threads[t := p.(todo := {})] == s.threads[t := p.(todo := {})];
  }

  lemma NobodyLeft(s: State, t: ThreadId)
    requires t in s.threads && s.threads[t].FanningOut? && s.threads[t].todo == {}
    ensures HandedBy(s, t) == s
  {
    var p := s.threads[t];
    assert AllHanded(s, p.frame, p.todo, p.except) == s.outbox;
    assert s.threads[t := p.(todo := {})] == s.threads;
  }

  lemma {:induction false} HandAll(before: seq<State>, run: seq<State>, s: State, t: ThreadId, todo: set<SteamId>) returns (longer: seq<State>)
    requires EndsIn(before, run, s) && t in s.threads && s.threads[t].FanningOut? && s.threads[t].todo == todo
    ensures EndsIn(before, longer, HandedBy(s, t))
    decreases |todo|
  {
    if todo == {} {
      longer := run;
      NobodyLeft(s, t);
    } else {
      var u: SteamId :| u in todo;
      longer := HandOne(before, run, s, t, u);
      OneThenAll(s, t, u);
      longer := HandAll(before, longer, OneHanded(s, t, u), t, todo - {u});
    }
  }

  /** Published, handed to everyone and unlocked; only the answer is still to come. */
  ghost function DeliveredBy(s: State, t: ThreadId, send: Send, to: set<SteamId>, id: MessageId): State {
    var frame := Frame.Delivered(send.conversation, id);
    To(s, t, Answering((send.origin, Acked(send.conversation, id)))).(
      outbox := AllHanded(s, frame, to, Some(send.origin)), published := s.published + [frame],
      answers := s.answers + {Answer(KeyOfSend(send), id, send.now)}, locks := s.locks - {StripeOf(send.conversation)})
  }

  lemma Publish(before: seq<State>, run: seq<State>, s: State, t: ThreadId) returns (longer: seq<State>)
    requires EndsIn(before, run, s) && t in s.threads && s.threads[t].SendStored?
    ensures var SendStored(send, to, id) := s.threads[t];
            var frame := Frame.Delivered(send.conversation, id);
            EndsIn(before, longer, StartFanOut(s, t, frame, to, Some(send.origin)).(answers := s.answers + {Answer(KeyOfSend(send), id, send.now)}))
  {
    longer := GoOn(before, run, PublishMessage(t));
  }

  lemma Release(before: seq<State>, run: seq<State>, s: State, t: ThreadId) returns (longer: seq<State>)
    requires EndsIn(before, run, s) && t in s.threads && s.threads[t].FanningOut? && s.threads[t].todo == {} && s.threads[t].except.Some?
    ensures var FanningOut(frame, _, except) := s.threads[t];
            EndsIn(before, longer, To(s, t, Answering((except.value, Acked(frame.conversation, frame.id)))).(
              locks := s.locks - {StripeOf(frame.conversation)}))
  {
    var FanningOut(frame, _, except) := s.threads[t];
    longer := GoOn(before, run, Step.Published(t));
    assert Last(longer) == To(s, t, Leaving(frame.conversation, Some((except.value, Acked(frame.conversation, frame.id)))));
    longer := GoOn(before, longer, Unlock(t));
  }

  lemma Deliver(before: seq<State>, run: seq<State>, s: State, t: ThreadId) returns (longer: seq<State>)
    requires EndsIn(before, run, s) && t in s.threads && s.threads[t].SendStored?
    ensures EndsIn(before, longer, DeliveredBy(s, t, s.threads[t].send, s.threads[t].to, s.threads[t].id))
  {
    var SendStored(send, to, id) := s.threads[t];
    var frame := Frame.Delivered(send.conversation, id);
    longer := Publish(before, run, s, t);
    var s1 := StartFanOut(s, t, frame, to, Some(send.origin)).(answers := s.answers + {Answer(KeyOfSend(send), id, send.now)});
    longer := HandAll(before, longer, s1, t, to);
    longer := Release(before, longer, HandedBy(s1, t), t);
    DeliveredAtLast(s, t);
  }

  lemma DeliveredAtLast(s: State, t: ThreadId)
    requires t in s.threads && s.threads[t].SendStored?
    ensures var SendStored(send, to, id) := s.threads[t];
            var frame := Frame.Delivered(send.conversation, id);
            var s1 := StartFanOut(s, t, frame, to, Some(send.origin)).(answers := s.answers + {Answer(KeyOfSend(send), id, send.now)});
            To(HandedBy(s1, t), t, Answering((send.origin, Acked(send.conversation, id)))).(locks := s.locks - {StripeOf(send.conversation)})
              == DeliveredBy(s, t, send, to, id)
  {
    var SendStored(send, to, id) := s.threads[t];
    var frame := Frame.Delivered(send.conversation, id);
    var s1 := StartFanOut(s, t, frame, to, Some(send.origin)).(answers := s.answers + {Answer(KeyOfSend(send), id, send.now)});
    var last := Answering((send.origin, Acked(send.conversation, id)));
    assert AllHanded(s1, frame, to, Some(send.origin)) == AllHanded(s, frame, to, Some(send.origin));
    assert HandedBy(s1, t).threads[t := last] == s.threads[t := last];
  }

  // ---------------------------------------------------------------- a send that has left the user out

  /** The new message of `t` has been stored, handed out and answered, and the connection has not seen it. */
  ghost predicate Missed(run: seq<State>, k: nat, x: ConnectionId, user: SteamId, c: ConversationId, id: MessageId) {
    && Run(run) && k < |run| && RegisteredThroughout(run, k, |run| - 1, x, user)
    && id !in run[k].table && Live(Last(run).table, c, id) && Settled(Last(run), id) && id !in Last(run).orphans
    && !HandedTo(Last(run), x, id) && !Acknowledged(Last(run), x, id)
  }

  /** `run` can go on so that the connection misses the message `id`. */
  ghost predicate MissedLater(run: seq<State>, longer: seq<State>, x: ConnectionId, user: SteamId, c: ConversationId, id: MessageId) {
    run != [] && run <= longer && Missed(longer, |run| - 1, x, user, c, id)
  }

  ghost function AckedBy(s: State, t: ThreadId): State
    requires t in s.threads && s.threads[t].Answering?
  {
    var (origin, frame) := s.threads[t].ack;
    s.(threads := s.threads - {t}, outbox := if origin in s.outbox then s.outbox[origin := s.outbox[origin] + [frame]] else s.outbox)
  }

  lemma Finish(before: seq<State>, run: seq<State>, s: State, t: ThreadId) returns (longer: seq<State>)
    requires EndsIn(before, run, s) && t in s.threads && s.threads[t].Answering?
    ensures EndsIn(before, longer, AckedBy(s, t))
  {
    longer := GoOn(before, run, Step.Ack(t));
  }

  /** What the whole rest of a drawn send leaves behind. */
  ghost function SentBy(s: State, t: ThreadId): State
    requires t in s.threads && s.threads[t].SendDrawn?
  {
    var SendDrawn(send, to, id) := s.threads[t];
    AckedBy(DeliveredBy(StoredBy(s, t, send, to, id), t, send, to, id), t)
  }

  lemma SendOn(before: seq<State>, run: seq<State>, s: State, t: ThreadId) returns (longer: seq<State>)
    requires EndsIn(before, run, s) && t in s.threads && s.threads[t].SendDrawn? && !KeyTaken(s.table, KeyOfSend(s.threads[t].send))
    ensures EndsIn(before, longer, SentBy(s, t))
  {
    var SendDrawn(send, to, id) := s.threads[t];
    longer := Store(before, run, s, t);
    longer := Deliver(before, longer, StoredBy(s, t, send, to, id), t);
    longer := Finish(before, longer, DeliveredBy(StoredBy(s, t, send, to, id), t, send, to, id), t);
  }

  lemma NobodyElseHas(s: State, t: ThreadId, id: MessageId)
    requires Inv(s) && InPlace(s) && t in s.threads && s.threads[t].SendDrawn? && s.threads[t].id == id
    ensures Settled(SentBy(s, t), id)
  {
    forall u | u in s.threads && u != t
      ensures !(s.threads[u].SendStored? && s.threads[u].id == id)
      ensures !(s.threads[u].FanningOut? && s.threads[u].frame.Delivered? && s.threads[u].frame.id == id)
      ensures !(s.threads[u].Leaving? && s.threads[u].reply.Some? && s.threads[u].reply.value.1.id == id)
      ensures !(s.threads[u].Answering? && s.threads[u].ack.1.id == id)
    {
      assert PhaseOk(s, s.threads[u]) && CallInPlace(s, s.threads[u]) && PhaseOk(s, s.threads[t]);
    }
  }

  lemma LeftOutGetsNothing(s: State, t: ThreadId, x: ConnectionId, c: ConversationId, user: SteamId)
    requires Inv(s) && InPlace(s) && HasLeftOut(s, t, x, user, c) && s.threads[t].SendDrawn?
    requires x in s.hub && s.hub[x] == user
    ensures var s', id := SentBy(s, t), s.threads[t].id;
            x in s'.outbox && s'.outbox[x] == s.outbox[x] && !HandedTo(s', x, id) && !Acknowledged(s', x, id)
  {
    var SendDrawn(send, to, id) := s.threads[t];
    assert PhaseOk(s, s.threads[t]) && OutboxInPlace(s, x);
    assert AllHanded(StoredBy(s, t, send, to, id), Frame.Delivered(c, id), to, Some(send.origin))[x] == s.outbox[x];
    assert Frame.Delivered(c, id) !in s.outbox[x];
    assert Acked(c, id) in s.outbox[x] ==> NamesRow(s, Acked(c, id));
  }

  /**
   * The converse of NothingIsMissed's condition: if at any moment a send in progress on a free key has
   * left the user out, the run can go on, every call of it finished, so that the user's registered
   * connection never gets the message.
   */
  lemma LeftOutMisses(run: seq<State>, t: ThreadId, x: ConnectionId, c: ConversationId, user: SteamId)
    requires Run(run) && HasLeftOut(Last(run), t, x, user, c)
    requires x in Last(run).hub && Last(run).hub[x] == user
    ensures exists longer, id :: MissedLater(run, longer, x, user, c, id)
  {
    var s := Last(run);
    assert run[..|run|] == run;
    if s.threads[t].SendChecked? {
      var drawn := Draw(run, run, s, t);
      DrawnMisses(run, drawn, Last(drawn), t, x, c, user);
    } else {
      DrawnMisses(run, run, s, t, x, c, user);
    }
  }

  /**
   * Exactly when a member whose connection is registered can miss a message from now on: when a send in
   * progress has left the user out.
   */
  lemma MissesIff(run: seq<State>, x: ConnectionId, user: SteamId, c: ConversationId)
    requires Run(run) && x in Last(run).hub && Last(run).hub[x] == user && user in MembersNow(Last(run), c)
    ensures (exists longer, id :: MissedLater(run, longer, x, user, c, id)) <==> !SeenByAllSends(Last(run), x, user, c)
  {
    if SeenByAllSends(Last(run), x, user, c) {
      forall longer, id
        ensures !MissedLater(run, longer, x, user, c, id)
      {
        if MissedLater(run, longer, x, user, c, id) {
          assert longer[|run| - 1] == Last(run);
          NewIsHandedOrAnswered(longer, |run| - 1, |longer| - 1, x, user, c, id);
        }
      }
    } else {
      var t: ThreadId :| t in Last(run).threads && HasLeftOut(Last(run), t, x, user, c);
      LeftOutMisses(run, t, x, c, user);
    }
  }

  lemma DrawnMisses(run: seq<State>, drawn: seq<State>, s: State, t: ThreadId, x: ConnectionId, c: ConversationId, user: SteamId)
    requires EndsIn(run, drawn, s) && HasLeftOut(s, t, x, user, c) && s.threads[t].SendDrawn?
    requires x in s.hub && s.hub[x] == user && s.table == Last(run).table
    ensures exists longer, id :: MissedLater(run, longer, x, user, c, id)
  {
    var k, id := |run| - 1, s.threads[t].id;
    InPlaceAt(drawn, |drawn| - 1);
    assert PhaseOk(s, s.threads[t]);
    var longer := SendOn(run, drawn, s, t);
    NobodyElseHas(s, t, id);
    LeftOutGetsNothing(s, t, x, c, user);
    SentIsLive(s, t, c);
    StaysRegistered(run, longer, x, user);
    assert run <= longer && longer[k] == run[k];
    assert MissedLater(run, longer, x, user, c, id);
  }

  lemma SentIsLive(s: State, t: ThreadId, c: ConversationId)
    requires Inv(s) && t in s.threads && s.threads[t].SendDrawn? && s.threads[t].send.conversation == c
    ensures Live(SentBy(s, t).table, c, s.threads[t].id) && SentBy(s, t).orphans == s.orphans && s.threads[t].id !in s.orphans
  {
    assert PhaseOk(s, s.threads[t]);
  }

  lemma StaysRegistered(before: seq<State>, run: seq<State>, x: ConnectionId, user: SteamId)
    requires GoesOn(before, run) && x in Last(before).hub && Last(before).hub[x] == user
    ensures RegisteredThroughout(run, |before| - 1, |run| - 1, x, user)
  {
    assert run[|before| - 1] == run[..|before|][|before| - 1];
  }

  // ---------------------------------------------------------------- concrete runs

  function Message(clientId: string, sender: SteamId, origin: ConnectionId): Send { Send(7, sender, clientId, "hello", 5, origin) }

  /** Users 1 and 2 talk in conversation 7. */
  ghost function Talking(members: set<SteamId>, hub: map<ConnectionId, SteamId>): State {
    Start().(members := map[7 := members], hub := hub, outbox := map x | x in hub :: [])
  }

  lemma Opened(members: set<SteamId>) returns (run: seq<State>)
    ensures Run(run) && Last(run) == Talking(members, map[])
  {
    run := [Start()];
    run := Extend(run, Create(7, members));
  }

  /** User 2 listens on connection 200. */
  lemma Listening() returns (run: seq<State>)
    ensures Run(run) && Last(run) == Talking({1, 2}, map[200 := 2])
  {
    run := Opened({1, 2});
    run := Extend(run, Connect(200, 2));
  }

  /** User 1's call has read the member list before user 2 joined and connected. */
  lemma JoinedTooLate() returns (run: seq<State>)
    ensures Run(run) && Last(run).members == map[7 := {1, 2}] && Last(run).table == map[] && Last(run).hub == map[200 := 2]
    ensures Last(run).threads == map[0 := SendChecked(Message("c1", 1, 100), {1})]
  {
    run := Opened({1});
    run := Check(run, run, Last(run), 0, Message("c1", 1, 100));
    run := Extend(run, Join(7, 2));
    assert {1} + {2} == {1, 2};
    assert Last(run).members == map[7 := {1, 2}];
    run := Extend(run, Connect(200, 2));
  }

  /**
   * Being a member when the device reads is not enough: a send that had read the member list before the
   * user joined is stored afterwards, and neither the read nor the connection ever shows it.
   */
  lemma LateJoinerMissesOne()
    ensures exists run: seq<State>, k: nat, id: MessageId :: Missed(run, k, 200, 2, 7, id) && 2 in MembersNow(run[k], 7)
                                      && id !in SyncOf(run[k].table, 7, None, 100).page
  {
    var run := JoinedTooLate();
    LeftOutMisses(run, 0, 200, 7, 2);
    var longer, id :| MissedLater(run, longer, 200, 2, 7, id);
    assert longer[|run| - 1] == Last(run);
    assert LiveAfter(Last(run).table, 7, 0) == {};
  }

  lemma Lose(before: seq<State>, run: seq<State>, s: State, t: ThreadId) returns (longer: seq<State>)
    requires EndsIn(before, run, s) && t in s.threads && s.threads[t].SendStored?
    ensures EndsIn(before, longer, s.(threads := s.threads - {t}, locks := s.locks - {StripeOf(s.threads[t].send.conversation)},
                                      orphans := s.orphans + {s.threads[t].id}))
  {
    longer := GoOn(before, run, Throw(t));
    assert Last(longer) == To(s, t, Leaving(s.threads[t].send.conversation, None)).(orphans := s.orphans + {s.threads[t].id});
    longer := GoOn(before, longer, Unlock(t));
    assert s.threads[t := Leaving(s.threads[t].send.conversation, None)] - {t} == s.threads - {t};
  }

  /** Message 1 of user 1 is stored, and the reply to its append is lost. */
  ghost function Orphaned(s: State): State {
    s.(table := map[1 := Row(7, 1, "c1", "hello", 5, None)], nextId := 2, audience := map[1 := Audience({1, 2}, 100)], orphans := {1})
  }

  lemma ReplyLost(before: seq<State>) returns (run: seq<State>)
    requires Run(before) && Last(before) == Talking({1, 2}, map[200 := 2])
    ensures EndsIn(before, run, Orphaned(Last(before)))
  {
    var s, send := Last(before), Message("c1", 1, 100);
    assert before[..|before|] == before;
    run := Check(before, before, s, 0, send);
    run := Draw(before, run, CheckedBy(s, 0, send), 0);
    var d := Last(run);
    assert d.threads == map[0 := SendDrawn(send, {1, 2}, 1)] && d.locks == map[7 := 0];
    run := Store(before, run, d, 0);
    run := Lose(before, run, StoredBy(d, 0, send, {1, 2}, 1), 0);
    assert Last(run).threads == map[] && Last(run).locks == map[];
  }

  /** When the reply of an append is lost, its message can be removed without ever having been delivered. */
  lemma OrphanIsRemovedUndelivered()
    ensures exists run: seq<State> :: Run(run) && Last(run).published == [Frame.Removed(7, 1)]
  {
    var before := Listening();
    var run := ReplyLost(before);
    run := Extend(run, BeginRemove(0, Delete(7, 1, 1, 6)));
    run := Extend(run, Lock(0));
    assert Last(run).threads == map[0 := RemoveLocked(Delete(7, 1, 1, 6))];
    run := Extend(run, Mark(0));
    assert Last(run).threads == map[0 := RemoveMarked(Delete(7, 1, 1, 6))];
    run := Extend(run, PublishRemoval(0));
  }

  /** User 1's next message reaches user 2's connection, whatever came before it. */
  lemma NextOneArrives(before: seq<State>, run: seq<State>, s: State, t: ThreadId) returns (longer: seq<State>)
    requires EndsIn(before, run, s) && t !in s.threads && s.locks == map[] && s.members == map[7 := {1, 2}]
    requires s.hub == map[200 := 2] && s.outbox == map[200 := []]
    requires !KeyTaken(s.table, KeyOfSend(Message("c2", 1, 100)))
    ensures GoesOn(before, longer) && Last(longer).outbox == map[200 := [Frame.Delivered(7, s.nextId)]]
    ensures Last(longer).table == s.table[s.nextId := Row(7, 1, "c2", "hello", 5, None)]
    ensures Last(longer).orphans == s.orphans && Last(longer).audience == s.audience[s.nextId := Audience({1, 2}, 100)]
  {
    var send := Message("c2", 1, 100);
    longer := Check(before, run, s, t, send);
    longer := Draw(before, longer, CheckedBy(s, t, send), t);
    var d := Last(longer);
    longer := Store(before, longer, d, t);
    longer := Deliver(before, longer, StoredBy(d, t, send, {1, 2}, s.nextId), t);
    OneBoxHanded(StoredBy(d, t, send, {1, 2}, s.nextId), Frame.Delivered(7, s.nextId), 100);
  }

  lemma OneBoxHanded(s: State, frame: Frame, origin: ConnectionId)
    requires s.hub == map[200 := 2] && s.outbox == map[200 := []]
    ensures AllHanded(s, frame, {1, 2}, Some(origin)) == map[200 := if origin == 200 then [] else [frame]]
  {
    assert s.outbox[200] + [frame] == [frame];
  }

  /** By moment `n` a registered member's connection has got message 2, and message 1 neither by page nor by frame. */
  ghost predicate HoleBelow(run: seq<State>, k: nat) {
    && Run(run) && k < |run| && RegisteredThroughout(run, k, |run| - 1, 200, 2) && SeenByAllSends(run[k], 200, 2, 7)
    && run[k].table == map[] && Live(Last(run).table, 7, 1)
    && Last(run).outbox == map[200 := [Frame.Delivered(7, 2)]]
  }

  /**
   * A message whose append reply was lost can lie below a message that was delivered. A device whose
   * maximum is the latter's id is never sent it by a later sync.
   */
  lemma OrphanBelowTheMaximum()
    ensures exists run: seq<State>, k: nat :: HoleBelow(run, k) && 1 in Last(run).orphans
                             && forall limit: nat :: 1 !in SyncOf(Last(run).table, 7, Some(2), limit).page
  {
    var before := Listening();
    var run := ReplyLost(before);
    run := NextOneArrives(before, run, Last(run), 0);
    StaysRegistered(before, run, 200, 2);
    assert run[|before| - 1] == run[..|before|][|before| - 1];
    forall limit: nat
      ensures 1 !in SyncOf(Last(run).table, 7, Some(2), limit).page
    {
      assert 1 !in LiveAfter(Last(run).table, 7, 2);
    }
    assert HoleBelow(run, |before| - 1);
  }

  /** User 2's own message 1 is stored and handed to the others; its answer is still to come. */
  lemma OwnOneWaits(before: seq<State>) returns (run: seq<State>)
    requires Run(before) && Last(before) == Talking({1, 2}, map[200 := 2])
    ensures GoesOn(before, run) && Last(run).threads.Keys == {0} && Last(run).locks == map[] && Last(run).members == map[7 := {1, 2}]
    ensures Last(run).hub == map[200 := 2] && Last(run).outbox == map[200 := []] && Last(run).nextId == 2 && Last(run).orphans == {}
    ensures Last(run).table == map[1 := Row(7, 2, "c1", "hello", 5, None)] && Last(run).audience == map[1 := Audience({1, 2}, 200)]
  {
    var s, send := Last(before), Message("c1", 2, 200);
    assert before[..|before|] == before;
    run := Check(before, before, s, 0, send);
    run := Draw(before, run, CheckedBy(s, 0, send), 0);
    var d := Last(run);
    assert d.threads == map[0 := SendDrawn(send, {1, 2}, 1)] && d.locks == map[7 := 0];
    run := Store(before, run, d, 0);
    run := Deliver(before, run, StoredBy(d, 0, send, {1, 2}, 1), 0);
    OneBoxHanded(StoredBy(d, 0, send, {1, 2}, 1), Frame.Delivered(7, 1), 200);
  }

  /** A device's own message can lie below one it was delivered, while its answer is still to come. */
  lemma OwnSendBelowTheMaximum()
    ensures exists run: seq<State>, k: nat :: HoleBelow(run, k) && 1 !in Last(run).orphans
                                              && 1 in Last(run).audience && Last(run).audience[1].origin == 200
  {
    var before := Listening();
    var run := OwnOneWaits(before);
    run := NextOneArrives(before, run, Last(run), 1);
    StaysRegistered(before, run, 200, 2);
    assert run[|before| - 1] == run[..|before|][|before| - 1];
    assert HoleBelow(run, |before| - 1);
  }
}
