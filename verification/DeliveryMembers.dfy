/**
 * Who hears what. Senders are members, nobody but members is handed anything, and a removal reaches every
 * connection of everyone who was a member when it was published.
 */
module DeliveryMembers {
  import opened Common
  import opened MessageLog
  import opened Delivery
  import opened DeliveryInvariants
  import opened DeliveryGuarantees
  import opened DeliveryCoverage

  ghost predicate Within(s: State, c: ConversationId, users: set<SteamId>) {
    c in s.members && users <= s.members[c]
  }

  /** A send past its check was let through for a member, and means members only; so does a fan-out. */
  ghost predicate CallWithin(s: State, p: Phase) {
    match p
    case SendChecked(send, to) => Within(s, send.conversation, to) && send.sender in to
    case SendDrawn(send, to, _) => Within(s, send.conversation, to) && send.sender in to
    case SendStored(send, to, _) => Within(s, send.conversation, to) && send.sender in to
    case FanningOut(frame, todo, _) => Within(s, frame.conversation, todo)
    case _ => true
  }

  ghost predicate CallsWithin(s: State) { forall t | t in s.threads :: CallWithin(s, s.threads[t]) }

  ghost predicate RowWithin(s: State, id: MessageId)
    requires id in s.table
  {
    && id in s.audience && s.table[id].sender in s.audience[id].to
    && Within(s, s.table[id].conversation, s.audience[id].to)
  }

  ghost predicate RowsWithin(s: State) { forall id | id in s.table :: RowWithin(s, id) }

  ghost predicate BoxWithin(s: State, x: ConnectionId) {
    x in s.hub && x in s.outbox ==> forall f | f in s.outbox[x] && !f.Acked? :: Within(s, f.conversation, {s.hub[x]})
  }

  ghost predicate MembersOnly(s: State) { CallsWithin(s) && RowsWithin(s) && forall x :: BoxWithin(s, x) }

  // ---------------------------------------------------------------- one step

  lemma MembersGrow(s: State, step: Step, c: ConversationId, users: set<SteamId>)
    requires Enabled(s, step) && Within(s, c, users)
    ensures Within(Apply(s, step), c, users)
  {
    if Mover(step).Some? { CallsLeaveMembers(s, step); }
  }

  lemma CallStays(s: State, step: Step, p: Phase)
    requires Enabled(s, step) && CallWithin(s, p)
    ensures CallWithin(Apply(s, step), p)
  {
    match p
    case SendChecked(send, to) => MembersGrow(s, step, send.conversation, to);
    case SendDrawn(send, to, _) => MembersGrow(s, step, send.conversation, to);
    case SendStored(send, to, _) => MembersGrow(s, step, send.conversation, to);
    case FanningOut(frame, todo, _) => MembersGrow(s, step, frame.conversation, todo);
    case _ =>
  }

  lemma MoverStaysWithin(s: State, step: Step, t: ThreadId)
    requires PhaseInv(s) && CallsWithin(s) && RowsWithin(s) && Enabled(s, step) && Mover(step) == Some(t)
    ensures t in Apply(s, step).threads ==> CallWithin(s, Apply(s, step).threads[t])
  {
    if t in s.threads { assert CallWithin(s, s.threads[t]) && PhaseOk(s, s.threads[t]); }
    if step.PublishRemoval? {
      var del := s.threads[t].del;
      assert RowWithin(s, del.message);
    }
  }

  lemma StepKeepsCallsWithin(s: State, step: Step)
    requires Inv(s) && MembersOnly(s) && Enabled(s, step)
    ensures CallsWithin(Apply(s, step))
  {
    var s' := Apply(s, step);
    forall t | t in s'.threads
      ensures CallWithin(s', s'.threads[t])
    {
      if Mover(step) == Some(t) {
        MoverStaysWithin(s, step, t);
      } else {
        ThreadWasThere(s, step, t);
        OthersStand(s, step, t);
      }
      CallStays(s, step, s'.threads[t]);
    }
  }

  lemma NewRowWithin(s: State, step: Step, id: MessageId)
    requires CallsWithin(s) && Enabled(s, step) && id in Apply(s, step).table && id !in s.table
    ensures RowWithin(Apply(s, step), id)
  {
    NewRowIsStored(s, step, id);
    assert CallWithin(s, s.threads[step.t]);
    MembersGrow(s, step, s.threads[step.t].send.conversation, s.threads[step.t].to);
    CommitStoresSender(s, step.t, id);
  }

  lemma CommitStoresSender(s: State, t: ThreadId, id: MessageId)
    requires Enabled(s, Commit(t)) && id in Apply(s, Commit(t)).table && id !in s.table
    ensures Apply(s, Commit(t)).table[id].sender == s.threads[t].send.sender
  {
    var SendDrawn(send, to, drawn) := s.threads[t];
    var e := CommitSend(s, send, to, drawn);
    assert Apply(s, Commit(t)) == e.shared.(threads := WithPhase(s.threads, t, e.after));
    assert !KeyTaken(s.table, KeyOfSend(send));
  }

  lemma RowKeeps(s: State, step: Step, id: MessageId)
    requires Inv(s) && Enabled(s, step) && id in s.table
    ensures id in Apply(s, step).table && SameMessage(s.table[id], Apply(s, step).table[id])
  {
    StepKeeps(s, step);
  }

  lemma CommitDrawsFresh(s: State, step: Step)
    requires Inv(s) && Enabled(s, step)
    ensures step.Commit? ==> s.threads[step.t].id !in s.audience
  {
    if step.Commit? { assert PhaseOk(s, s.threads[step.t]); }
  }

  lemma OldRowWithin(s: State, step: Step, id: MessageId)
    requires Inv(s) && RowsWithin(s) && Enabled(s, step) && id in s.table
    ensures id in Apply(s, step).table && RowWithin(Apply(s, step), id)
  {
    assert RowWithin(s, id);
    RowKeeps(s, step, id);
    CommitDrawsFresh(s, step);
    AudienceGrows(s, step);
    MembersGrow(s, step, s.table[id].conversation, s.audience[id].to);
  }

  lemma StepKeepsRowsWithin(s: State, step: Step)
    requires Inv(s) && MembersOnly(s) && Enabled(s, step)
    ensures RowsWithin(Apply(s, step))
  {
    forall id | id in Apply(s, step).table
      ensures RowWithin(Apply(s, step), id)
    {
      if id in s.table { OldRowWithin(s, step, id); } else { NewRowWithin(s, step, id); }
    }
  }

  lemma FanOutKeepsBoxWithin(s: State, t: ThreadId, user: SteamId, x: ConnectionId)
    requires CallsWithin(s) && BoxWithin(s, x) && Enabled(s, FanOut(t, user))
    ensures BoxWithin(Apply(s, FanOut(t, user)), x)
  {
    var s' := Apply(s, FanOut(t, user));
    assert s'.outbox == HandedOut(s, s.threads[t].frame, user, s.threads[t].except) && s'.hub == s.hub && s'.members == s.members;
    assert CallWithin(s, s.threads[t]);
  }

  lemma StepKeepsBoxWithin(s: State, step: Step, x: ConnectionId)
    requires PhaseInv(s) && CallsWithin(s) && BoxWithin(s, x) && Enabled(s, step)
    ensures BoxWithin(Apply(s, step), x)
  {
    if step.FanOut? {
      FanOutKeepsBoxWithin(s, step.t, step.user, x);
    } else {
      var s' := Apply(s, step);
      forall f | x in s'.hub && x in s'.outbox && f in s'.outbox[x] && !f.Acked?
        ensures Within(s', f.conversation, {s'.hub[x]})
      {
        OtherStepsKeepHolders(s, step, f, x);
        MembersGrow(s, step, f.conversation, {s.hub[x]});
      }
    }
  }

  lemma NextKeepsMembers(s: State, s': State)
    requires Inv(s) && MembersOnly(s) && Next(s, s')
    ensures MembersOnly(s')
  {
    var step :| Enabled(s, step) && s' == Apply(s, step);
    StepKeepsCallsWithin(s, step);
    StepKeepsRowsWithin(s, step);
    forall x
      ensures BoxWithin(s', x)
    {
      StepKeepsBoxWithin(s, step, x);
    }
  }

  lemma {:induction false} MembersOnlyAt(run: seq<State>, i: nat)
    requires Run(run) && i < |run|
    ensures Inv(run[i]) && MembersOnly(run[i])
  {
    InvAt(run, i);
    if i > 0 {
      MembersOnlyAt(run, i - 1);
      NextAt(run, i);
      NextKeepsMembers(run[i - 1], run[i]);
    }
  }

  // ---------------------------------------------------------------- who sends and who hears

  /** Every stored message was sent by a member, and was meant for members only, the sender among them. */
  lemma SendersAreMembers(run: seq<State>, i: nat, id: MessageId)
    requires Run(run) && i < |run| && id in run[i].table
    ensures var (s, c) := (run[i], run[i].table[id].conversation);
            && c in s.members && s.table[id].sender in s.members[c]
            && id in s.audience && s.table[id].sender in s.audience[id].to && s.audience[id].to <= s.members[c]
  {
    MembersOnlyAt(run, i);
    assert RowWithin(run[i], id);
  }

  /** A registered connection has been handed deliveries and removals of its user's conversations only. */
  lemma OnlyMembersHear(run: seq<State>, i: nat, x: ConnectionId, f: Frame)
    requires Run(run) && i < |run| && x in run[i].hub && x in run[i].outbox && f in run[i].outbox[x] && !f.Acked?
    ensures f.conversation in run[i].members && run[i].hub[x] in run[i].members[f.conversation]
  {
    MembersOnlyAt(run, i);
    assert BoxWithin(run[i], x);
  }

  // ---------------------------------------------------------------- removals reach members

  /** Some call is still handing the frame to the user. */
  ghost predicate StillHanding(s: State, f: Frame, user: SteamId) {
    exists t :: t in s.threads && s.threads[t].FanningOut? && s.threads[t].frame == f && user in s.threads[t].todo
  }

  ghost predicate GotOrWill(s: State, f: Frame, x: ConnectionId, user: SteamId) {
    (x in s.outbox && f in s.outbox[x]) || StillHanding(s, f, user)
  }

  /** No removal of `c` published since `known` was everything published has passed the connection by. */
  ghost predicate NoRemovalSkipped(known: seq<Frame>, s: State, x: ConnectionId, user: SteamId, c: ConversationId) {
    forall f | f in s.published && f !in known && f.Removed? && f.conversation == c :: GotOrWill(s, f, x, user)
  }

  ghost predicate ExceptNobody(s: State) {
    forall t | t in s.threads && s.threads[t].FanningOut? && s.threads[t].frame.Removed? :: s.threads[t].except == None
  }

  lemma StepKeepsExcept(s: State, step: Step)
    requires ExceptNobody(s) && Enabled(s, step)
    ensures ExceptNobody(Apply(s, step))
  {
    var s' := Apply(s, step);
    forall t | t in s'.threads && s'.threads[t].FanningOut? && s'.threads[t].frame.Removed?
      ensures s'.threads[t].except == None
    {
      if Mover(step) != Some(t) { ThreadWasThere(s, step, t); OthersStand(s, step, t); }
    }
  }

  lemma HandingGoesOn(s: State, step: Step, t: ThreadId, f: Frame, x: ConnectionId, user: SteamId)
    requires ExceptNobody(s) && OutboxInv(s) && Enabled(s, step) && x in s.hub && s.hub[x] == user
    requires t in s.threads && s.threads[t].FanningOut? && s.threads[t].frame == f && user in s.threads[t].todo && f.Removed?
    ensures GotOrWill(Apply(s, step), f, x, user)
  {
    if Mover(step) != Some(t) {
      OthersStand(s, step, t);
      assert StillHanding(Apply(s, step), f, user);
    } else if step.FanOut? && step.user == user {
      FanOutReaches(s, t, user, x);
    } else {
      assert user in Apply(s, step).threads[t].todo;
      assert StillHanding(Apply(s, step), f, user);
    }
  }

  lemma OldRemovalGoesOn(s: State, step: Step, f: Frame, x: ConnectionId, user: SteamId)
    requires ExceptNobody(s) && OutboxInv(s) && Enabled(s, step) && x in s.hub && s.hub[x] == user && f.Removed?
    requires GotOrWill(s, f, x, user)
    ensures GotOrWill(Apply(s, step), f, x, user)
  {
    if x in s.outbox && f in s.outbox[x] {
      OutboxGrows(s, step, x, f);
    } else {
      var t: ThreadId :| t in s.threads && s.threads[t].FanningOut? && s.threads[t].frame == f && user in s.threads[t].todo;
      HandingGoesOn(s, step, t, f, x, user);
    }
  }

  lemma OtherStepsPublishNoRemoval(s: State, step: Step, f: Frame)
    requires Enabled(s, step) && !step.PublishRemoval? && f.Removed?
    ensures f in Apply(s, step).published ==> f in s.published
  {
    if step.PublishMessage? { assert Apply(s, step).published == s.published + [Frame.Delivered(s.threads[step.t].send.conversation, s.threads[step.t].id)]; }
  }

  /** Only the publication of a removal publishes one, and it starts handing it to every member. */
  lemma NewRemovalIsHanded(s: State, step: Step, f: Frame)
    requires Enabled(s, step) && f in Apply(s, step).published && f !in s.published && f.Removed?
    ensures step.PublishRemoval? && f == Frame.Removed(s.threads[step.t].del.conversation, s.threads[step.t].del.message)
    ensures var s' := Apply(s, step);
            && s'.members == s.members && s'.outbox == s.outbox && s'.hub == s.hub
            && step.t in s'.threads && s'.threads[step.t].FanningOut? && s'.threads[step.t].frame == f
            && (forall u :: u in s'.threads[step.t].todo <==> f.conversation in s.members && u in s.members[f.conversation])
  {
    if !step.PublishRemoval? { OtherStepsPublishNoRemoval(s, step, f); }
  }

  lemma StepSkipsNoRemoval(known: seq<Frame>, s: State, step: Step, x: ConnectionId, user: SteamId, c: ConversationId)
    requires Inv(s) && ExceptNobody(s) && Enabled(s, step) && x in s.hub && s.hub[x] == user
    requires c in s.members && user in s.members[c] && NoRemovalSkipped(known, s, x, user, c)
    ensures NoRemovalSkipped(known, Apply(s, step), x, user, c)
  {
    var s' := Apply(s, step);
    forall f | f in s'.published && f !in known && f.Removed? && f.conversation == c
      ensures GotOrWill(s', f, x, user)
    {
      if f in s.published {
        OldRemovalGoesOn(s, step, f, x, user);
      } else {
        NewRemovalIsHanded(s, step, f);
        assert StillHanding(s', f, user);
      }
    }
  }

  lemma {:induction false} ExceptNobodyAt(run: seq<State>, i: nat)
    requires Run(run) && i < |run|
    ensures ExceptNobody(run[i])
  {
    if i > 0 {
      ExceptNobodyAt(run, i - 1);
      assert Follows(run, i);
      var step :| Enabled(run[i - 1], step) && run[i] == Apply(run[i - 1], step);
      StepKeepsExcept(run[i - 1], step);
    }
  }

  /** The user is a member, and no removal published since has passed its connection by. */
  ghost predicate HearsRemovals(known: seq<Frame>, s: State, x: ConnectionId, user: SteamId, c: ConversationId) {
    c in s.members && user in s.members[c] && NoRemovalSkipped(known, s, x, user, c)
  }

  lemma NextSkipsNoRemoval(known: seq<Frame>, s: State, s': State, x: ConnectionId, user: SteamId, c: ConversationId)
    requires Ready(s, s') && x in s.hub && s.hub[x] == user
    requires HearsRemovals(known, s, x, user, c)
    ensures HearsRemovals(known, s', x, user, c)
  {
    var step :| Enabled(s, step) && s' == Apply(s, step);
    StepSkipsNoRemoval(known, s, step, x, user, c);
    MembersStay(s, step, user, c);
  }

  ghost predicate Ready(s: State, s': State) { Inv(s) && ExceptNobody(s) && Next(s, s') }

  lemma ReadyAt(run: seq<State>, n: nat)
    requires Run(run) && 0 < n < |run|
    ensures Ready(run[n - 1], run[n])
  {
    ExceptNobodyAt(run, n - 1);
    NextAt(run, n);
  }

  lemma {:induction false} SinceRemovals(run: seq<State>, k: nat, n: nat, x: ConnectionId, user: SteamId, c: ConversationId)
    requires Run(run) && k <= n < |run| && RegisteredThroughout(run, k, n, x, user)
    requires c in run[k].members && user in run[k].members[c]
    ensures HearsRemovals(run[k].published, run[n], x, user, c)
    decreases n
  {
    if k < n {
      SinceRemovals(run, k, n - 1, x, user, c);
      assert x in run[n - 1].hub && run[n - 1].hub[x] == user;
      ReadyAt(run, n);
      NextSkipsNoRemoval(run[k].published, run[n - 1], run[n], x, user, c);
    }
  }

  /**
   * No removal passes a member by: of all removals published while the connection was registered and its
   * user a member, each has been handed to the connection, or a call is still about to.
   */
  lemma RemovalsReachMembers(run: seq<State>, k: nat, n: nat, x: ConnectionId, user: SteamId, c: ConversationId, id: MessageId)
    requires Run(run) && k <= n < |run| && RegisteredThroughout(run, k, n, x, user)
    requires c in run[k].members && user in run[k].members[c]
    requires Frame.Removed(c, id) in run[n].published && Frame.Removed(c, id) !in run[k].published
    ensures || (x in run[n].outbox && Frame.Removed(c, id) in run[n].outbox[x])
            || exists t :: t in run[n].threads && run[n].threads[t].FanningOut?
                           && run[n].threads[t].frame == Frame.Removed(c, id) && user in run[n].threads[t].todo
  {
    SinceRemovals(run, k, n, x, user, c);
    assert GotOrWill(run[n], Frame.Removed(c, id), x, user);
  }

  // ---------------------------------------------------------------- and nobody else

  /** A published frame is, and will only be, with the listed users. */
  ghost predicate OnlyFor(s: State, f: Frame, users: set<SteamId>) {
    && f in s.published
    && (forall t | t in s.threads && s.threads[t].FanningOut? && s.threads[t].frame == f :: s.threads[t].todo <= users)
    && (forall x | x in s.hub && x in s.outbox && f in s.outbox[x] :: s.hub[x] in users)
  }

  lemma StepKeepsTodo(s: State, step: Step, f: Frame, users: set<SteamId>, t: ThreadId)
    requires PhaseInv(s) && Enabled(s, step) && OnlyFor(s, f, users)
    requires t in Apply(s, step).threads && Apply(s, step).threads[t].FanningOut? && Apply(s, step).threads[t].frame == f
    ensures Apply(s, step).threads[t].todo <= users
  {
    if Mover(step) != Some(t) {
      ThreadWasThere(s, step, t);
      OthersStand(s, step, t);
    } else {
      assert PhaseOk(s, s.threads[t]);
    }
  }

  lemma StepKeepsHolders(s: State, step: Step, f: Frame, users: set<SteamId>, x: ConnectionId)
    requires Inv(s) && Enabled(s, step) && OnlyFor(s, f, users) && !f.Acked?
    requires x in Apply(s, step).hub && x in Apply(s, step).outbox && f in Apply(s, step).outbox[x]
    ensures Apply(s, step).hub[x] in users
  {
    if step.FanOut? {
      FanOutKeepsHolders(s, step.t, step.user, f, users, x);
    } else {
      OtherStepsKeepHolders(s, step, f, x);
    }
  }

  lemma FanOutKeepsHolders(s: State, t: ThreadId, user: SteamId, f: Frame, users: set<SteamId>, x: ConnectionId)
    requires Enabled(s, FanOut(t, user)) && OnlyFor(s, f, users)
    requires var s' := Apply(s, FanOut(t, user)); x in s'.hub && x in s'.outbox && f in s'.outbox[x]
    ensures Apply(s, FanOut(t, user)).hub[x] in users
  {
    var s' := Apply(s, FanOut(t, user));
    assert s'.outbox == HandedOut(s, s.threads[t].frame, user, s.threads[t].except) && s'.hub == s.hub;
  }

  lemma OtherStepsKeepHolders(s: State, step: Step, f: Frame, x: ConnectionId)
    requires PhaseInv(s) && Enabled(s, step) && !step.FanOut? && !f.Acked?
    requires x in Apply(s, step).hub && x in Apply(s, step).outbox && f in Apply(s, step).outbox[x]
    ensures x in s.hub && x in s.outbox && f in s.outbox[x] && Apply(s, step).hub[x] == s.hub[x]
  {
    if step.Ack? { assert PhaseOk(s, s.threads[step.t]); }
    OutboxChanges(s, step);
  }

  lemma PublishedStays(s: State, step: Step, f: Frame)
    requires Enabled(s, step) && f in s.published
    ensures f in Apply(s, step).published
  {}

  lemma NextKeepsOnlyFor(s: State, s': State, f: Frame, users: set<SteamId>)
    requires Inv(s) && Next(s, s') && OnlyFor(s, f, users) && !f.Acked?
    ensures OnlyFor(s', f, users)
  {
    var step :| Enabled(s, step) && s' == Apply(s, step);
    PublishedStays(s, step, f);
    forall t | t in s'.threads && s'.threads[t].FanningOut? && s'.threads[t].frame == f
      ensures s'.threads[t].todo <= users
    {
      StepKeepsTodo(s, step, f, users, t);
    }
    forall x | x in s'.hub && x in s'.outbox && f in s'.outbox[x]
      ensures s'.hub[x] in users
    {
      StepKeepsHolders(s, step, f, users, x);
    }
  }

  lemma {:induction false} OnlyForAt(run: seq<State>, k: nat, n: nat, f: Frame, users: set<SteamId>)
    requires Run(run) && k <= n < |run| && OnlyFor(run[k], f, users) && !f.Acked?
    ensures OnlyFor(run[n], f, users)
    decreases n
  {
    if k < n {
      OnlyForAt(run, k, n - 1, f, users);
      NextAt(run, n);
      NextKeepsOnlyFor(run[n - 1], run[n], f, users);
    }
  }

  lemma UnpublishedIsWithNobody(s: State, f: Frame)
    requires PhaseInv(s) && f !in s.published
    ensures forall t | t in s.threads :: !(s.threads[t].FanningOut? && s.threads[t].frame == f)
  {
    forall t | t in s.threads
      ensures !(s.threads[t].FanningOut? && s.threads[t].frame == f)
    {
      assert PhaseOk(s, s.threads[t]);
    }
  }

  ghost function MembersOf(s: State, c: ConversationId): (users: set<SteamId>)
    ensures forall u :: u in users <==> c in s.members && u in s.members[c]
  {
    if c in s.members then s.members[c] else {}
  }

  lemma OnlyThePublisherHands(s: State, step: Step, f: Frame)
    requires Inv(s) && Enabled(s, step) && f in Apply(s, step).published && f !in s.published && f.Removed?
    ensures forall t | t in Apply(s, step).threads && Apply(s, step).threads[t].FanningOut? && Apply(s, step).threads[t].frame == f ::
              Apply(s, step).threads[t].todo == MembersOf(s, f.conversation)
  {
    NewRemovalIsHanded(s, step, f);
    UnpublishedIsWithNobody(s, f);
    forall t | t in Apply(s, step).threads && Apply(s, step).threads[t].FanningOut? && Apply(s, step).threads[t].frame == f
      ensures Apply(s, step).threads[t].todo == MembersOf(s, f.conversation)
    {
      OnlyMoverHands(s, step, f, t);
    }
  }

  lemma OthersWere(s: State, step: Step, t: ThreadId)
    requires Enabled(s, step) && t in Apply(s, step).threads
    ensures Mover(step) != Some(t) ==> t in s.threads && Apply(s, step).threads[t] == s.threads[t]
  {
    if Mover(step) != Some(t) {
      ThreadWasThere(s, step, t);
      OthersStand(s, step, t);
    }
  }

  lemma OnlyMoverHands(s: State, step: Step, f: Frame, t: ThreadId)
    requires Enabled(s, step) && t in Apply(s, step).threads && Apply(s, step).threads[t].FanningOut? && Apply(s, step).threads[t].frame == f
    requires forall u | u in s.threads :: !(s.threads[u].FanningOut? && s.threads[u].frame == f)
    ensures Mover(step) == Some(t)
  {
    OthersWere(s, step, t);
  }

  /** When a removal is published, it is on its way to the members of that moment and with nobody yet. */
  lemma PublishedForMembers(s: State, s': State, f: Frame)
    requires Inv(s) && Next(s, s') && f in s'.published && f !in s.published && f.Removed?
    ensures OnlyFor(s', f, MembersOf(s, f.conversation))
  {
    var step :| Enabled(s, step) && s' == Apply(s, step);
    NewRemovalIsHanded(s, step, f);
    OnlyThePublisherHands(s, step, f);
  }

  /**
   * Exactly who hears of a removal: published between moments `p` and `p + 1`, and no call handing it on
   * any more at `n`, it has been handed to a connection registered all along if and only if the
   * connection's user was a member at `p`. Nobody is left out, not even the remover.
   */
  lemma RemovalHandedExactly(run: seq<State>, p: nat, n: nat, x: ConnectionId, user: SteamId, c: ConversationId, id: MessageId)
    requires Run(run) && p < n < |run| && RegisteredThroughout(run, p, n, x, user)
    requires Frame.Removed(c, id) !in run[p].published && Frame.Removed(c, id) in run[p + 1].published
    requires forall t | t in run[n].threads :: !(run[n].threads[t].FanningOut? && run[n].threads[t].frame == Frame.Removed(c, id))
    ensures x in run[n].outbox
    ensures Frame.Removed(c, id) in run[n].outbox[x] <==> c in run[p].members && user in run[p].members[c]
  {
    var f := Frame.Removed(c, id);
    var users := MembersOf(run[p], c);
    NextAt(run, p + 1);
    PublishedForMembers(run[p], run[p + 1], f);
    OnlyForAt(run, p + 1, n, f, users);
    InvAt(run, n);
    assert x in run[n].hub && run[n].hub[x] == user;
    if user in users { RemovalsReachMembers(run, p, n, x, user, c, id); }
  }
}
