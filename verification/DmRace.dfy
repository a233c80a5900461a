/**
 * Get-or-create of a dm as interleaved steps of any number of calls. A call looks the pair up, and if it
 * is missing inserts a conversation and then its chat row in one transaction; the unique pair makes all
 * but one of these transactions fail, and a loser rolls back and looks again.
 */
module DmRace {
  import opened Common

  type CallId = nat

  /** The pair in canonical order, as the schema's CHECK (member_a < member_b) wants it. */
  datatype Pair = Pair(low: SteamId, high: SteamId)

  function Canonical(first: SteamId, second: SteamId): Pair {
    Pair(Min(first, second), Max(first, second))
  }

  datatype Phase =
    | Looking(pair: Pair)
    | Missing(pair: Pair)
    | ConversationInserted(pair: Pair, id: ConversationId)
    | ChatInserted(pair: Pair, id: ConversationId)
    | Committed(pair: Pair, id: ConversationId)
    | RolledBack(pair: Pair, conflict: bool)
    | Returned(pair: Pair, id: ConversationId, created: bool)
    | Threw(pair: Pair)

  /**
   * The committed dm conversations and chat rows; calls that have ended stay listed. `asked` is
   * bookkeeping for the proofs: the two users a call was made with.
   */
  datatype State = State(
    conversations: set<ConversationId>,
    chat: map<Pair, ConversationId>,
    nextId: ConversationId,
    calls: map<CallId, Phase>,
    asked: map<CallId, (SteamId, SteamId)>)

  datatype Step =
    | Call(t: CallId, first: SteamId, second: SteamId)
    | Find(t: CallId)
    | InsertConversation(t: CallId)
    | InsertChat(t: CallId)
    | Commit(t: CallId)
    | Return(t: CallId)
    | Fail(t: CallId)
    | FindAgain(t: CallId)

  /** A transaction that has inserted the pair and not ended makes any other insert of it wait. */
  ghost predicate Waits(s: State, t: CallId, pair: Pair) {
    exists u :: u in s.calls && u != t && s.calls[u].ChatInserted? && s.calls[u].pair == pair
  }

  ghost predicate Enabled(s: State, step: Step) {
    match step
    case Call(t, first, second) => t !in s.calls && first != second
    case Find(t) => t in s.calls && s.calls[t].Looking?
    case InsertConversation(t) => t in s.calls && s.calls[t].Missing?
    case InsertChat(t) => t in s.calls && s.calls[t].ConversationInserted? && !Waits(s, t, s.calls[t].pair)
    case Commit(t) => t in s.calls && s.calls[t].ChatInserted?
    case Return(t) => t in s.calls && s.calls[t].Committed?
    case Fail(t) => t in s.calls && (s.calls[t].Missing? || s.calls[t].ConversationInserted? || s.calls[t].ChatInserted?)
    case FindAgain(t) => t in s.calls && s.calls[t].RolledBack?
  }

  function Found(s: State, pair: Pair, otherwise: Phase): Phase {
    if pair in s.chat then Returned(pair, s.chat[pair], false) else otherwise
  }

  /** Where a step takes the call that makes it. */
  ghost function NextPhase(s: State, step: Step): Phase
    requires Enabled(s, step)
  {
    match step
    case Call(t, first, second) => Looking(Canonical(first, second))
    case Find(t) => Found(s, s.calls[t].pair, Missing(s.calls[t].pair))
    case InsertConversation(t) => ConversationInserted(s.calls[t].pair, s.nextId)
    case InsertChat(t) =>
      if s.calls[t].pair in s.chat then RolledBack(s.calls[t].pair, true) else ChatInserted(s.calls[t].pair, s.calls[t].id)
    case Commit(t) => Committed(s.calls[t].pair, s.calls[t].id)
    case Return(t) => Returned(s.calls[t].pair, s.calls[t].id, true)
    case Fail(t) => RolledBack(s.calls[t].pair, false)
    case FindAgain(t) => Found(s, s.calls[t].pair, Threw(s.calls[t].pair))
  }

  /** Only a commit makes rows visible; an id once taken from the sequence never comes back. */
  ghost function Apply(s: State, step: Step): State
    requires Enabled(s, step)
  {
    var calls := s.calls[step.t := NextPhase(s, step)];
    if step.Commit? then
      s.(conversations := s.conversations + {s.calls[step.t].id}, chat := s.chat[s.calls[step.t].pair := s.calls[step.t].id],
         calls := calls)
    else
      s.(nextId := if step.InsertConversation? then s.nextId + 1 else s.nextId, calls := calls,
         asked := if step.Call? then s.asked[step.t := (step.first, step.second)] else s.asked)
  }

  ghost predicate Init(s: State) { s.conversations == {} && s.chat == map[] && s.calls == map[] && s.asked == map[] }

  ghost predicate Follows(run: seq<State>, i: nat)
    requires 0 < i < |run|
  {
    Next(run[i - 1], run[i])
  }

  ghost predicate Run(run: seq<State>) {
    && 0 < |run| && Init(run[0])
    && forall i | 0 < i < |run| :: Follows(run, i)
  }

  ghost predicate Next(s: State, s': State) {
    exists step :: Enabled(s, step) && s' == Apply(s, step)
  }

  // ---------------------------------------------------------------- invariant

  ghost predicate CallOk(s: State, p: Phase) {
    && p.pair.low < p.pair.high
    && match p
       case ConversationInserted(_, id) => id < s.nextId && id !in s.conversations
       case ChatInserted(pair, id) => id < s.nextId && id !in s.conversations && pair !in s.chat
       case RolledBack(pair, conflict) => conflict ==> pair in s.chat
       case Committed(pair, id) => pair in s.chat && s.chat[pair] == id
       case Returned(pair, id, _) => pair in s.chat && s.chat[pair] == id
       case _ => true
  }

  predicate Holds(p: Phase) { p.ConversationInserted? || p.ChatInserted? }

  /** The call has created the dm, and has reported so or is about to. */
  ghost predicate Created(s: State, t: CallId, pair: Pair) {
    t in s.calls && (s.calls[t].Committed? || (s.calls[t].Returned? && s.calls[t].created)) && s.calls[t].pair == pair
  }

  ghost predicate CallsOk(s: State) {
    forall t | t in s.calls :: CallOk(s, s.calls[t])
  }

  /** No two transactions hold the same new conversation, and at most one has inserted a given pair. */
  ghost predicate Apart(s: State) {
    forall t, u | t in s.calls && u in s.calls && t != u && Holds(s.calls[t]) && Holds(s.calls[u]) ::
      && s.calls[t].id != s.calls[u].id
      && (s.calls[t].ChatInserted? && s.calls[u].ChatInserted? ==> s.calls[t].pair != s.calls[u].pair)
  }

  ghost predicate OneCreator(s: State) {
    && (forall p | p in s.chat :: exists t :: Created(s, t, p))
    && (forall t, u, p | Created(s, t, p) && Created(s, u, p) :: t == u)
  }

  ghost predicate HasChat(s: State, id: ConversationId) { exists p :: p in s.chat && s.chat[p] == id }

  ghost predicate RowsMatch(s: State) {
    && (forall id | id in s.conversations :: id < s.nextId && HasChat(s, id))
    && (forall p | p in s.chat :: s.chat[p] in s.conversations)
    && (forall p, q | p in s.chat && q in s.chat && s.chat[p] == s.chat[q] :: p == q)
  }

  ghost predicate Inv(s: State) { CallsOk(s) && Apart(s) && OneCreator(s) && RowsMatch(s) }

  lemma NextPhaseOk(s: State, step: Step)
    requires Inv(s) && Enabled(s, step)
    ensures CallOk(Apply(s, step), NextPhase(s, step))
  {
    if step.t in s.calls { assert CallOk(s, s.calls[step.t]); }
  }

  lemma OtherStaysOk(s: State, step: Step, u: CallId)
    requires Inv(s) && Enabled(s, step) && u in s.calls && u != step.t
    ensures CallOk(Apply(s, step), s.calls[u])
  {
    assert CallOk(s, s.calls[u]);
    if step.Commit? { assert CallOk(s, s.calls[step.t]); }
  }

  lemma StepKeepsCalls(s: State, step: Step)
    requires Inv(s) && Enabled(s, step)
    ensures CallsOk(Apply(s, step))
  {
    var s' := Apply(s, step);
    forall u | u in s'.calls
      ensures CallOk(s', s'.calls[u])
    {
      if u == step.t { NextPhaseOk(s, step); } else { OtherStaysOk(s, step, u); }
    }
  }

  lemma StepKeepsApart(s: State, step: Step)
    requires Inv(s) && Enabled(s, step)
    ensures Apart(Apply(s, step))
  {
    var p := NextPhase(s, step);
    forall u | u in s.calls && u != step.t && Holds(s.calls[u]) && Holds(p)
      ensures p.id != s.calls[u].id && (p.ChatInserted? && s.calls[u].ChatInserted? ==> p.pair != s.calls[u].pair)
    {
      assert CallOk(s, s.calls[u]);
    }
  }

  lemma CreatorIsKept(s: State, step: Step, t: CallId, p: Pair)
    requires Enabled(s, step) && Created(s, t, p)
    ensures Created(Apply(s, step), t, p)
  {}

  /** A call becomes a creator by its commit only, and of a pair that had none. */
  lemma CreatorWasOne(s: State, step: Step, t: CallId, p: Pair)
    requires Inv(s) && Enabled(s, step) && Created(Apply(s, step), t, p)
    ensures Created(s, t, p) || (step == Commit(t) && p == s.calls[t].pair && p !in s.chat)
  {
    if step.t in s.calls { assert CallOk(s, s.calls[step.t]); }
  }

  lemma CreatorHasChat(s: State, t: CallId, p: Pair)
    requires CallsOk(s) && Created(s, t, p)
    ensures p in s.chat
  {
    assert CallOk(s, s.calls[t]);
  }

  lemma StepKeepsCreator(s: State, step: Step)
    requires Inv(s) && Enabled(s, step)
    ensures OneCreator(Apply(s, step))
  {
    var s' := Apply(s, step);
    forall p | p in s'.chat
      ensures exists t :: Created(s', t, p)
    {
      if p in s.chat {
        var t :| Created(s, t, p);
        CreatorIsKept(s, step, t, p);
      } else {
        assert Created(s', step.t, p);
      }
    }
    forall t, u, p | Created(s', t, p) && Created(s', u, p)
      ensures t == u
    {
      CreatorWasOne(s, step, t, p);
      CreatorWasOne(s, step, u, p);
      if Created(s, t, p) { CreatorHasChat(s, t, p); }
      if Created(s, u, p) { CreatorHasChat(s, u, p); }
    }
  }

  lemma StepKeepsRows(s: State, step: Step)
    requires Inv(s) && Enabled(s, step)
    ensures RowsMatch(Apply(s, step))
  {
    var s' := Apply(s, step);
    if step.Commit? { assert CallOk(s, s.calls[step.t]); }
    forall id | id in s'.conversations
      ensures HasChat(s', id)
    {
      if id in s.conversations {
        assert HasChat(s, id);
        var p :| p in s.chat && s.chat[p] == id;
        assert p in s'.chat && s'.chat[p] == id;
      } else {
        assert s'.chat[s.calls[step.t].pair] == id;
      }
    }
  }

  lemma NextKeeps(s: State, s': State)
    requires Inv(s) && Next(s, s')
    ensures Inv(s')
  {
    var step :| Enabled(s, step) && s' == Apply(s, step);
    StepKeepsCalls(s, step);
    StepKeepsApart(s, step);
    StepKeepsCreator(s, step);
    StepKeepsRows(s, step);
  }

  lemma {:induction false} InvAt(run: seq<State>, i: nat)
    requires Run(run) && i < |run|
    ensures Inv(run[i])
  {
    if i > 0 {
      InvAt(run, i - 1);
      assert Follows(run, i);
      NextKeeps(run[i - 1], run[i]);
    }
  }

  lemma NextKeepsPair(s: State, s': State, pair: Pair)
    requires Inv(s) && Next(s, s') && pair in s.chat
    ensures pair in s'.chat && s'.chat[pair] == s.chat[pair]
  {
    var step :| Enabled(s, step) && s' == Apply(s, step);
    if step.Commit? { assert CallOk(s, s.calls[step.t]); }
  }

  /** A committed pair never changes its conversation. */
  lemma {:induction false} PairKeepsConversation(run: seq<State>, i: nat, j: nat, pair: Pair)
    requires Run(run) && i <= j < |run| && pair in run[i].chat
    ensures pair in run[j].chat && run[j].chat[pair] == run[i].chat[pair]
    decreases j
  {
    if i < j {
      PairKeepsConversation(run, i, j - 1, pair);
      InvAt(run, j - 1);
      assert Follows(run, j);
      NextKeepsPair(run[j - 1], run[j], pair);
    }
  }

  // ---------------------------------------------------------------- whom a call is for

  /** A call goes on with the two users it was made with, whichever was named first. */
  ghost predicate GoesOnAsAsked(s: State) {
    forall t | t in s.calls ::
      && t in s.asked && s.asked[t].0 != s.asked[t].1
      && ((s.calls[t].pair.low == s.asked[t].0 && s.calls[t].pair.high == s.asked[t].1)
          || (s.calls[t].pair.low == s.asked[t].1 && s.calls[t].pair.high == s.asked[t].0))
  }

  lemma {:induction false} AskedAt(run: seq<State>, i: nat)
    requires Run(run) && i < |run|
    ensures GoesOnAsAsked(run[i])
  {
    if i > 0 {
      AskedAt(run, i - 1);
      assert Follows(run, i);
      var step :| Enabled(run[i - 1], step) && run[i] == Apply(run[i - 1], step);
    }
  }

  ghost predicate SameTwo(p: (SteamId, SteamId), q: (SteamId, SteamId)) {
    (p.0 == q.0 && p.1 == q.1) || (p.0 == q.1 && p.1 == q.0)
  }

  lemma SameTwoSamePair(s: State, t: CallId, s': State, u: CallId)
    requires CallsOk(s) && CallsOk(s') && GoesOnAsAsked(s) && GoesOnAsAsked(s') && t in s.calls && u in s'.calls
    ensures s.calls[t].pair == s'.calls[u].pair <==> SameTwo(s.asked[t], s'.asked[u])
  {
    assert CallOk(s, s.calls[t]) && CallOk(s', s'.calls[u]);
  }

  /**
   * Any two calls that return, in whatever order and at whatever moment, return one conversation if they
   * were made for the same two users, in either order, and different ones if not.
   */
  lemma ReturnsAgree(run: seq<State>, i: nat, j: nat, t: CallId, u: CallId)
    requires Run(run) && i <= j < |run| && t in run[i].calls && u in run[j].calls
    requires run[i].calls[t].Returned? && run[j].calls[u].Returned?
    ensures t in run[i].asked && u in run[j].asked
    ensures run[i].calls[t].id == run[j].calls[u].id <==> SameTwo(run[i].asked[t], run[j].asked[u])
  {
    InvAt(run, i);
    InvAt(run, j);
    AskedAt(run, i);
    AskedAt(run, j);
    assert CallOk(run[i], run[i].calls[t]) && CallOk(run[j], run[j].calls[u]);
    PairKeepsConversation(run, i, j, run[i].calls[t].pair);
    SameTwoSamePair(run[i], t, run[j], u);
  }

  /** The two users of a call never change. */
  lemma {:induction false} AskedStays(run: seq<State>, i: nat, j: nat, t: CallId)
    requires Run(run) && i <= j < |run| && t in run[i].calls
    ensures t in run[j].calls && run[j].asked.Keys == run[j].calls.Keys && run[i].asked.Keys == run[i].calls.Keys
    ensures run[j].asked[t] == run[i].asked[t]
    decreases j
  {
    KeysAt(run, i);
    KeysAt(run, j);
    if i < j {
      AskedStays(run, i, j - 1, t);
      assert Follows(run, j);
      var step :| Enabled(run[j - 1], step) && run[j] == Apply(run[j - 1], step);
    }
  }

  lemma {:induction false} KeysAt(run: seq<State>, i: nat)
    requires Run(run) && i < |run|
    ensures run[i].asked.Keys == run[i].calls.Keys
  {
    if i > 0 {
      KeysAt(run, i - 1);
      assert Follows(run, i);
      var step :| Enabled(run[i - 1], step) && run[i] == Apply(run[i - 1], step);
    }
  }

  /**
   * As soon as some call has returned, exactly one call of that pair has created the dm. It is the only one
   * that ever reports so; it may still be on its way back while others return already.
   */
  lemma ExactlyOneCreates(run: seq<State>, i: nat, t: CallId)
    requires Run(run) && i < |run| && t in run[i].calls && run[i].calls[t].Returned?
    ensures exists c :: Created(run[i], c, run[i].calls[t].pair) &&
                        forall u | Created(run[i], u, run[i].calls[t].pair) :: u == c
  {
    InvAt(run, i);
    assert CallOk(run[i], run[i].calls[t]);
  }

  lemma NextKeepsCreator(s: State, s': State, c: CallId, pair: Pair)
    requires Inv(s) && Next(s, s') && Created(s, c, pair)
    ensures Created(s', c, pair)
  {
    var step :| Enabled(s, step) && s' == Apply(s, step);
    CreatorIsKept(s, step, c, pair);
  }

  /** Whoever has created the dm stays its creator: no second call ever reports it as created. */
  lemma {:induction false} CreatorStays(run: seq<State>, i: nat, j: nat, c: CallId, pair: Pair)
    requires Run(run) && i <= j < |run| && Created(run[i], c, pair)
    ensures Created(run[j], c, pair) && forall u | Created(run[j], u, pair) :: u == c
    decreases j
  {
    InvAt(run, j);
    if i < j {
      CreatorStays(run, i, j - 1, c, pair);
      InvAt(run, j - 1);
      assert Follows(run, j);
      NextKeepsCreator(run[j - 1], run[j], c, pair);
    }
  }

  /** Losers leave nothing behind: the committed dm conversations are exactly those with a chat row, one per pair. */
  lemma NoConversationWithoutChat(run: seq<State>, i: nat)
    requires Run(run) && i < |run|
    ensures forall id :: id in run[i].conversations <==> HasChat(run[i], id)
    ensures forall p, q | p in run[i].chat && q in run[i].chat && run[i].chat[p] == run[i].chat[q] :: p == q
  {
    InvAt(run, i);
  }

  /** A call that lost the race to insert its pair never throws: looking again, it finds the winner's conversation. */
  lemma LoserFindsTheWinner(run: seq<State>, i: nat, t: CallId)
    requires Run(run) && i < |run| && t in run[i].calls && run[i].calls[t].RolledBack? && run[i].calls[t].conflict
    ensures Enabled(run[i], FindAgain(t))
    ensures var p := run[i].calls[t].pair;
            p in run[i].chat && Apply(run[i], FindAgain(t)).calls[t] == Returned(p, run[i].chat[p], false)
  {
    InvAt(run, i);
    assert CallOk(run[i], run[i].calls[t]);
  }

  /** The order of the two arguments does not matter. */
  lemma CanonicalIsSymmetric(a: SteamId, b: SteamId)
    ensures Canonical(a, b) == Canonical(b, a)
    ensures a != b ==> Canonical(a, b).low < Canonical(a, b).high
    ensures {Canonical(a, b).low, Canonical(a, b).high} == {a, b}
  {}
}
