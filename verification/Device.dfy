/**
 * A device that keeps one conversation by the rules of the sync contract, against a log that changes
 * under it. The table grows and loses messages as `Evolves` allows; a deletion is stamped first and
 * becomes visible at most `delay` milliseconds later. The device's side is not in this repository: its
 * rules are the ones the request and response types document.
 */
module Device {
  import opened Common
  import opened MessageLog
  import opened CatchUp

  /**
   * What a device holds of the conversation. `low` and `high` bound the range its messages cover; it
   * does not store them. `deletedCursor` is the last response's.
   */
  datatype Cache = Cache(held: set<MessageId>, low: MessageId, high: MessageId, deletedCursor: Option<int>)

  /** A sync in flight: asked with a cursor and a deletion cursor, then the rows read, then the deletions. */
  datatype Sync =
    | NoSync
    | AskedSync(serverTime: int, cursor: Option<MessageId>, since: Option<int>, limit: nat)
    | ReadSync(serverTime: int, since: Option<int>, installed: Cache)

  datatype World = World(now: int, table: Table, stamped: map<MessageId, int>, cache: Cache, sync: Sync, syncedAt: Option<int>)

  function CursorFor(d: Cache): Option<MessageId> {
    if d.held == {} then None else Some(Maximum(d.held))
  }

  ghost predicate RowOf(t: Table, c: ConversationId, id: MessageId) {
    id in t && t[id].conversation == c
  }

  /** The newest id of the conversation, deleted or not; 0 when it has none. */
  ghost predicate IsTop(t: Table, c: ConversationId, high: MessageId) {
    && (high == 0 || RowOf(t, c, high))
    && forall id: MessageId | RowOf(t, c, id) :: id <= high
  }

  /** "delta": append the page. "reset": replace the range by the page, complete below when nothing is older. */
  function Install(d: Cache, s: Synced, high: MessageId): Cache {
    if s.reset
    then d.(held := Elements(s.page), low := if s.hasMoreBefore && s.page != [] then s.page[0] else 0, high := high)
    else d.(held := d.held + Elements(s.page), high := high)
  }

  /** Scrolling up: the page before the smallest id held goes in front. */
  function Prepend(d: Cache, page: seq<MessageId>, hasMoreBefore: bool): Cache {
    d.(held := d.held + Elements(page), low := if hasMoreBefore && page != [] then page[0] else 0)
  }

  datatype Step =
    | Tick(now: int)
    | Grow(table: Table)
    | StampDelete(id: MessageId)
    | LandDelete(id: MessageId)
    | Ask(limit: nat)
    | ReadRows(high: MessageId)
    | ReadDeleted
    | ScrollUp(limit: nat)
    | Drop(id: MessageId)

  ghost predicate Enabled(c: ConversationId, delay: int, w: World, step: Step) {
    match step
    case Tick(now) => w.now < now && forall id | id in w.stamped :: now - w.stamped[id] <= delay
    case Grow(table) => OnlyNewRows(w.table, table)
    case StampDelete(id) => id in w.table && w.table[id].deletedAt.None? && id !in w.stamped
    case LandDelete(id) => id in w.stamped && id in w.table
    case Ask(limit) => w.sync.NoSync? && 1 <= limit <= MAX_PAGE_SIZE
    case ReadRows(high) => w.sync.AskedSync? && IsTop(w.table, c, high)
    case ReadDeleted => w.sync.ReadSync?
    case ScrollUp(limit) => w.sync.NoSync? && w.cache.held != {} && 1 <= limit <= MAX_PAGE_SIZE
    case Drop(id) => id in w.table && w.table[id].deletedAt.Some?
  }

  ghost function Apply(c: ConversationId, delay: int, w: World, step: Step): World
    requires Enabled(c, delay, w, step)
  {
    match step
    case Tick(now) => w.(now := now)
    case Grow(table) => w.(table := table)
    case StampDelete(id) => w.(stamped := w.stamped[id := w.now])
    case LandDelete(id) => w.(table := MarkDeleted(w.table, id, w.stamped[id]), stamped := w.stamped - {id})
    case Ask(limit) => w.(sync := AskedSync(w.now, CursorFor(w.cache), w.cache.deletedCursor, limit))
    case ReadRows(high) =>
      var answer := SyncOf(w.table, c, w.sync.cursor, w.sync.limit);
      w.(sync := ReadSync(w.sync.serverTime, w.sync.since, Install(w.cache, answer, high)))
    case ReadDeleted =>
      var reported := if w.sync.since.Some? then DeletedAfter(w.table, {c}, w.sync.since.value) else {};
      var d := w.sync.installed;
      w.(cache := d.(held := d.held - reported, deletedCursor := Some(DeletedCursorAt(w.sync.serverTime))),
         sync := NoSync, syncedAt := Some(w.sync.serverTime))
    case ScrollUp(limit) =>
      var older := LiveBefore(w.table, c, Minimum(w.cache.held));
      w.(cache := Prepend(w.cache, Newest(older, limit), |older| > limit))
    case Drop(id) =>
      var sync := w.sync;
      w.(cache := w.cache.(held := w.cache.held - {id}),
         sync := if sync.ReadSync? then sync.(installed := sync.installed.(held := sync.installed.held - {id})) else sync)
  }

  ghost predicate Init(w: World) {
    w.table == map[] && w.stamped == map[] && w.cache == Cache({}, 0, 0, None) && w.sync == NoSync && w.syncedAt == None && 0 < w.now
  }

  ghost predicate Next(c: ConversationId, delay: int, w: World, w': World) {
    exists step :: Enabled(c, delay, w, step) && w' == Apply(c, delay, w, step)
  }

  ghost predicate Follows(c: ConversationId, delay: int, run: seq<World>, i: nat)
    requires 0 < i < |run|
  {
    Next(c, delay, run[i - 1], run[i])
  }

  ghost predicate Run(c: ConversationId, delay: int, run: seq<World>) {
    && 0 < |run| && Init(run[0])
    && forall i | 0 < i < |run| :: Follows(c, delay, run, i)
  }

  // ---------------------------------------------------------------- one contiguous range

  /** Everything held lies in the range, and everything live in the range is held. */
  ghost predicate Contiguous(t: Table, c: ConversationId, d: Cache) {
    && (d.high == 0 || RowOf(t, c, d.high))
    && (forall id | id in d.held :: RowOf(t, c, id) && d.low <= id <= d.high)
    && (forall id: MessageId | Live(t, c, id) && d.low <= id <= d.high :: id in d.held)
  }

  /** What a pending request may still install: its cursor is inside the range it was taken from. */
  ghost predicate CursorInRange(t: Table, c: ConversationId, d: Cache, cursor: Option<MessageId>) {
    && (cursor.Some? ==> 0 < cursor.value && d.low <= cursor.value <= d.high)
    && (cursor.Some? ==> forall id: MessageId | Live(t, c, id) && cursor.value < id :: id > d.high)
  }

  ghost predicate TableOk(w: World) {
    && (forall id | id in w.table :: 0 < id)
    && (forall id | id in w.stamped :: id in w.table && w.table[id].deletedAt.None?)
  }

  ghost predicate RangeInv(c: ConversationId, w: World) {
    && TableOk(w)
    && Contiguous(w.table, c, w.cache)
    && (w.sync.AskedSync? ==> CursorInRange(w.table, c, w.cache, w.sync.cursor) && 0 < w.sync.limit)
    && (w.sync.ReadSync? ==> Contiguous(w.table, c, w.sync.installed))
  }

  function AskedCursor(w: World): Option<MessageId> {
    if w.sync.AskedSync? then w.sync.cursor else None
  }

  lemma ResetKeepsRange(t: Table, c: ConversationId, d: Cache, found: set<MessageId>, after: MessageId, s: Synced, high: MessageId)
    requires s.reset && IsTop(t, c, high) && (forall id | id in t :: 0 < id)
    requires found == LiveAfter(t, c, after) && (forall id | id in s.page :: id in found) && Increasing(s.page)
    requires forall id | id in found && s.page != [] && s.page[0] <= id :: id in s.page
    requires s.hasMoreBefore ==> s.page != []
    requires !s.hasMoreBefore ==> after == 0 && forall id | id in found :: id in s.page
    ensures Contiguous(t, c, Install(d, s, high))
  {
    var d' := Install(d, s, high);
    forall id | id in d'.held
      ensures RowOf(t, c, id) && d'.low <= id <= d'.high
    {
      assert id in found;
      assert RowOf(t, c, id);
    }
    forall id: MessageId | Live(t, c, id) && d'.low <= id <= d'.high
      ensures id in d'.held
    {
      if s.hasMoreBefore { assert s.page[0] in s.page; }
      assert id in found;
    }
  }

  lemma DeltaKeepsRange(t: Table, c: ConversationId, d: Cache, after: MessageId, s: Synced, high: MessageId)
    requires Contiguous(t, c, d) && CursorInRange(t, c, d, Some(after)) && IsTop(t, c, high)
    requires !s.reset && Elements(s.page) == LiveAfter(t, c, after)
    ensures Contiguous(t, c, Install(d, s, high))
  {
    var d' := Install(d, s, high);
    forall id | id in d'.held
      ensures RowOf(t, c, id) && d'.low <= id <= d'.high
    {
      if id !in d.held { assert id in LiveAfter(t, c, after); }
      assert RowOf(t, c, id);
    }
    forall id: MessageId | Live(t, c, id) && d'.low <= id <= d'.high
      ensures id in d'.held
    {
      if after < id { assert id in LiveAfter(t, c, after); }
    }
  }

  lemma InstallKeepsRange(t: Table, c: ConversationId, d: Cache, cursor: Option<MessageId>, limit: nat, high: MessageId)
    requires Contiguous(t, c, d) && CursorInRange(t, c, d, cursor) && IsTop(t, c, high)
    requires 0 < limit && forall id | id in t :: 0 < id
    ensures Contiguous(t, c, Install(d, SyncOf(t, c, cursor, limit), high))
  {
    var s := SyncOf(t, c, cursor, limit);
    DeltaIsComplete(t, c, cursor, limit);
    if s.reset {
      ResetIsNewestPage(t, c, cursor, limit);
      ResetKeepsRange(t, c, d, LiveAfter(t, c, CursorOf(cursor)), CursorOf(cursor), s, high);
    } else {
      DeltaKeepsRange(t, c, d, cursor.value, s, high);
    }
  }

  lemma PrependKeepsRange(t: Table, c: ConversationId, d: Cache, oldest: MessageId, page: seq<MessageId>, more: bool)
    requires Contiguous(t, c, d) && oldest in d.held && (forall id | id in d.held :: oldest <= id)
    requires var older := LiveBefore(t, c, oldest);
             && Increasing(page) && (forall id | id in page :: id in older)
             && (if more then page != [] && forall id | id in older && page[0] <= id :: id in page else Elements(page) == older)
    ensures Contiguous(t, c, Prepend(d, page, more))
  {
    var d' := Prepend(d, page, more);
    forall id | id in d'.held
      ensures RowOf(t, c, id) && d'.low <= id <= d'.high
    {
      if id in page { assert id in LiveBefore(t, c, oldest); }
      if more { assert page[0] in page && page[0] in LiveBefore(t, c, oldest); }
      assert RowOf(t, c, id);
    }
    forall id: MessageId | Live(t, c, id) && d'.low <= id <= d'.high
      ensures id in d'.held
    {
      if id < oldest { assert id in LiveBefore(t, c, oldest); }
    }
  }

  lemma ScrollUpKeepsRange(t: Table, c: ConversationId, d: Cache, limit: nat)
    requires Contiguous(t, c, d) && d.held != {} && 0 < limit
    ensures var older := LiveBefore(t, c, Minimum(d.held));
            Contiguous(t, c, Prepend(d, Newest(older, limit), |older| > limit))
  {
    var oldest := Minimum(d.held);
    var older := LiveBefore(t, c, oldest);
    var page := Newest(older, limit);
    if |older| <= limit { NewestIsAll(older, limit, page); }
    if page != [] { assert page[0] in page; }
    PrependKeepsRange(t, c, d, oldest, page, |older| > limit);
  }

  lemma GrowKeepsRange(t: Table, u: Table, c: ConversationId, d: Cache, cursor: Option<MessageId>)
    requires Contiguous(t, c, d) && OnlyNewRows(t, u) && CursorInRange(t, c, d, cursor)
    ensures Contiguous(u, c, d) && CursorInRange(u, c, d, cursor)
  {
    forall id: MessageId | Live(u, c, id)
      ensures id in t ==> Live(t, c, id)
      ensures id !in t ==> d.high < id
    {
      if id !in t && d.high != 0 { assert RowOf(t, c, d.high); }
    }
    assert forall id | id in d.held :: RowOf(t, c, id);
  }

  lemma ShrinkKeepsRange(t: Table, u: Table, c: ConversationId, d: Cache, cursor: Option<MessageId>)
    requires Contiguous(t, c, d) && t.Keys == u.Keys && CursorInRange(t, c, d, cursor)
    requires forall id | id in t :: u[id].conversation == t[id].conversation && (u[id].deletedAt.None? ==> t[id].deletedAt.None?)
    ensures Contiguous(u, c, d) && CursorInRange(u, c, d, cursor)
  {
    assert forall id: MessageId | Live(u, c, id) :: Live(t, c, id);
    assert forall id | id in d.held :: RowOf(t, c, id);
  }

  lemma CursorIsInRange(t: Table, c: ConversationId, d: Cache)
    requires Contiguous(t, c, d) && forall id | id in t :: 0 < id
    ensures CursorInRange(t, c, d, CursorFor(d))
  {}

  lemma StepKeepsRange(c: ConversationId, delay: int, w: World, step: Step)
    requires RangeInv(c, w) && Enabled(c, delay, w, step)
    ensures RangeInv(c, Apply(c, delay, w, step))
  {
    var w' := Apply(c, delay, w, step);
    match step
    case Grow(u) =>
      GrowKeepsRange(w.table, u, c, w.cache, AskedCursor(w));
      if w.sync.ReadSync? { GrowKeepsRange(w.table, u, c, w.sync.installed, None); }
    case LandDelete(_) =>
      ShrinkKeepsRange(w.table, w'.table, c, w.cache, AskedCursor(w));
      if w.sync.ReadSync? { ShrinkKeepsRange(w.table, w'.table, c, w.sync.installed, None); }
    case Ask(_) => CursorIsInRange(w.table, c, w.cache);
    case ReadRows(high) =>
      InstallKeepsRange(w.table, c, w.cache, w.sync.cursor, w.sync.limit, high);
    case ScrollUp(limit) => ScrollUpKeepsRange(w.table, c, w.cache, limit);
    case _ =>
  }

  // ---------------------------------------------------------------- deletions

  /** When the deletion of a message was stamped, whether it is visible yet or not. */
  function DeletionStamp(w: World, id: MessageId): Option<int> {
    if id in w.table && w.table[id].deletedAt.Some? then w.table[id].deletedAt
    else if id in w.stamped then Some(w.stamped[id])
    else None
  }

  ghost predicate StampedAfter(w: World, held: set<MessageId>, bound: int) {
    forall id | id in held && DeletionStamp(w, id).Some? :: bound < DeletionStamp(w, id).value
  }

  ghost predicate ClockInv(delay: int, w: World) {
    0 < w.now && forall id | id in w.stamped :: 0 < w.stamped[id] <= w.now && w.now - w.stamped[id] <= delay
  }

  ghost predicate DeletionInv(w: World) {
    && w.cache.deletedCursor.Some? == w.syncedAt.Some?
    && (w.syncedAt.None? ==> w.cache.held == {})
    && (w.syncedAt.Some? ==>
          && w.syncedAt.value <= w.now
          && w.cache.deletedCursor.value == DeletedCursorAt(w.syncedAt.value)
          && StampedAfter(w, w.cache.held, w.cache.deletedCursor.value))
    && (!w.sync.NoSync? ==>
          && w.sync.serverTime <= w.now && w.sync.since == w.cache.deletedCursor
          && (w.syncedAt.Some? ==> w.syncedAt.value <= w.sync.serverTime))
    && (w.sync.AskedSync? && w.syncedAt.None? ==> w.sync.cursor.None?)
    && (w.sync.ReadSync? ==>
          StampedAfter(w, w.sync.installed.held,
                       if w.sync.since.Some? then w.sync.since.value else DeletedCursorAt(w.sync.serverTime)))
  }

  /**
   * After its last sync, answered at server time T, the device holds no message whose deletion was
   * stamped at or before T - 30,000 ms.
   */
  ghost predicate Safe(w: World) {
    w.syncedAt.Some? ==> StampedAfter(w, w.cache.held, w.syncedAt.value - 30000)
  }

  lemma StepKeepsClock(c: ConversationId, delay: int, w: World, step: Step)
    requires ClockInv(delay, w) && 0 <= delay && Enabled(c, delay, w, step)
    ensures ClockInv(delay, Apply(c, delay, w, step))
  {}

  /** Landing a deletion only makes its stamp visible; nothing else dates a deletion back. */
  lemma StampsStay(c: ConversationId, delay: int, w: World, step: Step, id: MessageId)
    requires TableOk(w) && Enabled(c, delay, w, step) && id in w.table
    ensures DeletionStamp(Apply(c, delay, w, step), id) ==
            if step.StampDelete? && step.id == id then Some(w.now) else DeletionStamp(w, id)
  {}

  /** A message that is live now can only be reported deleted with a stamp inside the overlap. */
  lemma LiveIsRecent(c: ConversationId, delay: int, w: World, held: set<MessageId>, serverTime: int)
    requires ClockInv(delay, w) && 0 <= delay < 30000 && serverTime <= w.now
    requires forall id | id in held :: id in w.table && w.table[id].deletedAt.None?
    ensures StampedAfter(w, held, DeletedCursorAt(serverTime))
  {}

  lemma StampedAfterBoth(w: World, a: set<MessageId>, b: set<MessageId>, low: int, high: int)
    requires StampedAfter(w, a, low) && StampedAfter(w, b, high) && low <= high
    ensures StampedAfter(w, a + b, low)
  {}

  lemma BoundSurvives(c: ConversationId, delay: int, w: World, step: Step, held: set<MessageId>, bound: int)
    requires TableOk(w) && Enabled(c, delay, w, step) && StampedAfter(w, held, bound) && bound < w.now
    requires forall id | id in held :: id in w.table
    ensures StampedAfter(Apply(c, delay, w, step), held, bound)
  {
    forall id | id in held
      ensures var s := DeletionStamp(Apply(c, delay, w, step), id); s.Some? ==> bound < s.value
    {
      StampsStay(c, delay, w, step, id);
    }
  }

  lemma PageIsLive(t: Table, c: ConversationId, s: set<MessageId>, n: nat, after: MessageId, before: MessageId)
    requires s == LiveAfter(t, c, after) || s == LiveBefore(t, c, before)
    ensures forall id | id in Elements(Newest(s, n)) :: id in t && t[id].deletedAt.None?
  {
    assert forall id | id in s :: Live(t, c, id);
  }

  lemma ReadRowsKeepsDeletions(c: ConversationId, delay: int, w: World, high: MessageId)
    requires ClockInv(delay, w) && DeletionInv(w) && 0 <= delay < 30000
    requires Enabled(c, delay, w, ReadRows(high))
    ensures DeletionInv(Apply(c, delay, w, ReadRows(high)))
  {
    var T, since := w.sync.serverTime, w.sync.since;
    var answer := SyncOf(w.table, c, w.sync.cursor, w.sync.limit);
    PageIsLive(w.table, c, LiveAfter(w.table, c, CursorOf(w.sync.cursor)), w.sync.limit, CursorOf(w.sync.cursor), 0);
    LiveIsRecent(c, delay, w, Elements(answer.page), T);
    InstalledAfter(w, w.cache, answer, high, if since.Some? then since.value else DeletedCursorAt(T), DeletedCursorAt(T));
    var installed := Install(w.cache, answer, high);
    SameStamps(w, w.(sync := ReadSync(T, since, installed)), installed.held,
               if since.Some? then since.value else DeletedCursorAt(T));
    if w.syncedAt.Some? {
      SameStamps(w, w.(sync := ReadSync(T, since, installed)), w.cache.held, w.cache.deletedCursor.value);
    }
  }

  lemma SameStamps(w: World, w': World, held: set<MessageId>, bound: int)
    requires w'.table == w.table && w'.stamped == w.stamped && StampedAfter(w, held, bound)
    ensures StampedAfter(w', held, bound)
  {
    assert forall id :: DeletionStamp(w', id) == DeletionStamp(w, id);
  }

  lemma InstalledAfter(w: World, d: Cache, s: Synced, high: MessageId, bound: int, pageBound: int)
    requires StampedAfter(w, Elements(s.page), pageBound) && bound <= pageBound
    requires s.reset || StampedAfter(w, d.held, bound)
    ensures StampedAfter(w, Install(d, s, high).held, bound)
  {
    if !s.reset { StampedAfterBoth(w, d.held, Elements(s.page), bound, pageBound); }
  }

  lemma ReadDeletedKeepsDeletions(c: ConversationId, delay: int, w: World)
    requires RangeInv(c, w) && ClockInv(delay, w) && DeletionInv(w) && 0 <= delay < 30000
    requires Enabled(c, delay, w, ReadDeleted)
    ensures DeletionInv(Apply(c, delay, w, ReadDeleted))
    ensures w.sync.since.Some? ==> forall id | id in Apply(c, delay, w, ReadDeleted).cache.held :: Live(w.table, c, id)
  {
    var w' := Apply(c, delay, w, ReadDeleted);
    var T, since := w.sync.serverTime, w.sync.since;
    assert forall id | id in w.sync.installed.held :: RowOf(w.table, c, id);
    if since.Some? {
      forall id | id in w'.cache.held
        ensures Live(w.table, c, id)
      {
        assert id !in DeletedAfter(w.table, {c}, since.value);
      }
      LiveIsRecent(c, delay, w, w'.cache.held, T);
    }
    assert StampedAfter(w, w'.cache.held, DeletedCursorAt(T));
    BoundSurvives(c, delay, w, ReadDeleted, w'.cache.held, DeletedCursorAt(T));
  }

  lemma ScrollUpKeepsDeletions(c: ConversationId, delay: int, w: World, limit: nat)
    requires ClockInv(delay, w) && DeletionInv(w) && 0 <= delay < 30000
    requires Enabled(c, delay, w, ScrollUp(limit))
    ensures DeletionInv(Apply(c, delay, w, ScrollUp(limit)))
  {
    var older := LiveBefore(w.table, c, Minimum(w.cache.held));
    PageIsLive(w.table, c, older, limit, 0, Minimum(w.cache.held));
    var page := Elements(Newest(older, limit));
    LiveIsRecent(c, delay, w, page, w.syncedAt.value);
    StampedAfterBoth(w, w.cache.held, page, w.cache.deletedCursor.value, w.cache.deletedCursor.value);
  }

  lemma OtherStepKeepsDeletions(c: ConversationId, delay: int, w: World, step: Step)
    requires RangeInv(c, w) && ClockInv(delay, w) && DeletionInv(w) && 0 <= delay < 30000
    requires Enabled(c, delay, w, step) && !step.ReadRows? && !step.ReadDeleted? && !step.ScrollUp?
    ensures DeletionInv(Apply(c, delay, w, step))
  {
    assert forall id | id in w.cache.held :: RowOf(w.table, c, id);
    if w.syncedAt.Some? { BoundSurvives(c, delay, w, step, w.cache.held, w.cache.deletedCursor.value); }
    if w.sync.ReadSync? {
      assert forall id | id in w.sync.installed.held :: RowOf(w.table, c, id);
      BoundSurvives(c, delay, w, step, w.sync.installed.held,
                    if w.sync.since.Some? then w.sync.since.value else DeletedCursorAt(w.sync.serverTime));
    }
  }

  lemma StepKeepsDeletions(c: ConversationId, delay: int, w: World, step: Step)
    requires RangeInv(c, w) && ClockInv(delay, w) && DeletionInv(w) && 0 <= delay < 30000
    requires Enabled(c, delay, w, step)
    ensures DeletionInv(Apply(c, delay, w, step))
  {
    if step.ReadRows? {
      ReadRowsKeepsDeletions(c, delay, w, step.high);
    } else if step.ReadDeleted? {
      ReadDeletedKeepsDeletions(c, delay, w);
    } else if step.ScrollUp? {
      ScrollUpKeepsDeletions(c, delay, w, step.limit);
    } else {
      OtherStepKeepsDeletions(c, delay, w, step);
    }
  }
}
