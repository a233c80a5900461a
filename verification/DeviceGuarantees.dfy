/** What a device holds in every run: one gapless range, and no message deleted too long ago. */
module DeviceGuarantees {
  import opened Common
  import opened MessageLog
  import opened CatchUp
  import opened Device

  lemma {:induction false} RangeAt(c: ConversationId, delay: int, run: seq<World>, i: nat)
    requires Run(c, delay, run) && i < |run|
    ensures RangeInv(c, run[i])
  {
    if i > 0 {
      RangeAt(c, delay, run, i - 1);
      assert Follows(c, delay, run, i);
      var step :| Enabled(c, delay, run[i - 1], step) && run[i] == Apply(c, delay, run[i - 1], step);
      StepKeepsRange(c, delay, run[i - 1], step);
    }
  }

  lemma {:induction false} DeletionsAt(c: ConversationId, delay: int, run: seq<World>, i: nat)
    requires Run(c, delay, run) && i < |run| && 0 <= delay < 30000
    ensures ClockInv(delay, run[i]) && DeletionInv(run[i])
  {
    if i > 0 {
      RangeAt(c, delay, run, i - 1);
      DeletionsAt(c, delay, run, i - 1);
      assert Follows(c, delay, run, i);
      var step :| Enabled(c, delay, run[i - 1], step) && run[i] == Apply(c, delay, run[i - 1], step);
      StepKeepsClock(c, delay, run[i - 1], step);
      StepKeepsDeletions(c, delay, run[i - 1], step);
    }
  }

  /**
   * At every moment of every run the live messages a device holds are exactly the live messages of one
   * contiguous range of ids, whose upper end is the newest id its last sync saw; so everything it lacks
   * above is found with its plain maximum as the cursor.
   */
  lemma HoldsOneRange(c: ConversationId, delay: int, run: seq<World>, i: nat)
    requires Run(c, delay, run) && i < |run|
    ensures var t, d := run[i].table, run[i].cache;
            && (forall id: MessageId | Live(t, c, id) :: id in d.held <==> d.low <= id <= d.high)
            && (forall id | id in d.held :: RowOf(t, c, id) && d.low <= id <= d.high)
            && (d.held != {} ==> LiveAfter(t, c, Maximum(d.held)) == LiveAfter(t, c, d.high))
  {
    RangeAt(c, delay, run, i);
    var t, d := run[i].table, run[i].cache;
    if d.held != {} {
      assert RowOf(t, c, Maximum(d.held)) && d.low <= Maximum(d.held) <= d.high;
      assert forall id | id in LiveAfter(t, c, Maximum(d.held)) :: Live(t, c, id);
    }
  }

  /** A sync that passed a deletion cursor leaves the device with exactly the live messages of its range. */
  lemma SyncLeavesExactlyLive(c: ConversationId, delay: int, run: seq<World>, i: nat)
    requires Run(c, delay, run) && i < |run| && 0 <= delay < 30000
    requires run[i].sync.ReadSync? && run[i].sync.since.Some?
    ensures var w := Apply(c, delay, run[i], ReadDeleted);
            forall id: MessageId :: id in w.cache.held <==> Live(w.table, c, id) && w.cache.low <= id <= w.cache.high
  {
    RangeAt(c, delay, run, i);
    DeletionsAt(c, delay, run, i);
    ReadDeletedKeepsDeletions(c, delay, run[i]);
    StepKeepsRange(c, delay, run[i], ReadDeleted);
  }

  // ---------------------------------------------------------------- how late a deletion may become visible

  /** No run with this much delay leaves a device with a message deleted 30,000 ms before its last sync. */
  ghost predicate OverlapSuffices(c: ConversationId, delay: int) {
    forall run, i: nat | Run(c, delay, run) && i < |run| :: Safe(run[i])
  }

  lemma Extend(c: ConversationId, delay: int, run: seq<World>, step: Step) returns (longer: seq<World>)
    requires Run(c, delay, run) && Enabled(c, delay, run[|run| - 1], step)
    ensures Run(c, delay, longer) && longer == run + [Apply(c, delay, run[|run| - 1], step)]
  {
    longer := run + [Apply(c, delay, run[|run| - 1], step)];
    forall i | 0 < i < |longer|
      ensures Follows(c, delay, longer, i)
    {
      if i < |run| { assert Follows(c, delay, run, i); }
    }
  }

  function OneRow(c: ConversationId, deletedAt: Option<int>): Table {
    map[1 := Row(c, 1, "c1", if deletedAt.Some? then "" else "hello", 1, deletedAt)]
  }

  lemma OneRowSyncs(c: ConversationId)
    ensures SyncOf(OneRow(c, None), c, None, 100) == Synced(true, false, [1])
  {
    var found := LiveAfter(OneRow(c, None), c, 0);
    assert found == {1};
    NewestIsUnique(found, 100, Newest(found, 100), [1]);
  }

  lemma DeletedRowSyncs(c: ConversationId)
    ensures SyncOf(OneRow(c, Some(1)), c, Some(1), 100) == Synced(false, false, [])
  {
    assert LiveAfter(OneRow(c, Some(1)), c, 1) == {};
  }

  /** Message 1 is stored, its deletion is stamped at 1, and the device asks at 30,001. */
  lemma BeforeFirstSync(c: ConversationId, delay: int) returns (run: seq<World>)
    requires 30000 <= delay
    ensures Run(c, delay, run)
    ensures run[|run| - 1] == World(30001, OneRow(c, None), map[1 := 1], Cache({}, 0, 0, None), AskedSync(30001, None, None, 100), None)
  {
    run := [World(1, map[], map[], Cache({}, 0, 0, None), NoSync, None)];
    run := Extend(c, delay, run, Grow(OneRow(c, None)));
    run := Extend(c, delay, run, StampDelete(1));
    run := Extend(c, delay, run, Tick(30001));
    run := Extend(c, delay, run, Ask(100));
  }

  /** The device synced first at 30,001 and holds message 1, whose deletion is not visible yet. */
  lemma FirstSync(c: ConversationId, delay: int) returns (run: seq<World>)
    requires 30000 <= delay
    ensures Run(c, delay, run)
    ensures run[|run| - 1] == World(30001, OneRow(c, None), map[1 := 1], Cache({1}, 0, 1, Some(1)), NoSync, Some(30001))
  {
    OneRowSyncs(c);
    run := BeforeFirstSync(c, delay);
    run := Extend(c, delay, run, ReadRows(1));
    assert Elements([1]) == {1};
    run := Extend(c, delay, run, ReadDeleted);
  }

  /** After a second sync, with the deletion long visible, the device still holds the message. */
  lemma SecondSync(c: ConversationId, delay: int, first: seq<World>) returns (run: seq<World>)
    requires Run(c, delay, first)
    requires first[|first| - 1] == World(30001, OneRow(c, None), map[1 := 1], Cache({1}, 0, 1, Some(1)), NoSync, Some(30001))
    ensures Run(c, delay, run) && var w := run[|run| - 1];
            && w.table == OneRow(c, Some(1)) && w.sync == NoSync && w.syncedAt == Some(60000)
            && w.cache.held == {1}
  {
    var held := Cache({1}, 0, 1, Some(1));
    run := Extend(c, delay, first, LandDelete(1));
    assert run[|run| - 1] == World(30001, OneRow(c, Some(1)), map[], held, NoSync, Some(30001));
    run := Extend(c, delay, run, Tick(60000));
    run := Extend(c, delay, run, Ask(100));
    assert run[|run| - 1] == World(60000, OneRow(c, Some(1)), map[], held, AskedSync(60000, Some(1), Some(1), 100), Some(30001));
    run := ReadNothing(c, delay, run);
  }

  lemma ReadNothing(c: ConversationId, delay: int, asked: seq<World>) returns (run: seq<World>)
    requires Run(c, delay, asked)
    requires asked[|asked| - 1] == World(60000, OneRow(c, Some(1)), map[], Cache({1}, 0, 1, Some(1)),
                                         AskedSync(60000, Some(1), Some(1), 100), Some(30001))
    ensures Run(c, delay, run) && var w := run[|run| - 1];
            && w.table == OneRow(c, Some(1)) && w.sync == NoSync && w.syncedAt == Some(60000)
            && w.cache.held == {1}
  {
    DeletedRowSyncs(c);
    run := Extend(c, delay, asked, ReadRows(1));
    assert Elements([]) == {};
    assert run[|run| - 1].sync.installed.held == {1};
    assert DeletedAfter(OneRow(c, Some(1)), {c}, 1) == {};
    run := Extend(c, delay, run, ReadDeleted);
  }

  /**
   * The overlap is enough exactly when every deletion becomes visible strictly less than 30,000 ms after
   * its stamp. At 30,000 ms a deletion stamped at the cursor itself is never reported.
   */
  lemma OverlapSufficesIff(c: ConversationId, delay: int)
    requires 0 <= delay
    ensures OverlapSuffices(c, delay) <==> delay < 30000
  {
    if delay < 30000 {
      forall run, i: nat | Run(c, delay, run) && i < |run|
        ensures Safe(run[i])
      {
        DeletionsAt(c, delay, run, i);
      }
    } else {
      var run := FirstSync(c, delay);
      run := SecondSync(c, delay, run);
      var w := run[|run| - 1];
      assert DeletionStamp(w, 1) == Some(1) && 1 in w.cache.held;
      assert !Safe(w);
    }
  }
}
