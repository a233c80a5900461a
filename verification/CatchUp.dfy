/**
 * What one catch-up read answers for one conversation: everything after the cursor when that fits a
 * page, otherwise a reset to the newest page. The code asks for one row more than a page to find out.
 */
module CatchUp {
  import opened Common
  import opened MessageLog

  const DEFAULT_PAGE_SIZE: nat := 100
  const MAX_PAGE_SIZE: nat := 200

  /** How far behind the server's clock a sync places the deletion cursor it answers. */
  const DELETED_CURSOR_OVERLAP_MS: int := 30000

  function DeletedCursorAt(serverTime: int): int { Max(0, serverTime - DELETED_CURSOR_OVERLAP_MS) }

  function ClampLimit(requested: int): (limit: nat)
    ensures 1 <= limit <= 200
    ensures 0 < requested ==> limit <= requested && (limit == requested <==> requested <= 200)
    ensures requested <= 0 ==> limit == 100
  {
    if requested <= 0 then DEFAULT_PAGE_SIZE else Min(requested, MAX_PAGE_SIZE)
  }

  /** `reset`: replace what is cached; otherwise append. The page is oldest first. */
  datatype Synced = Synced(reset: bool, hasMoreBefore: bool, page: seq<MessageId>)

  function CursorOf(cursor: Option<MessageId>): MessageId {
    if cursor.Some? then cursor.value else 0
  }

  /** The answer read off a full scan of the table. */
  ghost function SyncOf(t: Table, c: ConversationId, cursor: Option<MessageId>, limit: nat): Synced {
    var found := LiveAfter(t, c, CursorOf(cursor));
    var more := |found| > limit;
    Synced(cursor.None? || more, more, Newest(found, limit))
  }

  /** One row more than a page is read, and the oldest dropped when it turns up. */
  lemma OneRowTooMany(found: set<MessageId>, limit: nat, rows: seq<MessageId>)
    requires IsNewest(found, limit + 1, rows)
    ensures |rows| > limit <==> |found| > limit
    ensures (if |rows| > limit then rows[|rows| - limit..] else rows) == Newest(found, limit)
  {
    if |rows| > limit {
      NewestDropsOldest(found, limit, rows);
      assert rows[|rows| - limit..] == rows[1..];
      NewestIsUnique(found, limit, rows[1..], Newest(found, limit));
    } else {
      NewestIsUnique(found, limit, rows, Newest(found, limit));
    }
  }

  /** A delta is exactly the live messages after the cursor, and comes when they fit a page. */
  lemma DeltaIsComplete(t: Table, c: ConversationId, cursor: Option<MessageId>, limit: nat)
    ensures var s := SyncOf(t, c, cursor, limit);
            && (!s.reset <==> cursor.Some? && |LiveAfter(t, c, cursor.value)| <= limit)
            && (!s.reset ==> Elements(s.page) == LiveAfter(t, c, cursor.value) && !s.hasMoreBefore)
    ensures var s := SyncOf(t, c, cursor, limit);
            && (cursor.None? ==> s.reset)
            && (!s.reset ==> forall id: MessageId ::
                  id in s.page <==> id in t && t[id].conversation == c && t[id].deletedAt.None? && cursor.value < id)
            && (s.reset && cursor.Some? ==>
                  && |s.page| == limit
                  && exists id :: id in t && t[id].conversation == c && t[id].deletedAt.None? && cursor.value < id && id !in s.page)
  {
    var s := SyncOf(t, c, cursor, limit);
    if !s.reset {
      NewestIsAll(LiveAfter(t, c, cursor.value), limit, s.page);
      assert forall id :: id in s.page <==> id in Elements(s.page);
    } else if cursor.Some? {
      SomeIsLeftOut(LiveAfter(t, c, cursor.value), s.page);
    }
  }

  lemma SomeIsLeftOut(found: set<MessageId>, page: seq<MessageId>)
    requires Increasing(page) && |found| > |page|
    ensures exists id :: id in found && id !in page
  {
    IncreasingElements(page);
    if forall id | id in found :: id in page { SubsetIsSmaller(found, Elements(page)); }
  }

  /**
   * A reset ends at the newest live message and is gapless from its first row on; more is announced
   * exactly when live messages precede that row after the cursor that was asked with.
   */
  lemma ResetIsNewestPage(t: Table, c: ConversationId, cursor: Option<MessageId>, limit: nat)
    requires 0 < limit && SyncOf(t, c, cursor, limit).reset
    ensures var s := SyncOf(t, c, cursor, limit);
            var found := LiveAfter(t, c, CursorOf(cursor));
            && IsNewest(found, limit, s.page)
            && (s.hasMoreBefore <==> exists id :: id in found && id !in s.page)
            && (forall id | id in found && s.page != [] && s.page[0] <= id :: id in s.page)
            && (s.page == [] ==> found == {})
    ensures var s := SyncOf(t, c, cursor, limit);
            var after := if cursor.Some? then cursor.value else 0;
            && Increasing(s.page) && |s.page| <= limit && (s.hasMoreBefore ==> |s.page| == limit)
            && (forall id | id in s.page :: id in t && t[id].conversation == c && t[id].deletedAt.None? && after < id)
            && (forall id | id in t && t[id].conversation == c && t[id].deletedAt.None? && after < id
                            && (s.page == [] || s.page[0] <= id) :: id in s.page)
            && (s.hasMoreBefore <==>
                  exists id :: id in t && t[id].conversation == c && t[id].deletedAt.None? && after < id && id !in s.page)
  {
    var s := SyncOf(t, c, cursor, limit);
    var found := LiveAfter(t, c, CursorOf(cursor));
    if !s.hasMoreBefore {
      NewestIsAll(found, limit, s.page);
    } else {
      IncreasingElements(s.page);
      assert found != Elements(s.page);
    }
    assert s.page != [] ==> s.page[0] in s.page;
  }

  /**
   * For a reset, "more before" means that a live message older than the page exists: on a first sync
   * there is no cursor, and on a page-sized gap the page starts after the cursor.
   */
  lemma ResetKnowsWhatIsOlder(t: Table, c: ConversationId, cursor: Option<MessageId>, limit: nat, nextId: MessageId)
    requires WellFormed(t, nextId) && 0 < limit && SyncOf(t, c, cursor, limit).reset
    ensures var s := SyncOf(t, c, cursor, limit);
            s.hasMoreBefore <==> s.page != [] && LiveBefore(t, c, s.page[0]) != {}
  {
    var s := SyncOf(t, c, cursor, limit);
    var found := LiveAfter(t, c, CursorOf(cursor));
    ResetIsNewestPage(t, c, cursor, limit);
    if s.hasMoreBefore {
      var id :| id in found && id !in s.page;
      assert s.page[0] in s.page;
      assert id in LiveBefore(t, c, s.page[0]);
    } else if s.page != [] {
      assert forall id | id in LiveBefore(t, c, s.page[0]) :: id in found;
      assert forall id | id in found :: id in s.page && s.page[0] <= id;
    }
  }
}
