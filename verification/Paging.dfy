/**
 * Scrolling a conversation back page by page, each page asked for with the first id of the one before.
 * `ts` are the tables as the successive requests find them; messages may come and go in between.
 */
module Paging {
  import opened Common
  import opened MessageLog

  /** What scrolling up from an id gets: at most `limit` ids right below it, and a flag for what is further below. */
  datatype Page = Page(ids: seq<MessageId>, hasMoreBefore: bool)

  ghost function PageOf(t: Table, c: ConversationId, before: MessageId, limit: nat): Page {
    var older := LiveBefore(t, c, before);
    Page(Newest(older, limit), |older| > limit)
  }

  /** All the pages put together, oldest first; the reader stops when no more is announced. */
  ghost function PagesFrom(ts: seq<Table>, c: ConversationId, before: MessageId, limit: nat): seq<MessageId>
    decreases |ts|
  {
    if ts == [] then []
    else
      var p := PageOf(ts[0], c, before, limit);
      if p.hasMoreBefore && p.ids != [] then PagesFrom(ts[1..], c, p.ids[0], limit) + p.ids else p.ids
  }

  /** The last of these requests announced nothing older. */
  ghost predicate Finishes(ts: seq<Table>, c: ConversationId, before: MessageId, limit: nat)
    decreases |ts|
  {
    ts != [] &&
    var p := PageOf(ts[0], c, before, limit);
    p.hasMoreBefore && p.ids != [] ==> Finishes(ts[1..], c, p.ids[0], limit)
  }

  lemma PageFacts(t: Table, c: ConversationId, before: MessageId, limit: nat)
    requires 0 < limit
    ensures var p := PageOf(t, c, before, limit);
            && Increasing(p.ids)
            && (forall id | id in p.ids :: Live(t, c, id) && id < before)
            && (p.hasMoreBefore ==> |p.ids| == limit)
            && (p.hasMoreBefore <==> exists id :: id in LiveBefore(t, c, before) && id !in p.ids)
            && (forall id: MessageId | Live(t, c, id) && id < before && (p.hasMoreBefore ==> p.ids[0] <= id) :: id in p.ids)
            && |p.ids| <= limit
    ensures var p := PageOf(t, c, before, limit);
            && (forall id | id in p.ids :: id in t && t[id].conversation == c && t[id].deletedAt.None? && id < before)
            && (forall id | id in t && t[id].conversation == c && t[id].deletedAt.None? && id < before
                            && (p.ids == [] || p.ids[0] <= id) :: id in p.ids)
            && (p.hasMoreBefore <==>
                  exists id :: id in t && t[id].conversation == c && t[id].deletedAt.None? && id < before && id !in p.ids)
  {
    var older := LiveBefore(t, c, before);
    var p := PageOf(t, c, before, limit);
    assert forall id | id in p.ids :: id in older;
    if p.hasMoreBefore {
      IncreasingElements(p.ids);
      assert older != Elements(p.ids);
      assert p.ids[0] in p.ids;
    } else {
      NewestIsAll(older, limit, p.ids);
    }
    assert forall id: MessageId | Live(t, c, id) && id < before :: id in older;
  }

  lemma TailIsHistory(ts: seq<Table>)
    requires History(ts) && ts != []
    ensures History(ts[1..])
    ensures |ts| > 1 ==> Evolves(ts[0], ts[1])
  {
    if |ts| > 1 { assert Evolves(ts[0], ts[0 + 1]); }
    forall i | 0 <= i < |ts[1..]| - 1
      ensures Evolves(ts[1..][i], ts[1..][i + 1])
    {
      assert Evolves(ts[i + 1], ts[i + 1 + 1]);
    }
  }

  /** The pages are in order and repeat nothing, whatever happens between them. */
  lemma {:induction false} PagesAscend(ts: seq<Table>, c: ConversationId, before: MessageId, limit: nat)
    requires 0 < limit
    ensures Increasing(PagesFrom(ts, c, before, limit))
    ensures forall id | id in PagesFrom(ts, c, before, limit) :: id < before && exists i :: 0 <= i < |ts| && Live(ts[i], c, id)
    decreases |ts|
  {
    if ts != [] {
      var p := PageOf(ts[0], c, before, limit);
      PageFacts(ts[0], c, before, limit);
      if p.hasMoreBefore {
        PagesAscend(ts[1..], c, p.ids[0], limit);
        var rest := PagesFrom(ts[1..], c, p.ids[0], limit);
        AppendAscends(rest, p.ids);
        forall id | id in rest
          ensures id < before && exists i :: 0 <= i < |ts| && Live(ts[i], c, id)
        {
          assert p.ids[0] in p.ids;
          var i :| 0 <= i < |ts[1..]| && Live(ts[1..][i], c, id);
          assert Live(ts[i + 1], c, id);
        }
      }
    }
  }

  lemma AppendAscends(a: seq<nat>, b: seq<nat>)
    requires Increasing(a) && Increasing(b) && b != [] && forall x | x in a :: x < b[0]
    ensures Increasing(a + b)
  {
    assert forall i | 0 <= i < |a| :: a[i] in a;
  }

  /** Nothing is skipped: a message there at the first request and still live at the last is on some page. */
  lemma {:induction false} PagesMissNothing(ts: seq<Table>, c: ConversationId, before: MessageId, limit: nat, id: MessageId)
    requires History(ts) && Finishes(ts, c, before, limit) && 0 < limit
    requires id in ts[0] && Live(ts[|ts| - 1], c, id) && id < before
    ensures id in PagesFrom(ts, c, before, limit)
    decreases |ts|
  {
    var p := PageOf(ts[0], c, before, limit);
    PageFacts(ts[0], c, before, limit);
    HistoryEvolves(ts, 0, |ts| - 1);
    assert SameMessage(ts[0][id], ts[|ts| - 1][id]);
    if p.hasMoreBefore && id < p.ids[0] {
      TailIsHistory(ts);
      PagesMissNothing(ts[1..], c, p.ids[0], limit, id);
    }
  }

  /** Between two requests the part of the log still to be read only shrinks. */
  lemma OlderShrinks(t: Table, u: Table, c: ConversationId, seen: MessageId)
    requires Evolves(t, u) && seen in t && t[seen].conversation == c
    ensures LiveBefore(u, c, seen) <= LiveBefore(t, c, seen)
  {
    forall id | id in LiveBefore(u, c, seen)
      ensures id in LiveBefore(t, c, seen)
    {
      if id in t { assert SameMessage(t[id], u[id]); }
    }
  }

  lemma PageShortensOlder(t: Table, c: ConversationId, before: MessageId, limit: nat)
    requires 0 < limit && PageOf(t, c, before, limit).hasMoreBefore
    ensures var p := PageOf(t, c, before, limit);
            p.ids != [] && |LiveBefore(t, c, p.ids[0])| < |LiveBefore(t, c, before)|
  {
    var p := PageOf(t, c, before, limit);
    PageFacts(t, c, before, limit);
    var rest, older := LiveBefore(t, c, p.ids[0]), LiveBefore(t, c, before);
    assert p.ids[0] in p.ids;
    assert p.ids[0] in older - rest;
    assert rest <= older;
    assert older == rest + (older - rest);
  }

  /** Scrolling back ends, after no more requests than there were older messages at the start. */
  lemma {:induction false} PagingTerminates(ts: seq<Table>, c: ConversationId, before: MessageId, limit: nat)
    requires History(ts) && 0 < limit && ts != [] && |LiveBefore(ts[0], c, before)| < |ts|
    ensures Finishes(ts, c, before, limit)
    decreases |ts|
  {
    var p := PageOf(ts[0], c, before, limit);
    if p.hasMoreBefore {
      PageFacts(ts[0], c, before, limit);
      PageShortensOlder(ts[0], c, before, limit);
      TailIsHistory(ts);
      assert p.ids[0] in p.ids;
      OlderShrinks(ts[0], ts[1], c, p.ids[0]);
      SubsetIsSmaller(LiveBefore(ts[1], c, p.ids[0]), LiveBefore(ts[0], c, p.ids[0]));
      PagingTerminates(ts[1..], c, p.ids[0], limit);
    }
  }

  lemma PagesListExactly(ts: seq<Table>, c: ConversationId, before: MessageId, limit: nat, id: MessageId)
    requires 0 < limit && Finishes(ts, c, before, limit) && forall i | 0 <= i < |ts| :: ts[i] == ts[0]
    ensures id in PagesFrom(ts, c, before, limit) <==> id in LiveBefore(ts[0], c, before)
  {
    PagesAscend(ts, c, before, limit);
    if id in LiveBefore(ts[0], c, before) {
      EvolvesIsReflexive(ts[0]);
      assert Live(ts[|ts| - 1], c, id);
      PagesMissNothing(ts, c, before, limit, id);
    }
  }

  lemma SameAsAscending(q: seq<nat>, s: set<nat>)
    requires Increasing(q) && forall x: nat :: x in q <==> x in s
    ensures q == Ascending(s)
  {
    assert Elements(q) == s == Elements(Ascending(s));
    AscendingIsUnique(q, Ascending(s));
  }

  /** While the log stands still, the pages are exactly the live messages older than the start, once each. */
  lemma PagesAreTheLog(ts: seq<Table>, c: ConversationId, before: MessageId, limit: nat)
    requires 0 < limit && Finishes(ts, c, before, limit) && forall i | 0 <= i < |ts| :: ts[i] == ts[0]
    ensures PagesFrom(ts, c, before, limit) == Ascending(LiveBefore(ts[0], c, before))
  {
    PagesAscend(ts, c, before, limit);
    forall id: nat
      ensures id in PagesFrom(ts, c, before, limit) <==> id in LiveBefore(ts[0], c, before)
    {
      PagesListExactly(ts, c, before, limit, id);
    }
    SameAsAscending(PagesFrom(ts, c, before, limit), LiveBefore(ts[0], c, before));
  }
}
