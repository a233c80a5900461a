/**
 * One connection's outbound path: the bounded queue that every sender pushes to, and the single writer
 * that empties it onto the socket.
 */
module FrameQueueing {
  import opened Common

  datatype Entry = Entry(pong: bool, data: string)

  datatype PushResult = Accepted | Overflowed | Closed

  datatype Item = Frame(data: string) | Pong(data: string) | Overflow | EndOfQueue

  datatype Limits = Limits(frames: nat, bytes: nat)

  /** The queue's fields as a value. */
  datatype Queue = Queue(entries: seq<Entry>, bytes: nat, overflowed: bool, closed: bool)

  function SumSizes(q: seq<Entry>): (n: nat) {
    if q == [] then 0 else SumSizes(q[..|q| - 1]) + |q[|q| - 1].data|
  }

  lemma {:induction false} SumSizesHead(q: seq<Entry>)
    requires q != []
    ensures SumSizes(q) == |q[0].data| + SumSizes(q[1..])
  {
    if |q| > 1 {
      SumSizesHead(q[..|q| - 1]);
      assert q[..|q| - 1][1..] == q[1..][..|q| - 2];
    }
  }

  lemma SumSizesAppend(q: seq<Entry>, e: Entry)
    ensures SumSizes(q + [e]) == SumSizes(q) + |e.data|
  {
    assert (q + [e])[..|q|] == q;
  }

  /** Open, or emptied for good by an overflow or by closing. */
  ghost predicate Ok(q: Queue, m: Limits) {
    && q.bytes == SumSizes(q.entries)
    && |q.entries| <= m.frames && q.bytes <= m.bytes
    && (q.overflowed || q.closed ==> q.entries == [])
  }

  predicate Open(q: Queue) { !q.overflowed && !q.closed }

  predicate Fits(q: Queue, m: Limits, e: Entry) {
    |q.entries| + 1 <= m.frames && q.bytes + |e.data| <= m.bytes
  }

  function PushOn(q: Queue, m: Limits, e: Entry): Queue {
    if !Open(q) then q
    else if Fits(q, m, e) then q.(entries := q.entries + [e], bytes := q.bytes + |e.data|)
    else q.(entries := [], bytes := 0, overflowed := true)
  }

  /** The condition a popping writer waits for. */
  predicate CanPop(q: Queue) { q.closed || q.overflowed || q.entries != [] }

  function PopFrom(q: Queue): Queue
    requires CanPop(q) && q.bytes == SumSizes(q.entries)
  {
    if !Open(q) then q
    else
      SumSizesHead(q.entries);
      q.(entries := q.entries[1..], bytes := q.bytes - |q.entries[0].data|)
  }

  function CloseOn(q: Queue): Queue { q.(entries := [], bytes := 0, closed := true) }

  class BoundedFrameQueue {
    const limits: Limits
    var entries: seq<Entry>
    var bytes: nat
    var overflowed: bool
    var closed: bool

    ghost function State(): Queue
      reads this
    {
      Queue(entries, bytes, overflowed, closed)
    }

    ghost predicate Valid()
      reads this
    {
      Ok(State(), limits)
    }

    constructor (maxFrames: nat, maxBytes: nat)
      ensures Valid() && limits == Limits(maxFrames, maxBytes) && State() == Queue([], 0, false, false)
    {
      limits := Limits(maxFrames, maxBytes);
      entries, bytes, overflowed, closed := [], 0, false, false;
    }

    method Push(frame: string) returns (r: PushResult)
      requires Valid()
      modifies this
      ensures Valid() && State() == PushOn(old(State()), limits, Entry(false, frame))
      ensures r == Accepted <==>
                !old(closed) && !old(overflowed) && |old(entries)| + 1 <= limits.frames && old(bytes) + |frame| <= limits.bytes
      ensures r == Closed <==> old(closed)
      ensures r == Accepted ==> entries == old(entries) + [Entry(false, frame)]
    {
      r := Enqueue(Entry(false, frame));
    }

    method PushPong(payload: string) returns (r: PushResult)
      requires Valid()
      modifies this
      ensures Valid() && State() == PushOn(old(State()), limits, Entry(true, payload))
      ensures r == Accepted <==>
                !old(closed) && !old(overflowed) && |old(entries)| + 1 <= limits.frames && old(bytes) + |payload| <= limits.bytes
      ensures r == Closed <==> old(closed)
      ensures r == Accepted ==> entries == old(entries) + [Entry(true, payload)]
    {
      r := Enqueue(Entry(true, payload));
    }

    method Enqueue(e: Entry) returns (r: PushResult)
      requires Valid()
      modifies this
      ensures Valid() && State() == PushOn(old(State()), limits, e)
      ensures r == Accepted <==>
                !old(closed) && !old(overflowed) && |old(entries)| + 1 <= limits.frames && old(bytes) + |e.data| <= limits.bytes
      ensures r == Closed <==> old(closed)
      ensures r == Accepted ==> entries == old(entries) + [e] && bytes == old(bytes) + |e.data| && !overflowed && !closed
      ensures r == Overflowed ==> entries == [] && bytes == 0 && overflowed && !closed
      ensures r == Closed ==> State() == old(State())
    {
      if closed {
        return Closed;
      }
      if overflowed {
        return Overflowed;
      }
      if |entries| + 1 > limits.frames || bytes + |e.data| > limits.bytes {
        overflowed, entries, bytes := true, [], 0;
        return Overflowed;
      }
      SumSizesAppend(entries, e);
      bytes, entries := bytes + |e.data|, entries + [e];
      return Accepted;
    }

    method Pop() returns (item: Item)
      requires Valid() && (closed || overflowed || entries != [])
      modifies this
      ensures Valid() && State() == PopFrom(old(State()))
      ensures entries == if old(closed) || old(overflowed) then [] else old(entries)[1..]
      ensures closed == old(closed) && overflowed == old(overflowed)
      ensures item == (if old(closed) then EndOfQueue else if old(overflowed) then Overflow
                       else if old(entries)[0].pong then Pong(old(entries)[0].data) else Frame(old(entries)[0].data))
    {
      if closed {
        return EndOfQueue;
      }
      if overflowed {
        return Overflow;
      }
      SumSizesHead(entries);
      var head := entries[0];
      entries, bytes := entries[1..], bytes - |head.data|;
      return if head.pong then Pong(head.data) else Frame(head.data);
    }

    method Close()
      requires Valid()
      modifies this
      ensures Valid() && State() == CloseOn(old(State()))
      ensures closed && entries == [] && bytes == 0 && overflowed == old(overflowed)
    {
      closed, entries, bytes := true, [], 0;
    }
  }

  // ---------------------------------------------------------------- senders, closer and writer interleaved

  datatype Writer = Running | Stopped

  /**
   * The queue together with what happened to it: every entry ever pushed, how many of them were
   * accepted, what the writer put on the socket, and how often it sent the "slow consumer" close.
   */
  datatype Path = Path(queue: Queue, offered: seq<Entry>, accepted: nat, writer: Writer, socket: seq<Entry>, closes: nat)

  /** A write may throw when the peer is gone, with or without the entry having reached it. */
  datatype Action = Offer(e: Entry) | Shut | Write(throws: bool, arrived: bool)

  predicate Enabled(p: Path, a: Action) {
    a.Write? ==> p.writer.Running? && CanPop(p.queue) && p.queue.bytes == SumSizes(p.queue.entries)
  }

  /** One pop of the writer loop and what it does with the item. */
  function WriteOne(p: Path, throws: bool, arrived: bool): Path
    requires CanPop(p.queue) && p.queue.bytes == SumSizes(p.queue.entries)
  {
    var q := PopFrom(p.queue);
    if p.queue.closed then p.(writer := Stopped)
    else if p.queue.overflowed then p.(writer := Stopped, closes := p.closes + (if !throws || arrived then 1 else 0))
    else
      var head := p.queue.entries[0];
      p.(queue := q,
         socket := if !throws || arrived then p.socket + [head] else p.socket,
         writer := if throws then Stopped else Running)
  }

  function Perform(m: Limits, p: Path, a: Action): Path
    requires Enabled(p, a)
  {
    match a
    case Offer(e) =>
      p.(queue := PushOn(p.queue, m, e), offered := p.offered + [e],
         accepted := if Open(p.queue) && Fits(p.queue, m, e) then p.accepted + 1 else p.accepted)
    case Shut => p.(queue := CloseOn(p.queue))
    case Write(throws, arrived) => WriteOne(p, throws, arrived)
  }

  ghost predicate PathInv(m: Limits, p: Path) {
    && Ok(p.queue, m)
    && p.accepted <= |p.offered|
    && p.socket <= p.offered[..p.accepted]
    && (Open(p.queue) ==> p.accepted == |p.offered|)
    && (Open(p.queue) && p.writer.Running? ==> p.offered == p.socket + p.queue.entries)
    && (p.closes > 0 ==> p.queue.overflowed && p.writer.Stopped?)
    && p.closes <= 1
  }

  /**
   * What a push does to an open queue: within both limits the entry is queued last and counted, beyond
   * one of them the queue is emptied and has overflowed for good. No push gets past an overflow or a close.
   */
  lemma PushMeans(m: Limits, p: Path, e: Entry)
    ensures var p' := Perform(m, p, Offer(e));
            var open := !p.queue.overflowed && !p.queue.closed;
            var fits := |p.queue.entries| + 1 <= m.frames && p.queue.bytes + |e.data| <= m.bytes;
            && p'.socket == p.socket && p'.writer == p.writer && p'.closes == p.closes && p'.offered == p.offered + [e]
            && (open && fits ==> p'.queue == p.queue.(entries := p.queue.entries + [e], bytes := p.queue.bytes + |e.data|)
                                 && p'.accepted == p.accepted + 1)
            && (open && !fits ==> p'.queue == Queue([], 0, true, false) && p'.accepted == p.accepted)
            && (!open ==> p'.queue == p.queue && p'.accepted == p.accepted)
  {}

  /**
   * What the writer's next turn does: it stops silently on a close; on an overflow it tells the peer,
   * unless that write throws first, and stops; otherwise the oldest entry goes out, and it stops if the
   * write threw.
   */
  lemma TurnMeans(m: Limits, p: Path, throws: bool, arrived: bool)
    requires PathInv(m, p) && p.writer.Running? && (p.queue.closed || p.queue.overflowed || p.queue.entries != [])
    ensures Enabled(p, Write(throws, arrived))
    ensures var p' := Perform(m, p, Write(throws, arrived));
            var reached := !throws || arrived;
            && p'.offered == p.offered && p'.accepted == p.accepted
            && (p.queue.closed ==> p' == p.(writer := Stopped))
            && (!p.queue.closed && p.queue.overflowed ==>
                  p' == p.(writer := Stopped, closes := if reached then p.closes + 1 else p.closes))
            && (!p.queue.closed && !p.queue.overflowed ==>
                  && p'.queue.entries == p.queue.entries[1..] && !p'.queue.closed && !p'.queue.overflowed
                  && p'.socket == (if reached then p.socket + [p.queue.entries[0]] else p.socket)
                  && p'.writer == (if throws then Stopped else Running) && p'.closes == p.closes)
  {}

  lemma ActionKeeps(m: Limits, p: Path, a: Action)
    requires PathInv(m, p) && Enabled(p, a)
    ensures PathInv(m, Perform(m, p, a))
  {
    var p' := Perform(m, p, a);
    match a
    case Offer(e) =>
      SumSizesAppend(p.queue.entries, e);
      assert p'.offered[..p.accepted] == p.offered[..p.accepted];
      if Open(p.queue) { assert p'.offered[..|p'.offered|] == p'.offered; }
    case Shut =>
    case Write(throws, arrived) =>
      if Open(p.queue) {
        SumSizesHead(p.queue.entries);
        var head := p.queue.entries[0];
        assert p.writer.Running? ==> p.offered == (p.socket + [head]) + p.queue.entries[1..];
        assert p.offered[..p.accepted] == p.offered;
      }
  }

  predicate AllEnabled(m: Limits, p: Path, acts: seq<Action>)
    decreases |acts|, 0
  {
    if acts == [] then true
    else
      var k := |acts| - 1;
      AllEnabled(m, p, acts[..k]) && Enabled(PerformAll(m, p, acts[..k]), acts[k])
  }

  function PerformAll(m: Limits, p: Path, acts: seq<Action>): Path
    requires AllEnabled(m, p, acts)
    decreases |acts|, 1
  {
    if acts == [] then p else Perform(m, PerformAll(m, p, acts[..|acts| - 1]), acts[|acts| - 1])
  }

  const NewPath := Path(Queue([], 0, false, false), [], 0, Running, [], 0)

  /**
   * In every interleaving of pushes, a close and the writer: the byte counter is the sum of the queued
   * sizes and both limits hold; what reached the socket is a gap-free prefix of what was accepted, which
   * is itself a prefix of everything ever pushed; while nothing has overflowed or closed and the writer
   * runs, nothing is missing at all.
   */
  lemma {:induction false} SocketSeesAPrefix(m: Limits, acts: seq<Action>)
    requires AllEnabled(m, NewPath, acts)
    ensures PathInv(m, PerformAll(m, NewPath, acts))
  {
    if acts != [] {
      SocketSeesAPrefix(m, acts[..|acts| - 1]);
      ActionKeeps(m, PerformAll(m, NewPath, acts[..|acts| - 1]), acts[|acts| - 1]);
    }
  }

  /**
   * Overflow and close are absorbing: from then on nothing is accepted, nothing is queued and the socket
   * sees no further entry, whatever is pushed; a stopped writer stays stopped.
   */
  lemma {:induction false} NothingAfterDropping(m: Limits, p: Path, acts: seq<Action>)
    requires PathInv(m, p) && !Open(p.queue) && AllEnabled(m, p, acts)
    ensures var p' := PerformAll(m, p, acts);
            && !Open(p'.queue) && p'.queue.entries == [] && p'.accepted == p.accepted && p'.socket == p.socket
            && (p.writer.Stopped? ==> p'.writer.Stopped?) && PathInv(m, p')
  {
    if acts != [] {
      NothingAfterDropping(m, p, acts[..|acts| - 1]);
      ActionKeeps(m, PerformAll(m, p, acts[..|acts| - 1]), acts[|acts| - 1]);
    }
  }

  /** One connection: everything goes through its queue, and only its writer touches the socket. */
  class WsSession {
    const queue: BoundedFrameQueue
    var writer: Writer
    var socket: seq<Entry>
    var closes: nat

    ghost function State(): Path
      reads this, queue
    {
      Path(queue.State(), [], 0, writer, socket, closes)
    }

    constructor (maxFrames: nat, maxBytes: nat)
      ensures fresh(queue) && queue.Valid() && queue.limits == Limits(maxFrames, maxBytes) && State() == NewPath
    {
      queue := new BoundedFrameQueue(maxFrames, maxBytes);
      writer, socket, closes := Running, [], 0;
    }

    method Send(frame: string)
      requires queue.Valid()
      modifies queue
      ensures queue.Valid() && queue.State() == PushOn(old(queue.State()), queue.limits, Entry(false, frame))
    {
      var r := queue.Push(frame);
    }

    method Shutdown()
      requires queue.Valid()
      modifies queue
      ensures queue.Valid() && queue.State() == CloseOn(old(queue.State()))
    {
      queue.Close();
    }

    /** One turn of the writer's loop; the write may throw, with or without the data having arrived. */
    method WriterTurn(throws: bool, arrived: bool)
      requires queue.Valid() && writer.Running? && CanPop(queue.State())
      modifies this, queue
      ensures queue.Valid() && State() == WriteOne(old(State()), throws, arrived)
    {
      var item := queue.Pop();
      match item
      case EndOfQueue => writer := Stopped;
      case Overflow =>
        if !throws || arrived { closes := closes + 1; }
        writer := Stopped;
      case Pong(data) =>
        if !throws || arrived { socket := socket + [Entry(true, data)]; }
        if throws { writer := Stopped; }
      case Frame(data) =>
        if !throws || arrived { socket := socket + [Entry(false, data)]; }
        if throws { writer := Stopped; }
    }
  }
}
