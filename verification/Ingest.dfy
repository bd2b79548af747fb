/**
 The path from a served request to a stored row (internal/ingest): a bounded
 queue that drops when full, and a writer that batches by size and by time and
 drains on shutdown.  A schedule says who acts next: producers, the ticker, the
 cancelled context, or the writer's own receive.
 */
module Ingest {
  import opened Prelude

  type Record = nat

  datatype Turn =
    | Offer(rec: Record)   // a producer calls Enqueue
    | Close                // the queue is closed
    | Receive              // the writer takes the channel case
    | Tick                 // the flush ticker fires
    | Cancel               // the context is cancelled

  datatype Phase = Running | Draining | Stopped

  /** Queue, writer and store together; `accepted` and `offered` remember what
      producers did. */
  datatype Pipe = Pipe(
    ch: seq<Record>, closed: bool, dropped: nat,
    buf: seq<Record>, batches: seq<seq<Record>>, phase: Phase,
    accepted: seq<Record>, offered: nat)

  const EMPTY := Pipe([], false, 0, [], [], Running, [], 0)

  function Flushed(p: Pipe): Pipe {
    if p.buf == [] then p else p.(batches := p.batches + [p.buf], buf := [])
  }

  function Offered(p: Pipe, rec: Record, capacity: nat): Pipe {
    if |p.ch| < capacity
    then p.(ch := p.ch + [rec], accepted := p.accepted + [rec], offered := p.offered + 1)
    else p.(dropped := p.dropped + 1, offered := p.offered + 1)
  }

  /** One record moves from the channel to the buffer, which is flushed when full. */
  function Received(p: Pipe, batchSize: nat): Pipe
    requires p.ch != []
  {
    var taken := p.(ch := p.ch[1..], buf := p.buf + [p.ch[0]]);
    if |taken.buf| >= batchSize then Flushed(taken) else taken
  }

  function Step(p: Pipe, turn: Turn, capacity: nat, batchSize: nat): Pipe {
    match turn
    case Offer(rec) => if p.closed then p else Offered(p, rec, capacity)
    case Close => p.(closed := true)
    case Receive =>
      if p.phase.Stopped? then p
      else if p.ch != [] then Received(p, batchSize)
      else if p.closed || p.phase.Draining? then Flushed(p).(phase := Stopped)
      else p
    case Tick => if p.phase.Running? then Flushed(p) else p
    case Cancel => if p.phase.Running? then p.(phase := Draining) else p
  }

  function Exec(p: Pipe, schedule: seq<Turn>, capacity: nat, batchSize: nat): Pipe {
    if schedule == [] then p
    else Step(Exec(p, Init(schedule), capacity, batchSize), Last(schedule), capacity, batchSize)
  }

  // ---------------------------------------------------------------- the two objects

  class Queue {
    const capacity: nat
    var ch: seq<Record>
    var closed: bool
    var dropped: nat
    ghost var accepted: seq<Record>
    ghost var offered: nat

    constructor (capacity: nat)
      ensures this.capacity == capacity && ch == [] && !closed && dropped == 0 && accepted == [] && offered == 0
    {
      this.capacity := capacity;
      ch, closed, dropped, accepted, offered := [], false, 0, [], 0;
    }

    /** Never blocks: a full queue drops the record and says so.  A closed queue
        must not be offered anything. */
    method Enqueue(rec: Record) returns (ok: bool)
      requires !closed
      modifies this
      ensures ok <==> |old(ch)| < capacity
      ensures ch == if ok then old(ch) + [rec] else old(ch)
      ensures accepted == if ok then old(accepted) + [rec] else old(accepted)
      ensures dropped == old(dropped) + (if ok then 0 else 1)
      ensures offered == old(offered) + 1 && closed == old(closed)
    {
      offered := offered + 1;
      if |ch| < capacity {
        ch := ch + [rec];
        accepted := accepted + [rec];
        return true;
      }
      dropped := dropped + 1;
      ok := false;
    }

    /** A channel receive that does not block; `ok` is false on a closed, empty channel. */
    method TryReceive() returns (ready: bool, rec: Record, ok: bool)
      modifies this`ch
      ensures ready <==> old(ch) != [] || closed
      ensures ok <==> old(ch) != []
      ensures if ok then ch == old(ch)[1..] && rec == old(ch)[0] else ch == old(ch)
    {
      if ch != [] {
        rec := ch[0];
        ch := ch[1..];
        return true, rec, true;
      }
      ready, rec, ok := closed, 0, false;
    }

    method CloseQueue()
      modifies this`closed
      ensures closed
    {
      closed := true;
    }
  }

  class Writer {
    const queue: Queue
    const batchSize: nat
    var buf: seq<Record>
    var batches: seq<seq<Record>>   // what InsertBatch was handed
    var phase: Phase

    constructor (queue: Queue, batchSize: nat)
      ensures this.queue == queue && this.batchSize == batchSize && buf == [] && batches == [] && phase == Running
    {
      this.queue, this.batchSize := queue, batchSize;
      buf, batches, phase := [], [], Running;
    }

    ghost function View(): Pipe
      reads this, queue
    {
      Pipe(queue.ch, queue.closed, queue.dropped, buf, batches, phase, queue.accepted, queue.offered)
    }

    method Flush()
      modifies this`buf, this`batches
      ensures View() == Flushed(old(View()))
    {
      if |buf| == 0 {
        return;
      }
      batches := batches + [buf];
      buf := [];
    }

    /** The receive case of either select; it returns whether Run is over. */
    method TakeOne() returns (over: bool)
      requires phase != Stopped
      modifies this, queue
      ensures View() == Step(old(View()), Receive, queue.capacity, batchSize)
      ensures over <==> phase == Stopped
    {
      var ready, rec, ok := queue.TryReceive();
      if ok {
        buf := buf + [rec];
        if |buf| >= batchSize {
          Flush();
        }
        return false;
      }
      if ready || phase == Draining {
        Flush();
        phase := Stopped;
        return true;
      }
      over := false;
    }

    /** Run under a schedule, the producers' turns included. */
    method Run(schedule: seq<Turn>)
      requires phase == Running && !queue.closed
      modifies this, queue
      ensures View() == Exec(old(View()), schedule, queue.capacity, batchSize)
    {
      ghost var start := View();
      for i := 0 to |schedule|
        invariant View() == Exec(start, schedule[..i], queue.capacity, batchSize)
      {
        assert Init(schedule[..i + 1]) == schedule[..i];
        match schedule[i] {
        case Offer(rec) =>
          if !queue.closed {
            var _ := queue.Enqueue(rec);
          }
        case Close =>
          queue.CloseQueue();
        case Receive =>
          if phase != Stopped {
            var _ := TakeOne();
          }
        case Tick =>
          if phase == Running {
            Flush();
          }
        case Cancel =>
          if phase == Running {
            phase := Draining;
          }
        }
      }
      assert schedule[..|schedule|] == schedule;
    }
  }

  // ---------------------------------------------------------------- every interleaving

  ghost function Concat(batches: seq<seq<Record>>): seq<Record> {
    if batches == [] then [] else Concat(Init(batches)) + Last(batches)
  }

  /** What holds after every turn. */
  ghost predicate Conserved(p: Pipe, capacity: nat, batchSize: nat) {
    && Concat(p.batches) + p.buf + p.ch == p.accepted
    && |p.accepted| + p.dropped == p.offered
    && |p.ch| <= capacity
    && |p.buf| < batchSize
    && (forall i :: 0 <= i < |p.batches| ==> 1 <= |p.batches[i]| <= batchSize)
    && (p.phase.Stopped? ==> p.buf == [])
  }

  lemma FlushConserves(p: Pipe)
    ensures Concat(Flushed(p).batches) + Flushed(p).buf == Concat(p.batches) + p.buf
  {
    if p.buf != [] {
      assert Init(Flushed(p).batches) == p.batches;
    }
  }

  lemma ReceiveConserves(p: Pipe, capacity: nat, batchSize: nat)
    requires Conserved(p, capacity, batchSize) && p.ch != [] && !p.phase.Stopped?
    ensures Conserved(Received(p, batchSize), capacity, batchSize)
  {
    var taken := p.(ch := p.ch[1..], buf := p.buf + [p.ch[0]]);
    assert Concat(p.batches) + taken.buf + taken.ch == p.accepted;
    FlushConserves(taken);
  }

  lemma StepConserves(p: Pipe, turn: Turn, capacity: nat, batchSize: nat)
    requires Conserved(p, capacity, batchSize)
    ensures Conserved(Step(p, turn, capacity, batchSize), capacity, batchSize)
  {
    match turn
    case Offer(rec) =>
      if !p.closed && |p.ch| < capacity {
        assert Concat(p.batches) + p.buf + (p.ch + [rec]) == p.accepted + [rec];
      }
    case Close =>
    case Receive =>
      if !p.phase.Stopped? && p.ch != [] {
        ReceiveConserves(p, capacity, batchSize);
      } else {
        FlushConserves(p);
      }
    case Tick => FlushConserves(p);
    case Cancel =>
  }

  /** No interleaving loses, repeats or reorders an accepted record, miscounts a
      drop, or hands the store an empty or oversized batch. */
  lemma {:induction false} AlwaysConserved(schedule: seq<Turn>, capacity: nat, batchSize: nat)
    requires batchSize > 0
    ensures Conserved(Exec(EMPTY, schedule, capacity, batchSize), capacity, batchSize)
  {
    if schedule != [] {
      AlwaysConserved(Init(schedule), capacity, batchSize);
      StepConserves(Exec(EMPTY, Init(schedule), capacity, batchSize), Last(schedule), capacity, batchSize);
    }
  }

  ghost predicate NoOffers(schedule: seq<Turn>) {
    forall i :: 0 <= i < |schedule| ==> !schedule[i].Offer?
  }

  ghost function CountReceives(schedule: seq<Turn>): nat {
    if schedule == [] then 0 else CountReceives(Init(schedule)) + (if Last(schedule).Receive? then 1 else 0)
  }

  /** Once the writer drains and no producer offers, one receive more than the
      channel held ends the run, whatever else happens in between. */
  lemma {:induction false} DrainEnds(p: Pipe, schedule: seq<Turn>, capacity: nat, batchSize: nat)
    requires !p.phase.Running? && NoOffers(schedule)
    ensures var q, n := Exec(p, schedule, capacity, batchSize), CountReceives(schedule);
            && q.accepted == p.accepted && !q.phase.Running?
            && (p.phase.Draining? ==> if n <= |p.ch| then |q.ch| == |p.ch| - n && q.phase.Draining?
                                      else q.phase.Stopped? && q.ch == [])
  {
    if schedule != [] {
      assert forall i :: 0 <= i < |Init(schedule)| ==> Init(schedule)[i] == schedule[i];
      DrainEnds(p, Init(schedule), capacity, batchSize);
      assert !Last(schedule).Offer?;
    }
  }

  lemma {:induction false} ExecConcat(p: Pipe, a: seq<Turn>, b: seq<Turn>, capacity: nat, batchSize: nat)
    ensures Exec(p, a + b, capacity, batchSize) == Exec(Exec(p, a, capacity, batchSize), b, capacity, batchSize)
  {
    if b == [] {
      assert a + b == a;
    } else {
      assert Init(a + b) == a + Init(b) && Last(a + b) == Last(b);
      ExecConcat(p, a, Init(b), capacity, batchSize);
    }
  }

  /** Shutdown: cancel a running writer after any history; once the producers
      are quiet and enough receives have happened, every accepted record has
      been handed to the store exactly once, in order. */
  lemma ShutdownHandsOverEverything(history: seq<Turn>, rest: seq<Turn>, capacity: nat, batchSize: nat)
    requires batchSize > 0 && Exec(EMPTY, history, capacity, batchSize).phase.Running?
    requires NoOffers(rest) && CountReceives(rest) > capacity
    ensures var end := Exec(EMPTY, history + [Cancel] + rest, capacity, batchSize);
            && end.phase.Stopped? && end.buf == [] && end.ch == []
            && Concat(end.batches) == end.accepted == Exec(EMPTY, history, capacity, batchSize).accepted
  {
    var before := Exec(EMPTY, history, capacity, batchSize);
    var cancelled := Exec(EMPTY, history + [Cancel], capacity, batchSize);
    assert Init(history + [Cancel]) == history;
    ExecConcat(EMPTY, history + [Cancel], rest, capacity, batchSize);
    AlwaysConserved(history + [Cancel], capacity, batchSize);
    AlwaysConserved(history + [Cancel] + rest, capacity, batchSize);
    DrainEnds(cancelled, rest, capacity, batchSize);
    var end := Exec(EMPTY, history + [Cancel] + rest, capacity, batchSize);
    assert Concat(end.batches) + [] + [] == Concat(end.batches);
  }

  /** A writer and its queue, new, under a schedule. */
  method RunFresh(schedule: seq<Turn>, capacity: nat, batchSize: nat) returns (w: Writer)
    ensures fresh(w) && w.View() == Exec(EMPTY, schedule, capacity, batchSize)
  {
    var queue := new Queue(capacity);
    w := new Writer(queue, batchSize);
    w.Run(schedule);
  }

  /** A closed queue ends the run too, without a cancel: one receive more than the
      channel held, whatever else happens, offers included. */
  lemma {:induction false} ClosedQueueEnds(p: Pipe, schedule: seq<Turn>, capacity: nat, batchSize: nat)
    requires p.closed && !p.phase.Stopped?
    ensures var q, n := Exec(p, schedule, capacity, batchSize), CountReceives(schedule);
            && q.closed && q.accepted == p.accepted
            && if n <= |p.ch| then |q.ch| == |p.ch| - n && !q.phase.Stopped? else q.phase.Stopped? && q.ch == []
  {
    if schedule != [] {
      ClosedQueueEnds(p, Init(schedule), capacity, batchSize);
    }
  }

  /** So closing it after any history hands over everything as well. */
  lemma CloseHandsOverEverything(history: seq<Turn>, rest: seq<Turn>, capacity: nat, batchSize: nat)
    requires batchSize > 0 && !Exec(EMPTY, history, capacity, batchSize).phase.Stopped? && CountReceives(rest) > capacity
    ensures var end := Exec(EMPTY, history + [Close] + rest, capacity, batchSize);
            && end.phase.Stopped? && end.buf == [] && end.ch == []
            && Concat(end.batches) == end.accepted == Exec(EMPTY, history, capacity, batchSize).accepted
  {
    assert Init(history + [Close]) == history;
    ExecConcat(EMPTY, history + [Close], rest, capacity, batchSize);
    AlwaysConserved(history, capacity, batchSize);
    AlwaysConserved(history + [Close] + rest, capacity, batchSize);
    ClosedQueueEnds(Exec(EMPTY, history + [Close], capacity, batchSize), rest, capacity, batchSize);
    var end := Exec(EMPTY, history + [Close] + rest, capacity, batchSize);
    assert Concat(end.batches) + [] + [] == Concat(end.batches);
  }

  ghost function ShortBatches(batches: seq<seq<Record>>, batchSize: nat): nat {
    if batches == [] then 0
    else ShortBatches(Init(batches), batchSize) + (if |Last(batches)| < batchSize then 1 else 0)
  }

  ghost function CountTicks(schedule: seq<Turn>): nat {
    if schedule == [] then 0 else CountTicks(Init(schedule)) + (if Last(schedule).Tick? then 1 else 0)
  }

  ghost function CountShort(batch: seq<Record>, batchSize: nat): nat {
    if |batch| < batchSize then 1 else 0
  }

  lemma ShortMore(batches: seq<seq<Record>>, batch: seq<Record>, batchSize: nat)
    ensures ShortBatches(batches + [batch], batchSize) == ShortBatches(batches, batchSize) + CountShort(batch, batchSize)
  {
    assert Init(batches + [batch]) == batches;
  }

  /** The short batches one turn can add: at most one, and only by a tick or by stopping. */
  lemma ShortStep(p: Pipe, turn: Turn, capacity: nat, batchSize: nat)
    requires batchSize > 0 && Conserved(p, capacity, batchSize)
    ensures var q := Step(p, turn, capacity, batchSize);
            && ShortBatches(q.batches, batchSize) <= ShortBatches(p.batches, batchSize)
                 + (if turn.Tick? then 1 else 0) + (if q.phase.Stopped? && !p.phase.Stopped? then 1 else 0)
            && (p.phase.Stopped? ==> q.phase.Stopped?)
            && (turn.Tick? && q.phase.Running? ==> q.buf == [])
  {
    ShortMore(p.batches, p.buf, batchSize);
    if turn.Receive? && p.ch != [] {
      ShortMore(p.batches, p.buf + [p.ch[0]], batchSize);
    }
  }

  /** A batch is short only because a tick or the end of the run cut it, and a
      running writer holds nothing right after a tick. */
  lemma {:induction false} ShortBatchesAreTicks(schedule: seq<Turn>, capacity: nat, batchSize: nat)
    requires batchSize > 0
    ensures var p := Exec(EMPTY, schedule, capacity, batchSize);
            && ShortBatches(p.batches, batchSize) <= CountTicks(schedule) + (if p.phase.Stopped? then 1 else 0)
            && (schedule != [] && Last(schedule).Tick? && p.phase.Running? ==> p.buf == [])
  {
    if schedule != [] {
      ShortBatchesAreTicks(Init(schedule), capacity, batchSize);
      AlwaysConserved(Init(schedule), capacity, batchSize);
      ShortStep(Exec(EMPTY, Init(schedule), capacity, batchSize), Last(schedule), capacity, batchSize);
    }
  }
}
