/**
 The local port pool of lib/portpool.go: a ring buffer over an array that never checks which ports
 are out, and the FIFO queue it implements as long as callers return only ports that are out.
 */
module PortPools {

  // ----- The abstract pool -----

  /** Ports available, oldest first, and ports handed out. */
  datatype Pool = Pool(queue: seq<int>, out: set<int>)

  predicate NoRepeats(q: seq<int>) {
    forall i, j :: 0 <= i < j < |q| ==> q[i] != q[j]
  }

  /** Queue and handed-out ports partition [lo, hi], without duplicates. */
  ghost predicate Partition(p: Pool, lo: int, hi: int) {
    && NoRepeats(p.queue)
    && (forall x :: x in p.queue ==> x !in p.out)
    && (forall x :: x in p.queue || x in p.out <==> lo <= x <= hi)
    && |p.queue| + |p.out| == hi - lo + 1
  }

  function Allocate(p: Pool): Pool
    requires p.queue != []
  {
    Pool(p.queue[1..], p.out + {p.queue[0]})
  }

  /** A port goes to the back of the queue. */
  function Return(p: Pool, port: int): Pool {
    Pool(p.queue + [port], p.out - {port})
  }

  /** The pool with the flag isFull, which a new pool does not set although all its ports are available. */
  datatype Ring = Ring(pool: Pool, full: bool)

  ghost predicate RingInv(r: Ring, lo: int, hi: int) {
    Partition(r.pool, lo, hi) && lo <= hi && (r.full ==> |r.pool.queue| == hi - lo + 1)
  }

  /** allocatePort. */
  function TakeOut(r: Ring): Ring {
    if r.pool.queue == [] then r else Ring(Allocate(r.pool), false)
  }

  predicate Refuses(r: Ring, port: int, lo: int, hi: int) {
    r.full || port < lo || port > hi
  }

  /** returnPort, whatever the port. A ring that is full without the flag takes it and forgets all the others. */
  function TakeBack(r: Ring, port: int, lo: int, hi: int): Ring {
    if Refuses(r, port, lo, hi) then r
    else
      var p := if |r.pool.queue| == hi - lo + 1 then Pool([port], r.pool.out - {port}) else Return(r.pool, port);
      Ring(p, |p.queue| == hi - lo + 1)
  }

  lemma AllocateKeeps(p: Pool, lo: int, hi: int)
    requires Partition(p, lo, hi) && p.queue != []
    ensures Partition(Allocate(p), lo, hi)
  {
    assert p.queue == [p.queue[0]] + p.queue[1..];
    assert p.queue[0] in p.queue;
  }

  lemma ReturnKeeps(p: Pool, port: int, lo: int, hi: int)
    requires Partition(p, lo, hi) && port in p.out
    ensures Partition(Return(p, port), lo, hi) && |p.queue| < hi - lo + 1
  {
    var q := p.queue + [port];
    assert forall x :: x in q <==> x in p.queue || x == port;
    assert |p.out - {port}| == |p.out| - 1;
  }

  lemma RepeatBreaks(p: Pool, port: int, lo: int, hi: int)
    requires Partition(p, lo, hi) && port in p.queue
    ensures !Partition(Return(p, port), lo, hi)
  {
    var q := p.queue + [port];
    var i :| 0 <= i < |p.queue| && p.queue[i] == port;
    assert q[i] == q[|p.queue|];
  }

  lemma ForgetBreaksIff(p: Pool, port: int, lo: int, hi: int)
    requires Partition(p, lo, hi) && |p.queue| == hi - lo + 1 && lo <= port <= hi
    ensures Partition(Pool([port], p.out - {port}), lo, hi) <==> lo == hi
  {
    assert p.out == {};
  }

  /**
   Returning a port keeps the partition exactly when that port is out, or the ring refuses it, or the
   range has a single port.
   */
  lemma {:induction false} ReturnKeepsIff(r: Ring, port: int, lo: int, hi: int)
    requires RingInv(r, lo, hi)
    ensures Partition(TakeBack(r, port, lo, hi).pool, lo, hi)
            <==> port in r.pool.out || Refuses(r, port, lo, hi) || lo == hi
  {
    if !Refuses(r, port, lo, hi) {
      if port in r.pool.out {
        ReturnKeeps(r.pool, port, lo, hi);
      } else if |r.pool.queue| == hi - lo + 1 {
        ForgetBreaksIff(r.pool, port, lo, hi);
      } else {
        assert port in r.pool.queue;
        assert |r.pool.queue| > 0;
        RepeatBreaks(r.pool, port, lo, hi);
      }
    }
  }

  /** For a port that is out, with the flag or not, the ring appends to the queue. */
  lemma TakeBackReturns(r: Ring, port: int, lo: int, hi: int)
    requires RingInv(r, lo, hi) && port in r.pool.out
    ensures !Refuses(r, port, lo, hi) && TakeBack(r, port, lo, hi).pool == Return(r.pool, port)
    ensures RingInv(TakeBack(r, port, lo, hi), lo, hi)
  {
    ReturnKeeps(r.pool, port, lo, hi);
  }

  /** Allocation fails exactly when every port of the range is out. */
  lemma EmptyIffAllOut(p: Pool, lo: int, hi: int)
    requires Partition(p, lo, hi)
    ensures p.queue == [] <==> forall x :: lo <= x <= hi ==> x in p.out
    ensures p.queue == [] <==> |p.out| == hi - lo + 1
  {
    assert p.queue != [] ==> p.queue[0] in p.queue;
  }

  // ----- FIFO -----

  /** A call by a client of the pool. */
  datatype Call = AllocateCall | ReturnCall(port: int)

  function Apply(r: Ring, c: Call, lo: int, hi: int): Ring {
    match c
    case AllocateCall => TakeOut(r)
    case ReturnCall(port) => TakeBack(r, port, lo, hi)
  }

  function Run(r: Ring, calls: seq<Call>, lo: int, hi: int): Ring {
    if calls == [] then r else Apply(Run(r, calls[..|calls| - 1], lo, hi), calls[|calls| - 1], lo, hi)
  }

  /** The ports handed out by the successful allocations, in order. */
  function Issued(r: Ring, calls: seq<Call>, lo: int, hi: int): seq<int> {
    if calls == [] then []
    else
      var before := Run(r, calls[..|calls| - 1], lo, hi).pool;
      Issued(r, calls[..|calls| - 1], lo, hi) +
      if calls[|calls| - 1].AllocateCall? && before.queue != [] then [before.queue[0]] else []
  }

  function Returned(calls: seq<Call>): seq<int> {
    if calls == [] then []
    else
      Returned(calls[..|calls| - 1]) +
      if calls[|calls| - 1].ReturnCall? then [calls[|calls| - 1].port] else []
  }

  /** Callers return only ports that are out. */
  predicate Disciplined(r: Ring, calls: seq<Call>, lo: int, hi: int) {
    calls != [] ==>
      && Disciplined(r, calls[..|calls| - 1], lo, hi)
      && (calls[|calls| - 1].ReturnCall? ==>
            calls[|calls| - 1].port in Run(r, calls[..|calls| - 1], lo, hi).pool.out)
  }

  /** In every disciplined run the partition holds. */
  lemma {:induction false} RunKeepsPartition(r: Ring, calls: seq<Call>, lo: int, hi: int)
    requires RingInv(r, lo, hi) && Disciplined(r, calls, lo, hi)
    ensures RingInv(Run(r, calls, lo, hi), lo, hi)
    decreases calls
  {
    if calls != [] {
      hide Partition, TakeBack;
      var before, c := Run(r, calls[..|calls| - 1], lo, hi), calls[|calls| - 1];
      RunKeepsPartition(r, calls[..|calls| - 1], lo, hi);
      if c.ReturnCall? {
        TakeBackReturns(before, c.port, lo, hi);
      } else if before.pool.queue != [] {
        AllocateKeeps(before.pool, lo, hi);
      }
    }
  }

  /** The flag is set exactly if the ring is full again after some port has been out. */
  lemma {:induction false} FlagIffRefilled(p: Pool, calls: seq<Call>, lo: int, hi: int)
    requires RingInv(Ring(p, false), lo, hi) && p.out == {} && Disciplined(Ring(p, false), calls, lo, hi)
    ensures var r := Run(Ring(p, false), calls, lo, hi);
            r.full <==> |r.pool.queue| == hi - lo + 1 && AllocateCall in calls
    decreases calls
  {
    var start := Ring(p, false);
    if calls != [] {
      var prefix, c := calls[..|calls| - 1], calls[|calls| - 1];
      FlagIffRefilled(p, prefix, lo, hi);
      RunKeepsPartition(start, prefix, lo, hi);
      assert calls == prefix + [c];
      var before := Run(start, prefix, lo, hi);
      if c.ReturnCall? {
        TakeBackReturns(before, c.port, lo, hi);
        if AllocateCall !in prefix {
          NothingTaken(start, prefix, lo, hi);
          assert false;
        }
      }
    }
  }

  /** Without an allocation no port is out, so a disciplined caller has nothing to return. */
  lemma {:induction false} NothingTaken(r: Ring, calls: seq<Call>, lo: int, hi: int)
    requires RingInv(r, lo, hi) && r.pool.out == {} && AllocateCall !in calls && Disciplined(r, calls, lo, hi)
    ensures calls == []
    decreases calls
  {
    if calls != [] {
      assert calls[|calls| - 1] in calls;
      NothingTaken(r, calls[..|calls| - 1], lo, hi);
    }
  }

  /**
   A port that is not out, given back to a full ring: refused if the ring has been used, but taken by a new
   one, which forgets all its ports.
   */
  lemma {:induction false} ForeignReturn(p: Pool, calls: seq<Call>, port: int, lo: int, hi: int)
    requires RingInv(Ring(p, false), lo, hi) && p.out == {} && Disciplined(Ring(p, false), calls, lo, hi)
    requires var r := Run(Ring(p, false), calls, lo, hi); |r.pool.queue| == hi - lo + 1 && lo <= port <= hi
    ensures var r := Run(Ring(p, false), calls, lo, hi);
            TakeBack(r, port, lo, hi)
            == if AllocateCall in calls then r else Ring(Pool([port], {}), lo == hi)
  {
    FlagIffRefilled(p, calls, lo, hi);
    if AllocateCall !in calls {
      NothingTaken(Ring(p, false), calls, lo, hi);
    }
    hide Run, Disciplined;
  }

  lemma MoveHead(i: seq<int>, q: seq<int>)
    requires q != []
    ensures (i + [q[0]]) + q[1..] == i + q
  {
  }

  lemma AppendBoth(i: seq<int>, q: seq<int>, r: seq<int>, port: int)
    ensures i + (q + [port]) == (i + q) + [port]
    ensures q + (r + [port]) == (q + r) + [port]
  {
  }

  /** First in, first out: what was issued, followed by what is left, is what was there followed by what came back. */
  lemma {:induction false} FifoLaw(r: Ring, calls: seq<Call>, lo: int, hi: int)
    requires RingInv(r, lo, hi) && Disciplined(r, calls, lo, hi)
    ensures Issued(r, calls, lo, hi) + Run(r, calls, lo, hi).pool.queue == r.pool.queue + Returned(calls)
    decreases calls
  {
    if calls != [] {
      hide RingInv, TakeBack;
      var init, c := calls[..|calls| - 1], calls[|calls| - 1];
      FifoLaw(r, init, lo, hi);
      RunKeepsPartition(r, init, lo, hi);
      var before := Run(r, init, lo, hi);
      var q := before.pool.queue;
      assert Issued(r, init, lo, hi) + [] == Issued(r, init, lo, hi) && Returned(init) + [] == Returned(init);
      if c.ReturnCall? {
        TakeBackReturns(before, c.port, lo, hi);
        AppendBoth(Issued(r, init, lo, hi), q, [], c.port);
        AppendBoth([], r.pool.queue, Returned(init), c.port);
      } else if q != [] {
        MoveHead(Issued(r, init, lo, hi), q);
      }
    } else {
      assert Issued(r, calls, lo, hi) == [] && Returned(calls) == [];
    }
  }

  /** So a port just returned is issued again only after every port that was available before it. */
  lemma ReissuedLast(r: Ring, port: int, calls: seq<Call>, lo: int, hi: int)
    requires RingInv(r, lo, hi) && port in r.pool.out && Disciplined(TakeBack(r, port, lo, hi), calls, lo, hi)
    requires port in Issued(TakeBack(r, port, lo, hi), calls, lo, hi)
    ensures r.pool.queue + [port] <= Issued(TakeBack(r, port, lo, hi), calls, lo, hi)
  {
    var start := TakeBack(r, port, lo, hi);
    TakeBackReturns(r, port, lo, hi);
    FifoLaw(start, calls, lo, hi);
    hide TakeBack, Disciplined;
    var issued := Issued(start, calls, lo, hi);
    var queue := r.pool.queue;
    var total := issued + Run(start, calls, lo, hi).pool.queue;
    forall i | 0 <= i < |issued| && i < |queue| ensures issued[i] != port {
      assert total[i] == issued[i] && queue[i] in queue;
    }
    assert |issued| > |queue|;
    assert total[..|queue| + 1] == queue + [port];
    assert issued[..|queue| + 1] == total[..|queue| + 1];
  }

  // ----- The ring buffer -----

  function Next(i: nat, capacity: nat): (r: nat)
    requires i < capacity
    ensures r == if i + 1 == capacity then 0 else i + 1
  {
    (i + 1) % capacity
  }

  /** The live segment of a ring over these slots. */
  function LiveSegment(slots: seq<int>, readIdx: nat, writeIdx: nat, isEmpty: bool): seq<int>
    requires readIdx < |slots| && writeIdx < |slots|
  {
    if isEmpty then []
    else if readIdx < writeIdx then slots[readIdx..writeIdx]
    else slots[readIdx..] + slots[..writeIdx]
  }

  lemma LiveAppend(slots: seq<int>, readIdx: nat, writeIdx: nat, isEmpty: bool, port: int)
    requires readIdx < |slots| && writeIdx < |slots| && (isEmpty ==> readIdx == writeIdx)
    ensures var live := LiveSegment(slots, readIdx, writeIdx, isEmpty);
            LiveSegment(slots[writeIdx := port], readIdx, Next(writeIdx, |slots|), false)
            == if |live| < |slots| then live + [port] else [port]
  {
    var after, next := slots[writeIdx := port], Next(writeIdx, |slots|);
    assert after[..writeIdx] == slots[..writeIdx] && after[writeIdx + 1..] == slots[writeIdx + 1..];
    assert after[..writeIdx + 1] == slots[..writeIdx] + [port];
    if isEmpty || readIdx < writeIdx {
      assert after[readIdx..writeIdx + 1] == after[readIdx..writeIdx] + [port];
      assert after[readIdx..writeIdx] == slots[readIdx..writeIdx];
      if writeIdx + 1 == |slots| {
        assert after[..next] == [] && after[readIdx..] == after[readIdx..writeIdx + 1];
      }
    } else if readIdx == writeIdx {
      ForgottenRing(after, readIdx, port);
    } else {
      assert after[readIdx..] == slots[readIdx..];
    }
  }

  /** Behind a slot written in a ring that was full without the flag, only that slot is live. */
  lemma ForgottenRing(after: seq<int>, at: nat, port: int)
    requires at < |after| && after[at] == port
    ensures LiveSegment(after, at, Next(at, |after|), false) == [port]
  {
  }

  class PortPool {
    var ports: array<int>
    const capacity: nat
    const minPort: int
    const maxPort: int
    var readIdx: nat
    var writeIdx: nat
    var isFull: bool
    var isEmpty: bool
    var allocatedMap: map<int, int>

    ghost predicate Valid()
      reads this, ports
    {
      && ports.Length == capacity == maxPort - minPort + 1 && capacity > 0
      && readIdx < capacity && writeIdx < capacity
      && !(isFull && isEmpty) && (isFull || isEmpty ==> readIdx == writeIdx)
    }

    /** The live segment of the ring. */
    ghost function Queue(): seq<int>
      requires Valid()
      reads this, ports
    {
      LiveSegment(ports[..], readIdx, writeIdx, isEmpty)
    }

    ghost function View(): Pool
      requires Valid()
      reads this, ports
    {
      Pool(Queue(), allocatedMap.Keys)
    }

    /** The queue, the ports that are out and the flag. */
    ghost function RingView(): Ring
      requires Valid()
      reads this, ports
    {
      Ring(View(), isFull)
    }

    /** newPortPool; `perm` is the random permutation. The ring is full but isFull is false. */
    constructor (minPort: int, maxPort: int, perm: seq<int>)
      requires minPort <= maxPort && |perm| == maxPort - minPort + 1
      requires NoRepeats(perm) && forall v :: v in perm <==> 0 <= v <= maxPort - minPort
      ensures Valid() && fresh(ports) && this.minPort == minPort && this.maxPort == maxPort
      ensures Partition(View(), minPort, maxPort) && allocatedMap == map[] && RingView() == Ring(View(), false)
      ensures Queue() == seq(|perm|, i requires 0 <= i < |perm| => minPort + perm[i])
    {
      this.minPort, this.maxPort, capacity := minPort, maxPort, |perm|;
      var fill := new int[|perm|];
      var i := 0;
      while i < |perm|
        invariant 0 <= i <= |perm| == fill.Length
        invariant forall j :: 0 <= j < i ==> fill[j] == minPort + perm[j]
      {
        fill[i] := minPort + perm[i];
        i := i + 1;
      }
      ports := fill;
      readIdx, writeIdx, isFull, isEmpty, allocatedMap := 0, 0, false, false, map[];
      new;
      assert Queue() == seq(|perm|, i requires 0 <= i < |perm| => minPort + perm[i]);
      ShiftedPartition(perm, Queue(), minPort, maxPort);
    }

    static lemma ShiftedPartition(perm: seq<int>, q: seq<int>, lo: int, hi: int)
      requires |perm| == |q| == hi - lo + 1 && NoRepeats(perm) && forall v :: v in perm <==> 0 <= v <= hi - lo
      requires forall i :: 0 <= i < |q| ==> q[i] == lo + perm[i]
      ensures Partition(Pool(q, {}), lo, hi)
    {
      forall x ensures x in q <==> lo <= x <= hi {
        if x in q {
          var i :| 0 <= i < |q| && q[i] == x;
          assert perm[i] in perm;
        }
        if lo <= x <= hi {
          assert x - lo in perm;
          var i :| 0 <= i < |perm| && perm[i] == x - lo;
          assert q[i] == x;
        }
      }
    }

    lemma FlagMeansFull()
      requires Valid()
      ensures isFull ==> |Queue()| == capacity
      ensures !isEmpty && readIdx == writeIdx <==> |Queue()| == capacity
      ensures |Queue()| <= capacity
    {
    }

    /** allocatePort: the head of the queue, or an error when it is empty. */
    method AllocatePort(now: int) returns (port: int, ok: bool)
      requires Valid()
      modifies this`readIdx, this`isEmpty, this`isFull, this`allocatedMap
      ensures Valid() && ports == old(ports)
      ensures ok <==> old(View()).queue != []
      ensures ok ==> port == old(View()).queue[0]
      ensures RingView() == TakeOut(old(RingView()))
      ensures ok ==> allocatedMap == old(allocatedMap)[port := now]
      ensures !ok ==> port == 0
    {
      hide Next;
      if isEmpty {
        return 0, false;
      }
      ghost var before := Queue();
      port := ports[readIdx];
      readIdx := Next(readIdx, capacity);
      if readIdx == writeIdx {
        isEmpty := true;
      }
      isFull := false;
      allocatedMap := allocatedMap[port := now];
      assert Queue() == before[1..];
      ok := true;
    }

    /**
     returnPort. It never checks that the port is out. The partition survives unless the port is not out and
     the ring takes it all the same.
     */
    method ReturnPort(port: int) returns (ok: bool)
      requires Valid()
      modifies this`writeIdx, this`isFull, this`isEmpty, this`allocatedMap, ports
      ensures Valid() && ports == old(ports)
      ensures ok <==> !Refuses(old(RingView()), port, minPort, maxPort)
      ensures RingView() == TakeBack(old(RingView()), port, minPort, maxPort)
      ensures Partition(old(View()), minPort, maxPort) ==>
                (Partition(View(), minPort, maxPort) <==> port in old(View()).out || !ok || minPort == maxPort)
    {
      hide Next, Partition, LiveSegment;
      ghost var slots, before, ring := ports[..], Queue(), RingView();
      FlagMeansFull();
      if Partition(ring.pool, minPort, maxPort) {
        ReturnKeepsIff(ring, port, minPort, maxPort);
      }
      if port < minPort || port > maxPort {
        return false;
      }
      if isFull {
        return false;
      }
      ports[writeIdx] := port;
      writeIdx := Next(writeIdx, capacity);
      if writeIdx == readIdx {
        isFull := true;
      }
      isEmpty := false;
      allocatedMap := allocatedMap - {port};
      LiveAppend(slots, readIdx, old(writeIdx), old(isEmpty), port);
      assert ports[..] == slots[old(writeIdx) := port];
      FlagMeansFull();
      ok := true;
    }
  }
}
