/**
 The client-side tables of one protocol connection (lib/pconn.go): `dial` takes a port and files the
 connection under its key, `handleCloseConnection` takes it out and gives the port back.
 */
module DialTables {
  import opened PortPools

  /** The source formats this pair as a string. */
  datatype Key = Key(localPort: int, serverPort: int)

  datatype ClientConn = ClientConn(id: nat, key: Key)

  /**
   The pool, tempConnectionMap split into dials still waiting and dials abandoned on a filter error, and
   connectionMap. `leaked` are ports of failed dials, `dialed` the connections dial has returned, `closed`
   those whose close signal has been handled; all three are history.
   */
  datatype Tables = Tables(
    pool: Pool, waiting: map<Key, ClientConn>, abandoned: map<Key, ClientConn>, open: map<Key, ClientConn>,
    leaked: set<int>, dialed: set<ClientConn>, closed: set<nat>, nextId: nat)

  datatype Event =
    | Dial(serverPort: int)
    | DialAbandoned(key: Key)    // the filtering rule could not be added
    | DialTimedOut(key: Key)
    | DialSucceeded(key: Key)
    | CloseSignal(conn: ClientConn)

  /** A fresh connection on the next port. */
  function Fresh(t: Tables, serverPort: int): ClientConn
    requires t.pool.queue != []
  {
    ClientConn(t.nextId, Key(t.pool.queue[0], serverPort))
  }

  /** handleCloseConnection. */
  function Close(t: Tables, c: ClientConn): Tables {
    if c.key in t.open then
      t.(open := t.open - {c.key}, pool := Return(t.pool, c.key.localPort), closed := t.closed + {c.id})
    else t
  }

  /** When an event can happen: each dial ends once, and only an opened connection signals, perhaps more than once. */
  predicate Happens(t: Tables, e: Event) {
    match e
    case Dial(_) => t.pool.queue != []
    case DialAbandoned(k) => k in t.waiting
    case DialTimedOut(k) => k in t.waiting
    case DialSucceeded(k) => k in t.waiting
    case CloseSignal(c) => c in t.dialed
  }

  function Step(t: Tables, e: Event): Tables
    requires Happens(t, e)
  {
    match e
    case Dial(serverPort) =>
      var c := Fresh(t, serverPort);
      t.(pool := Allocate(t.pool), waiting := t.waiting[c.key := c], nextId := t.nextId + 1)
    case DialAbandoned(k) =>
      t.(waiting := t.waiting - {k}, abandoned := t.abandoned[k := t.waiting[k]], leaked := t.leaked + {k.localPort})
    case DialTimedOut(k) => t.(waiting := t.waiting - {k}, leaked := t.leaked + {k.localPort})
    case DialSucceeded(k) =>
      t.(waiting := t.waiting - {k}, open := t.open[k := t.waiting[k]], dialed := t.dialed + {t.waiting[k]})
    case CloseSignal(c) => Close(t, c)
  }

  predicate Live(t: Tables, k: Key) {
    k in t.waiting || k in t.open
  }

  function ConnOf(t: Tables, k: Key): ClientConn
    requires Live(t, k)
  {
    if k in t.waiting then t.waiting[k] else t.open[k]
  }

  /** Live connections are filed under their own key, on distinct ports that are out and not leaked. */
  ghost predicate PortsInv(t: Tables) {
    && (forall k :: k in t.waiting ==> k !in t.open)
    && (forall x :: x in t.leaked ==> x in t.pool.out)
    && (forall k :: k in t.abandoned ==> k.localPort in t.leaked)
    && LivePorts(t)
  }

  ghost predicate LivePorts(t: Tables) {
    && (forall k :: Live(t, k) ==> ConnOf(t, k).key == k && k.localPort in t.pool.out && k.localPort !in t.leaked)
    && (forall k, l :: Live(t, k) && Live(t, l) && k.localPort == l.localPort ==> k == l)
  }

  /** Every port that is out belongs to a live connection or to a failed dial. */
  ghost predicate OwnedInv(t: Tables) {
    forall x :: x in t.pool.out ==> x in t.leaked || exists k :: Live(t, k) && k.localPort == x
  }

  /** Live connections are distinct objects that have not been closed. */
  ghost predicate IdsInv(t: Tables) {
    && (forall k :: Live(t, k) ==> ConnOf(t, k).id < t.nextId && ConnOf(t, k).id !in t.closed)
    && (forall k, l :: Live(t, k) && Live(t, l) && ConnOf(t, k).id == ConnOf(t, l).id ==> k == l)
    && (forall i :: i in t.closed ==> i < t.nextId)
  }

  predicate StillOpen(t: Tables, c: ClientConn) {
    c in t.dialed && c.id !in t.closed
  }

  /** An opened connection stays in the open table, under its own key, until its close signal has been handled. */
  ghost predicate OpenedInv(t: Tables) {
    && (forall c :: StillOpen(t, c) ==> c.key in t.open && t.open[c.key] == c)
    && (forall k :: k in t.open ==> t.open[k] in t.dialed)
  }

  ghost predicate TablesInv(t: Tables, lo: int, hi: int) {
    && Partition(t.pool, lo, hi) && PortsInv(t) && OwnedInv(t) && IdsInv(t) && OpenedInv(t)
    && |t.pool.out| == |t.waiting| + |t.open| + |t.leaked|
  }

  /** A close signal for a connection already closed. */
  predicate Repeated(t: Tables, e: Event) {
    e.CloseSignal? && e.conn.id in t.closed
  }

  /** A repeated close signal whose key is in the open table again, for another connection. */
  predicate Stale(t: Tables, e: Event) {
    Repeated(t, e) && e.conn.key in t.open
  }

  /** Any event but a repeated close signal. */
  predicate Proper(t: Tables, e: Event) {
    Happens(t, e) && !Repeated(t, e)
  }

  predicate Added(t: Tables, e: Event, k: Key)
    requires Happens(t, e)
  {
    e.Dial? && k == Fresh(t, e.serverPort).key
  }

  predicate Removed(e: Event, k: Key) {
    ((e.DialAbandoned? || e.DialTimedOut?) && k == e.key) || (e.CloseSignal? && k == e.conn.key)
  }

  /** A close signal finds exactly its own connection in the table. */
  lemma CloseFindsOwn(t: Tables, c: ClientConn)
    requires PortsInv(t) && OpenedInv(t) && StillOpen(t, c)
    ensures c.key in t.open && t.open[c.key] == c && Live(t, c.key) && c.key.localPort in t.pool.out
  {
    assert Live(t, c.key);
  }

  lemma FreshIsNew(t: Tables, e: Event, lo: int, hi: int)
    requires Partition(t.pool, lo, hi) && PortsInv(t) && e.Dial? && Happens(t, e)
    ensures !Live(t, Fresh(t, e.serverPort).key) && Fresh(t, e.serverPort).key !in t.abandoned
    ensures t.pool.queue[0] !in t.pool.out
  {
    assert t.pool.queue[0] in t.pool.queue;
  }

  /** What an event does to the live connections. */
  lemma LiveExactly(t: Tables, e: Event, lo: int, hi: int, k: Key)
    requires Partition(t.pool, lo, hi) && PortsInv(t) && OpenedInv(t) && Proper(t, e)
    ensures Live(Step(t, e), k) <==> Added(t, e, k) || (Live(t, k) && !Removed(e, k))
    ensures Live(Step(t, e), k) ==>
              ConnOf(Step(t, e), k) == if Added(t, e, k) then Fresh(t, e.serverPort) else ConnOf(t, k)
  {
    if e.Dial? {
      FreshIsNew(t, e, lo, hi);
    }
    if e.CloseSignal? {
      CloseFindsOwn(t, e.conn);
    }
    hide Partition, LivePorts, Allocate, Return;
  }

  lemma LivePortsStep(t: Tables, e: Event, lo: int, hi: int)
    requires Partition(t.pool, lo, hi) && PortsInv(t) && OpenedInv(t) && Proper(t, e)
    ensures LivePorts(Step(t, e))
  {
    if e.Dial? {
      FreshIsNew(t, e, lo, hi);
    }
    if e.CloseSignal? {
      CloseFindsOwn(t, e.conn);
    }
    hide Partition, Live, ConnOf;
    var after := Step(t, e);
    forall k | Live(after, k)
      ensures Added(t, e, k) || (Live(t, k) && !Removed(e, k))
      ensures ConnOf(after, k) == if Added(t, e, k) then Fresh(t, e.serverPort) else ConnOf(t, k)
    {
      LiveExactly(t, e, lo, hi, k);
    }
    if e.DialAbandoned? || e.DialTimedOut? {
      assert Live(t, e.key) by { WaitingIsLive(t, e.key); }
    }
  }

  lemma WaitingIsLive(t: Tables, k: Key)
    requires k in t.waiting
    ensures Live(t, k) && ConnOf(t, k) == t.waiting[k]
  {
  }

  lemma PortsStep(t: Tables, e: Event, lo: int, hi: int)
    requires Partition(t.pool, lo, hi) && PortsInv(t) && OpenedInv(t) && Proper(t, e)
    ensures PortsInv(Step(t, e))
  {
    LivePortsStep(t, e, lo, hi);
    if e.Dial? {
      FreshIsNew(t, e, lo, hi);
    } else if e.CloseSignal? {
      CloseFindsOwn(t, e.conn);
    } else {
      WaitingIsLive(t, e.key);
    }
    hide Partition;
  }

  lemma OwnedStep(t: Tables, e: Event, lo: int, hi: int)
    requires Partition(t.pool, lo, hi) && PortsInv(t) && OpenedInv(t) && OwnedInv(t) && Proper(t, e)
    ensures OwnedInv(Step(t, e))
  {
    hide Partition, Live;
    var after := Step(t, e);
    forall x | x in after.pool.out ensures x in after.leaked || exists k :: Live(after, k) && k.localPort == x {
      if e.Dial? && x == t.pool.queue[0] {
        LiveExactly(t, e, lo, hi, Fresh(t, e.serverPort).key);
      } else if x !in after.leaked {
        var k :| Live(t, k) && k.localPort == x;
        LiveExactly(t, e, lo, hi, k);
      }
    }
  }

  lemma IdsStep(t: Tables, e: Event, lo: int, hi: int)
    requires Partition(t.pool, lo, hi) && PortsInv(t) && OpenedInv(t) && IdsInv(t) && Proper(t, e)
    ensures IdsInv(Step(t, e))
  {
    if e.CloseSignal? {
      CloseFindsOwn(t, e.conn);
    }
    hide Partition, Live, ConnOf, LivePorts;
    var after := Step(t, e);
    forall k | Live(after, k)
      ensures Added(t, e, k) || (Live(t, k) && !Removed(e, k))
      ensures ConnOf(after, k) == if Added(t, e, k) then Fresh(t, e.serverPort) else ConnOf(t, k)
    {
      LiveExactly(t, e, lo, hi, k);
    }
    if e.CloseSignal? {
      OpenIsConn(t, e.conn.key);
    }
  }

  lemma OpenIsConn(t: Tables, k: Key)
    requires k in t.open && PortsInv(t)
    ensures Live(t, k) && ConnOf(t, k) == t.open[k]
  {
  }

  lemma CountStep(t: Tables, e: Event, lo: int, hi: int)
    requires Partition(t.pool, lo, hi) && PortsInv(t) && OpenedInv(t) && Proper(t, e)
    requires |t.pool.out| == |t.waiting| + |t.open| + |t.leaked|
    ensures var after := Step(t, e); |after.pool.out| == |after.waiting| + |after.open| + |after.leaked|
    ensures |Step(t, e).leaked| == |t.leaked| + if e.DialAbandoned? || e.DialTimedOut? then 1 else 0
  {
    if e.Dial? {
      FreshIsNew(t, e, lo, hi);
    } else if e.CloseSignal? {
      CloseFindsOwn(t, e.conn);
    } else {
      WaitingIsLive(t, e.key);
    }
    hide Partition;
  }

  lemma OpenedStep(t: Tables, e: Event, lo: int, hi: int)
    requires TablesInv(t, lo, hi) && Proper(t, e)
    ensures OpenedInv(Step(t, e))
  {
    hide Partition, OwnedInv, Return, Allocate, PortsInv, IdsInv;
    if e.CloseSignal? {
      ClosedLeaves(t, e.conn);
    } else if e.DialSucceeded? {
      SucceededIsNew(t, e.key, lo, hi);
      SuccessOpens(t, e.key);
    }
  }

  lemma SuccessOpens(t: Tables, k: Key)
    requires OpenedInv(t) && k in t.waiting && k !in t.open && t.waiting[k].key == k
    ensures OpenedInv(Step(t, DialSucceeded(k)))
  {
    hide Return, Allocate;
  }

  lemma ClosedLeaves(t: Tables, c: ClientConn)
    requires PortsInv(t) && OpenedInv(t) && StillOpen(t, c)
    ensures OpenedInv(Close(t, c))
  {
    CloseFindsOwn(t, c);
    hide PortsInv, Return;
  }

  lemma SucceededIsNew(t: Tables, k: Key, lo: int, hi: int)
    requires TablesInv(t, lo, hi) && k in t.waiting
    ensures k !in t.open && t.waiting[k].key == k
  {
    hide Partition, OwnedInv, IdsInv, OpenedInv;
    WaitingIsLive(t, k);
  }

  /** Every event but a repeated close signal keeps the tables in order. */
  lemma StepKeeps(t: Tables, e: Event, lo: int, hi: int)
    requires TablesInv(t, lo, hi) && Proper(t, e)
    ensures TablesInv(Step(t, e), lo, hi)
  {
    PortsStep(t, e, lo, hi);
    OwnedStep(t, e, lo, hi);
    IdsStep(t, e, lo, hi);
    CountStep(t, e, lo, hi);
    OpenedStep(t, e, lo, hi);
    hide PortsInv, OwnedInv, IdsInv, OpenedInv;
    if e.Dial? {
      AllocateKeeps(t.pool, lo, hi);
    } else if e.CloseSignal? {
      CloseFindsOwn(t, e.conn);
      ClosePartition(t, e.conn, lo, hi);
    }
  }

  lemma ClosePartition(t: Tables, c: ClientConn, lo: int, hi: int)
    requires Partition(t.pool, lo, hi) && c.key in t.open && c.key.localPort in t.pool.out
    ensures Partition(Close(t, c).pool, lo, hi)
  {
    ReturnKeeps(t.pool, c.key.localPort, lo, hi);
  }

  /** A repeated close signal keeps the tables in order exactly while its key has not been opened again. */
  lemma {:induction false} RepeatedCloseHarmlessIff(t: Tables, c: ClientConn, lo: int, hi: int)
    requires TablesInv(t, lo, hi) && Repeated(t, CloseSignal(c)) && c in t.dialed
    ensures TablesInv(Step(t, CloseSignal(c)), lo, hi) <==> c.key !in t.open
  {
    if c.key in t.open {
      var other := t.open[c.key];
      OpenIsConn(t, c.key);
      assert other.key == c.key && other in t.dialed && other.id !in t.closed;
      hide Partition, PortsInv, OwnedInv, IdsInv;
      var after := Step(t, CloseSignal(c));
      assert other in after.dialed && other.id !in after.closed && other.key !in after.open;
    }
  }

  // ----- Runs -----

  function Initial(pool: Pool): Tables {
    Tables(pool, map[], map[], map[], {}, {}, {}, 0)
  }

  /** An event that cannot happen changes nothing. */
  function Apply(t: Tables, e: Event): Tables {
    if Happens(t, e) then Step(t, e) else t
  }

  function Run(pool: Pool, events: seq<Event>): Tables {
    if events == [] then Initial(pool)
    else Apply(Run(pool, events[..|events| - 1]), events[|events| - 1])
  }

  /** No close signal was stale when it was handled. */
  predicate NeverStale(pool: Pool, events: seq<Event>) {
    events != [] ==>
      && NeverStale(pool, events[..|events| - 1])
      && !Stale(Run(pool, events[..|events| - 1]), events[|events| - 1])
  }

  /** The tables were in order after every event. */
  ghost predicate AlwaysInOrder(pool: Pool, events: seq<Event>, lo: int, hi: int) {
    && TablesInv(Run(pool, events), lo, hi)
    && (events != [] ==> AlwaysInOrder(pool, events[..|events| - 1], lo, hi))
  }

  lemma ApplyKeepsIff(t: Tables, e: Event, lo: int, hi: int)
    requires TablesInv(t, lo, hi) && (e.CloseSignal? ==> e.conn in t.dialed)
    ensures TablesInv(Apply(t, e), lo, hi) <==> !Stale(t, e)
  {
    hide TablesInv, Step;
    if Repeated(t, e) {
      RepeatedCloseHarmlessIff(t, e.conn, lo, hi);
    } else if Happens(t, e) {
      StepKeeps(t, e, lo, hi);
    }
  }

  lemma InitialInv(pool: Pool, lo: int, hi: int)
    requires Partition(pool, lo, hi) && pool.out == {}
    ensures TablesInv(Initial(pool), lo, hi)
  {
  }

  /** A signal comes from a connection that dial has returned. */
  predicate FromOpened(pool: Pool, events: seq<Event>) {
    events != [] ==>
      && FromOpened(pool, events[..|events| - 1])
      && (events[|events| - 1].CloseSignal? ==> events[|events| - 1].conn in Run(pool, events[..|events| - 1]).dialed)
  }

  /**
   Over all interleavings of dials, failed dials and close signals, repeated ones included, the tables are
   in order in every state if and only if no close signal is stale when it is handled.
   */
  lemma {:induction false} InOrderIffNeverStale(pool: Pool, events: seq<Event>, lo: int, hi: int)
    requires Partition(pool, lo, hi) && pool.out == {} && FromOpened(pool, events)
    ensures AlwaysInOrder(pool, events, lo, hi) <==> NeverStale(pool, events)
    decreases events
  {
    hide TablesInv, Apply, Partition, Stale;
    if events == [] {
      InitialInv(pool, lo, hi);
    } else {
      var prefix, e := events[..|events| - 1], events[|events| - 1];
      InOrderIffNeverStale(pool, prefix, lo, hi);
      if NeverStale(pool, prefix) {
        ApplyKeepsIff(Run(pool, prefix), e, lo, hi);
      }
    }
  }

  /**
   What order means: live connections never share a port or a key, an opened connection stays in the
   table with its port out until its close signal has been handled, and ports in use, leaked and
   available add up to the range.
   */
  lemma {:induction false} TablesSafe(pool: Pool, events: seq<Event>, lo: int, hi: int)
    requires Partition(pool, lo, hi) && pool.out == {} && FromOpened(pool, events) && NeverStale(pool, events)
    ensures var t := Run(pool, events);
            && TablesInv(t, lo, hi)
            && (forall c :: StillOpen(t, c) ==>
                  c.key in t.open && t.open[c.key] == c && c.key.localPort in t.pool.out)
            && (forall c, d :: StillOpen(t, c) && StillOpen(t, d) && c.key.localPort == d.key.localPort ==> c == d)
            && |t.pool.queue| + |t.waiting| + |t.open| + |t.leaked| == hi - lo + 1
  {
    hide Run, Partition, FromOpened, NeverStale;
    InOrderIffNeverStale(pool, events, lo, hi);
    OrderMeans(Run(pool, events), lo, hi);
  }

  lemma OrderMeans(t: Tables, lo: int, hi: int)
    requires TablesInv(t, lo, hi)
    ensures forall c :: StillOpen(t, c) ==>
              c.key in t.open && t.open[c.key] == c && c.key.localPort in t.pool.out && Live(t, c.key)
    ensures forall c, d :: StillOpen(t, c) && StillOpen(t, d) && c.key.localPort == d.key.localPort ==> c == d
    ensures |t.pool.queue| + |t.pool.out| == hi - lo + 1
  {
    forall c | StillOpen(t, c)
      ensures c.key in t.open && t.open[c.key] == c && c.key.localPort in t.pool.out && Live(t, c.key)
    {
      CloseFindsOwn(t, c);
    }
  }

  predicate Fails(t: Tables, e: Event) {
    Happens(t, e) && (e.DialAbandoned? || e.DialTimedOut?)
  }

  function FailedDials(pool: Pool, events: seq<Event>): nat {
    if events == [] then 0
    else
      var prefix := events[..|events| - 1];
      FailedDials(pool, prefix) + if Fails(Run(pool, prefix), events[|events| - 1]) then 1 else 0
  }

  lemma LeaksGrow(t: Tables, e: Event, lo: int, hi: int)
    requires TablesInv(t, lo, hi)
    ensures |Apply(t, e).leaked| == |t.leaked| + if Fails(t, e) then 1 else 0
  {
    hide Partition;
    if Fails(t, e) {
      hide Step;
      CountStep(t, e, lo, hi);
    }
  }

  /** No port of a failed dial ever comes back: the pool shrinks by exactly one port per failed dial. */
  lemma {:induction false} FailedDialsLeak(pool: Pool, events: seq<Event>, lo: int, hi: int)
    requires Partition(pool, lo, hi) && pool.out == {} && FromOpened(pool, events) && NeverStale(pool, events)
    ensures var t := Run(pool, events);
            && |t.leaked| == FailedDials(pool, events)
            && |t.pool.queue| + |t.waiting| + |t.open| == hi - lo + 1 - FailedDials(pool, events)
    decreases events
  {
    TablesSafe(pool, events, lo, hi);
    if events != [] {
      hide Apply, Fails, TablesInv;
      var prefix, e := events[..|events| - 1], events[|events| - 1];
      FailedDialsLeak(pool, prefix, lo, hi);
      TablesSafe(pool, prefix, lo, hi);
      LeaksGrow(Run(pool, prefix), e, lo, hi);
    }
  }

  /** The dials that ended with a filter error. */
  function AbandonedDials(pool: Pool, events: seq<Event>): set<Key> {
    if events == [] then {}
    else
      var prefix, e := events[..|events| - 1], events[|events| - 1];
      AbandonedDials(pool, prefix) + if e.DialAbandoned? && e.key in Run(pool, prefix).waiting then {e.key} else {}
  }

  /** The temporary entries left behind are exactly those of dials that ended with a filter error; none ever goes. */
  lemma {:induction false} AbandonedStay(pool: Pool, events: seq<Event>)
    ensures Run(pool, events).abandoned.Keys == AbandonedDials(pool, events)
    decreases events
  {
    if events != [] {
      AbandonedStay(pool, events[..|events| - 1]);
    }
  }

  /** Open the only port, close, open it again, and repeat the first close signal. */
  function ReusedKey(port: int, serverPort: int): seq<Event> {
    var k := Key(port, serverPort);
    var c := ClientConn(0, k);
    [Dial(serverPort), DialSucceeded(k), CloseSignal(c), Dial(serverPort), DialSucceeded(k), CloseSignal(c)]
  }

  lemma RunSix(pool: Pool, a: Event, b: Event, c: Event, d: Event, e: Event, f: Event)
    ensures Run(pool, [a, b, c, d, e]) == Apply(Apply(Apply(Apply(Apply(Initial(pool), a), b), c), d), e)
    ensures Run(pool, [a, b, c, d, e, f]) == Apply(Run(pool, [a, b, c, d, e]), f)
    ensures [a, b, c, d, e, f][..5] == [a, b, c, d, e]
  {
    hide Apply;
    assert Run(pool, []) == Initial(pool);
    assert [a][..0] == [] && Run(pool, [a]) == Apply(Run(pool, []), a);
    assert [a, b][..1] == [a] && Run(pool, [a, b]) == Apply(Run(pool, [a]), b);
    assert [a, b, c][..2] == [a, b] && Run(pool, [a, b, c]) == Apply(Run(pool, [a, b]), c);
    assert [a, b, c, d][..3] == [a, b, c] && Run(pool, [a, b, c, d]) == Apply(Run(pool, [a, b, c]), d);
    assert [a, b, c, d, e, f][..5] == [a, b, c, d, e];
    assert [a, b, c, d, e][..4] == [a, b, c, d] && Run(pool, [a, b, c, d, e]) == Apply(Run(pool, [a, b, c, d]), e);
  }

  /** No two close signals come from the same connection, as the guard in clearConnResource sees to. */
  predicate SignalsOnce(events: seq<Event>) {
    forall i, j :: 0 <= i < j < |events| && events[i].CloseSignal? && events[j].CloseSignal? ==>
      events[i].conn.id != events[j].conn.id
  }

  lemma {:induction false} ClosedHasSignalled(pool: Pool, events: seq<Event>, id: nat)
    requires id in Run(pool, events).closed
    ensures exists i :: 0 <= i < |events| && events[i].CloseSignal? && events[i].conn.id == id
    decreases events
  {
    if events != [] {
      var prefix := events[..|events| - 1];
      if id in Run(pool, prefix).closed {
        ClosedHasSignalled(pool, prefix, id);
        var i :| 0 <= i < |prefix| && prefix[i].CloseSignal? && prefix[i].conn.id == id;
        assert events[i] == prefix[i];
      } else {
        assert events[|events| - 1].CloseSignal? && events[|events| - 1].conn.id == id;
      }
    }
  }

  /** So as long as every connection signals once, no signal is stale and the tables stay in order. */
  lemma {:induction false} OnceIsNeverStale(pool: Pool, events: seq<Event>)
    requires SignalsOnce(events)
    ensures NeverStale(pool, events)
    decreases events
  {
    if events != [] {
      var prefix, e := events[..|events| - 1], events[|events| - 1];
      assert forall i :: 0 <= i < |prefix| ==> prefix[i] == events[i];
      OnceIsNeverStale(pool, prefix);
      if e.CloseSignal? && e.conn.id in Run(pool, prefix).closed {
        ClosedHasSignalled(pool, prefix, e.conn.id);
        assert false;
      }
    }
  }

  /**
   What the guard prevents: if a connection could signal twice, the second signal could take another
   connection out of the table and free the port it is using.
   */
  lemma StaleCloseWouldBreak(port: int, serverPort: int)
    ensures var pool := Pool([port], {});
            var second := ClientConn(1, Key(port, serverPort));
            var t := Run(pool, ReusedKey(port, serverPort));
            && Partition(pool, port, port)
            && second in t.dialed && second.id !in t.closed && second.key !in t.open && port in t.pool.queue
  {
    var pool, k := Pool([port], {}), Key(port, serverPort);
    var e := ReusedKey(port, serverPort);
    RunSix(pool, e[0], e[1], e[2], e[3], e[4], e[5]);
    assert e == [e[0], e[1], e[2], e[3], e[4], e[5]];
    var t1 := Apply(Initial(pool), e[0]);
    assert t1.waiting == map[k := ClientConn(0, k)] && t1.pool == Pool([], {port});
    var t2 := Apply(t1, e[1]);
    assert t2.open == map[k := ClientConn(0, k)] && t2.waiting == map[] && t2.dialed == {ClientConn(0, k)};
    var t3 := Apply(t2, e[2]);
    assert t3.open == map[] && t3.pool == Pool([port], {}) && t3.closed == {0};
    var t4 := Apply(t3, e[3]);
    assert t4.waiting == map[k := ClientConn(1, k)] && t4.pool == Pool([], {port});
    var t5 := Apply(t4, e[4]);
    assert t5.open == map[k := ClientConn(1, k)] && t5.dialed == {ClientConn(0, k), ClientConn(1, k)};
    var t6 := Apply(t5, e[5]);
    assert t6.open == map[] && t6.pool == Pool([port], {}) && t6.closed == {0};
  }

  // ----- The object -----

  /** The tables of PcpProtocolConnection on the client side; `nextId` stands for object identity. */
  class ProtocolConnection {
    const localPortPool: PortPool
    var tempConnectionMap: map<Key, ClientConn>
    var connectionMap: map<Key, ClientConn>
    var nextId: nat
    ghost var tables: Tables

    /** The fields are those of `tables`. */
    ghost predicate Represents()
      reads this, localPortPool, localPortPool.ports
    {
      && localPortPool.Valid() && tables.pool == localPortPool.View()
      && (forall k :: k in tables.waiting ==> k !in tables.abandoned)
      && tempConnectionMap == tables.abandoned + tables.waiting
      && connectionMap == tables.open && nextId == tables.nextId
    }

    /** And the tables are in order. */
    ghost predicate Valid()
      reads this, localPortPool, localPortPool.ports
    {
      Represents() && TablesInv(tables, localPortPool.minPort, localPortPool.maxPort)
    }

    constructor (pool: PortPool)
      requires pool.Valid() && pool.View().out == {} && Partition(pool.View(), pool.minPort, pool.maxPort)
      ensures Valid() && localPortPool == pool && tables == Initial(pool.View())
    {
      localPortPool, tempConnectionMap, connectionMap, nextId := pool, map[], map[], 0;
      tables := Initial(pool.View());
    }

    /** `dial` up to the SYN: take a port and file the connection as temporary. */
    method StartDial(serverPort: int, now: int) returns (key: Key, ok: bool)
      requires Valid()
      modifies this`tempConnectionMap, this`tables, this`nextId
      modifies localPortPool`readIdx, localPortPool`isEmpty, localPortPool`isFull, localPortPool`allocatedMap
      ensures Valid()
      ensures ok <==> Happens(old(tables), Dial(serverPort))
      ensures ok ==> tables == Step(old(tables), Dial(serverPort)) && key == Fresh(old(tables), serverPort).key
      ensures !ok ==> tables == old(tables)
    {
      hide TablesInv, Partition, PortPool.Queue, PortPool.View, PortPool.Valid, Step, Allocate, Fresh;
      key := Key(0, serverPort);
      ghost var before := tables;
      var port;
      port, ok := localPortPool.AllocatePort(now);
      if !ok {
        return;
      }
      key := Key(port, serverPort);
      DialFiles(before, serverPort, localPortPool.minPort, localPortPool.maxPort);
      tempConnectionMap := tempConnectionMap[key := ClientConn(nextId, key)];
      nextId := nextId + 1;
      tables := Step(before, Dial(serverPort));
    }

    /** The SYN-ACK has come: move the connection from the temporary to the open table. */
    method FinishDial(key: Key)
      requires Valid() && key in tables.waiting
      modifies this`tempConnectionMap, this`connectionMap, this`tables
      ensures Valid() && tables == Step(old(tables), DialSucceeded(key))
    {
      hide TablesInv, Partition;
      StepKeeps(tables, DialSucceeded(key), localPortPool.minPort, localPortPool.maxPort);
      var conn := tempConnectionMap[key];
      tempConnectionMap := tempConnectionMap - {key};
      connectionMap := connectionMap[key := conn];
      tables := Step(tables, DialSucceeded(key));
    }

    /** The two ways `dial` fails: a filter error leaves even the temporary entry; neither returns the port. */
    method FailDial(key: Key, filterError: bool)
      requires Valid() && key in tables.waiting
      modifies this`tempConnectionMap, this`tables
      ensures Valid()
      ensures tables == Step(old(tables), if filterError then DialAbandoned(key) else DialTimedOut(key))
    {
      hide TablesInv, Partition;
      ghost var e := if filterError then DialAbandoned(key) else DialTimedOut(key);
      StepKeeps(tables, e, localPortPool.minPort, localPortPool.maxPort);
      if !filterError {
        tempConnectionMap := tempConnectionMap - {key};
      }
      tables := Step(tables, e);
    }

    /**
     handleCloseConnection: a key that is not in the table is only reported; otherwise whatever lies under
     it is removed and the port goes back to the pool. The tables stay in order unless the signal is stale.
     */
    method HandleClose(c: ClientConn) returns (found: bool, returned: bool)
      requires Valid() && c in tables.dialed
      modifies this`connectionMap, this`tables
      modifies localPortPool`writeIdx, localPortPool`isEmpty, localPortPool`isFull, localPortPool`allocatedMap
      modifies localPortPool.ports
      ensures Represents() && tables == Step(old(tables), CloseSignal(c))
      ensures found <==> c.key in old(connectionMap)
      ensures returned <==> found
      ensures Valid() <==> !Stale(old(tables), CloseSignal(c))
    {
      hide TablesInv, Partition, Step, TakeBack, PortPool.Queue, Stale;
      ghost var before := tables;
      ApplyKeepsIff(before, CloseSignal(c), localPortPool.minPort, localPortPool.maxPort);
      CloseDoes(before, c);
      found, returned := c.key in connectionMap, false;
      if !found {
        return;
      }
      PortIsOut(before, c.key, localPortPool.minPort, localPortPool.maxPort);
      localPortPool.FlagMeansFull();
      TakeBackReturns(localPortPool.RingView(), c.key.localPort, localPortPool.minPort, localPortPool.maxPort);
      connectionMap := connectionMap - {c.key};
      returned := localPortPool.ReturnPort(c.key.localPort);
      tables := Step(before, CloseSignal(c));
    }
  }

  lemma CloseDoes(t: Tables, c: ClientConn)
    requires c in t.dialed
    ensures var after := Step(t, CloseSignal(c));
            && (c.key !in t.open ==> after == t)
            && (c.key in t.open ==>
                  && after.pool == Return(t.pool, c.key.localPort) && after.open == t.open - {c.key}
                  && after.waiting == t.waiting && after.abandoned == t.abandoned && after.nextId == t.nextId)
  {
  }

  lemma PortIsOut(t: Tables, k: Key, lo: int, hi: int)
    requires TablesInv(t, lo, hi) && k in t.open
    ensures k.localPort in t.pool.out && Partition(t.pool, lo, hi)
  {
    OpenIsConn(t, k);
  }

  /** The new entry goes into the temporary table, next to those already there. */
  lemma DialFiles(t: Tables, serverPort: int, lo: int, hi: int)
    requires TablesInv(t, lo, hi) && t.pool.queue != []
    requires forall k :: k in t.waiting ==> k !in t.abandoned
    ensures var after := Step(t, Dial(serverPort));
            var c := Fresh(t, serverPort);
            && TablesInv(after, lo, hi)
            && c == ClientConn(t.nextId, Key(t.pool.queue[0], serverPort))
            && (forall k :: k in after.waiting ==> k !in after.abandoned)
            && after.abandoned + after.waiting == (t.abandoned + t.waiting)[c.key := c]
            && after.open == t.open && after.nextId == t.nextId + 1 && after.pool == Allocate(t.pool)
  {
    FreshIsNew(t, Dial(serverPort), lo, hi);
    StepKeeps(t, Dial(serverPort), lo, hi);
    MergedInsert(t.abandoned, t.waiting, Fresh(t, serverPort));
    hide TablesInv, PortsInv, OwnedInv, IdsInv, Partition, Allocate, Live, ConnOf;
  }

  lemma MergedInsert(a: map<Key, ClientConn>, w: map<Key, ClientConn>, c: ClientConn)
    requires c.key !in a
    ensures a + w[c.key := c] == (a + w)[c.key := c]
  {
  }
}
