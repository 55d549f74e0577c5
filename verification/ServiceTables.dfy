/**
 The server-side tables of one service (lib/service.go): a SYN files a temporary connection under the
 client's key, `Accept` moves it to the open table when its handshake has completed, a close removes it.
 */
module ServiceTables {

  /** A connection object; the key stands for "client address:client port". */
  datatype ServerConn = ServerConn(id: nat, key: int)

  /**
   tempConnMap, connectionMap and the signals waiting on newConnChannel. `done` are the connections whose
   handshake goroutine has ended, `accepted` those Accept has returned, in order, `closed` those whose close
   signal has been handled; all are history.
   */
  datatype Tables = Tables(
    temp: map<int, ServerConn>, open: map<int, ServerConn>, signals: seq<ServerConn>,
    done: set<ServerConn>, failed: set<ServerConn>, accepted: seq<ServerConn>, closed: set<ServerConn>, nextId: nat)

  datatype Event =
    | SynArrives(key: int)
    | HandshakeCompletes(conn: ServerConn)
    | HandshakeFails(conn: ServerConn)
    | AcceptNext
    | Closes(conn: ServerConn)

  /** handleSynPacket: a key in either table is ignored. */
  function HandleSyn(t: Tables, key: int): Tables {
    if key in t.open || key in t.temp then t
    else t.(temp := t.temp[key := ServerConn(t.nextId, key)], nextId := t.nextId + 1)
  }

  /** Accept for the next signal: unknown keys are skipped. */
  function Accept(t: Tables): Tables
    requires t.signals != []
  {
    var c := t.signals[0];
    var rest := t.(signals := t.signals[1..]);
    if c.key !in t.temp then rest
    else rest.(temp := t.temp - {c.key}, open := t.open[c.key := c], accepted := t.accepted + [c])
  }

  /** removeConnectionMapEntry on the open table: whatever lies under the key goes. */
  function Remove(t: Tables, c: ServerConn): Tables {
    t.(open := t.open - {c.key}, closed := t.closed + {c})
  }

  /** The connection is the temporary entry of its key. */
  predicate Filed(t: Tables, c: ServerConn) {
    c.key in t.temp && t.temp[c.key] == c
  }

  /** The handshake goroutine of a temporary connection ends once, one way or the other. */
  predicate Pending(t: Tables, c: ServerConn) {
    Filed(t, c) && c !in t.done && c !in t.failed
  }

  function Step(t: Tables, e: Event): Tables {
    match e
    case SynArrives(key) => HandleSyn(t, key)
    case HandshakeCompletes(c) =>
      if Pending(t, c) then t.(signals := t.signals + [c], done := t.done + {c}) else t
    case HandshakeFails(c) => if Pending(t, c) then t.(failed := t.failed + {c}) else t
    case AcceptNext => if t.signals == [] then t else Accept(t)
    case Closes(c) => if c in t.accepted then Remove(t, c) else t
  }

  function Run(events: seq<Event>): Tables {
    if events == [] then Tables(map[], map[], [], {}, {}, [], {}, 0)
    else Step(Run(events[..|events| - 1]), events[|events| - 1])
  }

  /** The tables are disjoint, and entries lie under their own key. */
  ghost predicate TableInv(t: Tables) {
    && (forall k :: k in t.temp ==> t.temp[k].key == k && t.temp[k].id < t.nextId && k !in t.open)
    && (forall k :: k in t.open ==> t.open[k].key == k && t.open[k] in t.accepted && t.open[k] !in t.closed)
    && (forall c :: c in t.closed ==> c in t.accepted)
    && (forall c :: c in t.failed ==> c !in t.done && Filed(t, c))
    && (forall c :: c in t.done ==> c.id < t.nextId)
  }

  /** Every waiting signal belongs to a temporary entry, once. */
  ghost predicate SignalInv(t: Tables) {
    && (forall i :: 0 <= i < |t.signals| ==> Filed(t, t.signals[i]) && t.signals[i] in t.done)
    && (forall i, j :: 0 <= i < j < |t.signals| ==> t.signals[i] != t.signals[j])
  }

  ghost predicate AcceptInv(t: Tables) {
    && (forall c :: c in t.accepted ==> c in t.done && c.id < t.nextId && !Filed(t, c))
    && (forall i, j :: 0 <= i < j < |t.accepted| ==> t.accepted[i] != t.accepted[j])
  }

  ghost predicate Inv(t: Tables) {
    TableInv(t) && SignalInv(t) && AcceptInv(t)
  }

  lemma AcceptKeeps(t: Tables)
    requires Inv(t) && t.signals != []
    ensures Inv(Accept(t)) && Accept(t).accepted == t.accepted + [t.signals[0]]
  {
    var c := t.signals[0];
    var after := Accept(t);
    assert Filed(t, c) && c !in t.accepted;
    assert SignalInv(after) by {
      assert forall i :: 0 <= i < |after.signals| ==> after.signals[i] == t.signals[i + 1];
    }
    assert forall d :: d in after.accepted <==> d in t.accepted || d == c;
    assert forall d :: Filed(after, d) <==> Filed(t, d) && d != c;
  }

  lemma StepTables(t: Tables, e: Event)
    requires Inv(t) && !e.AcceptNext?
    ensures TableInv(Step(t, e))
  {
  }

  lemma StepSignals(t: Tables, e: Event)
    requires Inv(t) && !e.AcceptNext?
    ensures SignalInv(Step(t, e))
  {
  }

  lemma StepAccepts(t: Tables, e: Event)
    requires Inv(t) && !e.AcceptNext?
    ensures AcceptInv(Step(t, e))
  {
  }

  lemma StepKeeps(t: Tables, e: Event)
    requires Inv(t)
    ensures Inv(Step(t, e))
  {
    hide TableInv, SignalInv, AcceptInv;
    if e.AcceptNext? {
      if t.signals != [] {
        AcceptKeeps(t);
      }
    } else {
      StepTables(t, e);
      StepSignals(t, e);
      StepAccepts(t, e);
    }
  }

  lemma {:induction false} RunKeeps(events: seq<Event>)
    ensures Inv(Run(events))
    decreases events
  {
    if events != [] {
      hide Inv, Step;
      RunKeeps(events[..|events| - 1]);
      StepKeeps(Run(events[..|events| - 1]), events[|events| - 1]);
    }
  }

  /**
   In every run: no key is in both tables, Accept returns each connection once and only after its
   handshake, it skips no signal, and every open connection is one that Accept returned.
   */
  lemma ServiceSafe(events: seq<Event>)
    ensures var t := Run(events);
            && (forall k :: k in t.temp ==> k !in t.open)
            && (forall i, j :: 0 <= i < j < |t.accepted| ==> t.accepted[i] != t.accepted[j])
            && (forall i :: 0 <= i < |t.accepted| ==> t.accepted[i] in t.done && t.accepted[i] !in t.failed)
            && (forall k :: k in t.open ==> t.open[k] in t.accepted)
            && (t.signals != [] ==> Accept(t).accepted == t.accepted + [t.signals[0]])
  {
    RunKeeps(events);
    if Run(events).signals != [] {
      AcceptKeeps(Run(events));
    }
  }

  // ----- From SYN to Accept -----

  /** A SYN files a new temporary connection exactly if its key is in neither table, and changes nothing else. */
  lemma {:induction false} SynFilesIff(events: seq<Event>, key: int)
    ensures var t, after := Run(events), HandleSyn(Run(events), key);
            && (after != t <==> key !in t.temp && key !in t.open)
            && (after != t ==>
                  && key in after.temp && after.temp[key].key == key
                  && after.temp[key] !in t.done && after.temp[key] !in t.failed && after.temp[key] !in t.accepted
                  && after.temp.Keys == t.temp.Keys + {key} && after.open == t.open && after.signals == t.signals)
  {
    RunKeeps(events);
    hide SignalInv;
    var t := Run(events);
    if key !in t.temp && key !in t.open {
      assert HandleSyn(t, key).temp[key].id == t.nextId;
    }
  }

  /** A new key goes all the way: SYN, end of the handshake, Accept when the signals before it have been taken. */
  lemma {:induction false} NewKeyIsServed(events: seq<Event>, key: int)
    requires var t := Run(events); key !in t.temp && key !in t.open && t.signals == []
    ensures var t := Run(events);
            var c := ServerConn(t.nextId, key);
            var after := Step(Step(Step(t, SynArrives(key)), HandshakeCompletes(c)), AcceptNext);
            after.open == t.open[key := c] && after.temp == t.temp && after.accepted == t.accepted + [c]
  {
    RunKeeps(events);
    var t := Run(events);
    var c := ServerConn(t.nextId, key);
    hide Run;
    var t1 := Step(t, SynArrives(key));
    assert Pending(t1, c);
    var t2 := Step(t1, HandshakeCompletes(c));
    assert t2.signals == [c] && t2.temp - {key} == t.temp;
  }

  /** The connections whose handshake has completed, in the order of completion. */
  function Completed(events: seq<Event>): seq<ServerConn> {
    if events == [] then []
    else
      var prefix, e := events[..|events| - 1], events[|events| - 1];
      Completed(prefix) + if e.HandshakeCompletes? && Pending(Run(prefix), e.conn) then [e.conn] else []
  }

  /** Accept returns connections in the order in which their handshakes completed. */
  lemma {:induction false} AcceptsInOrder(events: seq<Event>)
    ensures Run(events).accepted + Run(events).signals == Completed(events)
    decreases events
  {
    if events != [] {
      hide Inv, Pending, Step;
      var prefix, e := events[..|events| - 1], events[|events| - 1];
      AcceptsInOrder(prefix);
      RunKeeps(prefix);
      OrderStep(Run(prefix), e);
    }
  }

  lemma OrderStep(t: Tables, e: Event)
    requires Inv(t)
    ensures Step(t, e).accepted + Step(t, e).signals
            == t.accepted + t.signals + if e.HandshakeCompletes? && Pending(t, e.conn) then [e.conn] else []
  {
    if e.AcceptNext? && t.signals != [] {
      AcceptKeeps(t);
      assert t.signals == [t.signals[0]] + t.signals[1..];
    }
    hide Inv, Pending;
  }

  // ----- Repeated close signals -----

  /** A connection Accept has returned lies in the open table until its close signal has been handled. */
  ghost predicate OpenInv(t: Tables) {
    forall c :: c in t.accepted && c !in t.closed ==> c.key in t.open && t.open[c.key] == c
  }

  /** A repeated close signal whose key is open again, for another connection. */
  predicate Stale(t: Tables, e: Event) {
    e.Closes? && e.conn in t.closed && e.conn.key in t.open
  }

  predicate NeverStale(events: seq<Event>) {
    events != [] ==>
      NeverStale(events[..|events| - 1]) && !Stale(Run(events[..|events| - 1]), events[|events| - 1])
  }

  /** After every event the open table held every connection accepted and not closed. */
  ghost predicate AlwaysOpen(events: seq<Event>) {
    OpenInv(Run(events)) && (events != [] ==> AlwaysOpen(events[..|events| - 1]))
  }

  lemma AcceptOpens(t: Tables)
    requires Inv(t) && OpenInv(t) && t.signals != []
    ensures OpenInv(Accept(t))
  {
    var c := t.signals[0];
    assert Filed(t, c);
    forall d | d in Accept(t).accepted && d !in t.closed ensures d.key in Accept(t).open && Accept(t).open[d.key] == d {
      assert d in t.accepted || d == c;
    }
  }

  lemma {:induction false} StepOpenIff(t: Tables, e: Event)
    requires Inv(t) && OpenInv(t)
    ensures OpenInv(Step(t, e)) <==> !Stale(t, e)
  {
    if e.AcceptNext? && t.signals != [] {
      AcceptOpens(t);
    } else if Stale(t, e) {
      var other := t.open[e.conn.key];
      assert other in Step(t, e).accepted && other !in Step(t, e).closed && other.key !in Step(t, e).open;
    } else if e.Closes? && e.conn in t.accepted {
      forall d | d in t.accepted && d !in Step(t, e).closed ensures d.key != e.conn.key && t.open[d.key] == d {
        assert d.key in t.open;
      }
    }
  }

  /** The open table is right in every state of a run if and only if no close signal in it is stale. */
  lemma {:induction false} OpenIffNeverStale(events: seq<Event>)
    ensures AlwaysOpen(events) <==> NeverStale(events)
    decreases events
  {
    hide Step, Inv, Stale, OpenInv;
    if events == [] {
      NothingAccepted();
    } else {
      var prefix := events[..|events| - 1];
      OpenIffNeverStale(prefix);
      RunKeeps(prefix);
      if NeverStale(prefix) {
        StepOpenIff(Run(prefix), events[|events| - 1]);
      }
    }
  }

  lemma NothingAccepted()
    ensures OpenInv(Run([]))
  {
  }

  // ----- Failed handshakes -----

  lemma FailedStays(t: Tables, e: Event, c: ServerConn)
    requires c in t.failed
    ensures c in Step(t, e).failed
  {
  }

  /** A handshake that fails while it is pending blocks its key: whatever follows, no SYN of it is answered. */
  lemma {:induction false} FailureBlocks(events: seq<Event>, more: seq<Event>, c: ServerConn)
    requires Pending(Run(events), c)
    ensures var t := Run(events + [HandshakeFails(c)] + more);
            c in t.failed && Filed(t, c) && HandleSyn(t, c.key) == t
  {
    var fails := events + [HandshakeFails(c)];
    assert fails[..|events|] == events;
    assert c in Run(fails).failed;
    FailedKeyBlocked(fails, more, c);
  }

  /** The entry of a failed handshake is never removed, so its key is blocked for good. */
  lemma {:induction false} FailedKeyBlocked(events: seq<Event>, more: seq<Event>, c: ServerConn)
    requires c in Run(events).failed
    ensures var t := Run(events + more);
            c in t.failed && Filed(t, c) && HandleSyn(t, c.key) == t
    decreases more
  {
    RunKeeps(events + more);
    hide SignalInv, AcceptInv, Step;
    if more == [] {
      assert events + more == events;
    } else {
      var prefix := more[..|more| - 1];
      FailedKeyBlocked(events, prefix, c);
      assert (events + more)[..|events + more| - 1] == events + prefix;
      FailedStays(Run(events + prefix), more[|more| - 1], c);
    }
  }
}
