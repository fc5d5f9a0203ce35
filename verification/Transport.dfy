/** The transport as seen in one direction: the sender's tx_buf and completion
    queues, the messages under way, and the receiver's posted receives, rx_buf
    and completion queues. Messages are never lost, duplicated or damaged, but
    they may overtake each other, and the bytes of a send are read from tx_buf
    only when the message is transmitted. */
module Transport {

  /** The parts of a message that the program looks at: a client's address, or
      the 32-bit word at the front of a buffer. Buffers start zeroed. */
  datatype Payload = Zero | ClientName | Word(w: int)

  /** tx is the sender's context, which gets the completion. */
  datatype Msg = Msg(tx: nat, body: Payload)

  /** A send that was called but whose bytes have not been read. */
  datatype Ticket = Ticket(tx: nat, to: nat)

  /** One transmit context: sends without a completion, completions that are due,
      completions that wait in the queue; and, as history, sends called and
      completions read. */
  datatype TxQ = TxQ(open: int, owed: nat, ready: nat, calls: nat, reaped: nat)

  /** One receive context: messages on the wire to it, messages that arrived
      before a receive was posted, receives posted and not used, and completions
      in the queue; and, as history, messages addressed to it as they were when
      fi_send was called, messages received, calls of fi_recv and completions
      read. */
  datatype RxQ = RxQ(
    wire: multiset<Msg>, early: seq<Msg>, posted: nat, unread: nat,
    sent: seq<Msg>, log: seq<Msg>, posts: nat, taken: nat)

  /** last is the receive context that was written to rx_buf last, or -1. */
  datatype Link = Link(
    txBuf: Payload, rxBuf: Payload, pend: seq<Ticket>, tx: seq<TxQ>, rx: seq<RxQ>, last: int)

  /** When a send completes: once its message is in a receive buffer, or already
      once its bytes have been read. */
  datatype Level = OnDelivery | OnTransmit

  function NewLink(n: nat): Link {
    Link(Zero, Zero, [], seq(n, _ => TxQ(0, 0, 0, 0, 0)), seq(n, _ => RxQ(multiset{}, [], 0, 0, [], [], 0, 0)), -1)
  }

  // ----------------------------------------------------------------- operations

  function Owe(tx: seq<TxQ>, c: nat): seq<TxQ> {
    if c < |tx| then tx[c := tx[c].(owed := tx[c].owed + 1)] else tx
  }

  /** m goes into the buffer of a receive on context c, whose other parts are q. */
  function Deliver(level: Level, l: Link, c: nat, q: RxQ, m: Msg): Link
    requires c < |l.rx|
  {
    l.(rxBuf := m.body, last := c,
       rx := l.rx[c := q.(log := q.log + [m], unread := q.unread + 1)],
       tx := if level == OnDelivery then Owe(l.tx, m.tx) else l.tx)
  }

  /** fi_recv on context c. */
  function Post(level: Level, l: Link, c: nat): Link
    requires c < |l.rx|
  {
    var q := l.rx[c].(posts := l.rx[c].posts + 1);
    if q.early == [] then l.(rx := l.rx[c := q.(posted := q.posted + 1)])
    else Deliver(level, l, c, q.(early := q.early[1..]), q.early[0])
  }

  /** fi_send from transmit context c to receive context d. */
  function Send(l: Link, c: nat, d: nat): Link
    requires c < |l.tx| && d < |l.rx|
  {
    var t, q := l.tx[c], l.rx[d];
    l.(pend := l.pend + [Ticket(c, d)],
       tx := l.tx[c := t.(open := t.open + 1, calls := t.calls + 1)],
       rx := l.rx[d := q.(sent := q.sent + [Msg(c, l.txBuf)])])
  }

  /** The network reads the bytes of the kth waiting send. */
  function Transmit(level: Level, l: Link, k: nat): Link
    requires k < |l.pend| && l.pend[k].to < |l.rx|
  {
    var p := l.pend[k];
    var q := l.rx[p.to];
    l.(pend := l.pend[..k] + l.pend[k + 1..],
       tx := if level == OnTransmit then Owe(l.tx, p.tx) else l.tx,
       rx := l.rx[p.to := q.(wire := q.wire + multiset{Msg(p.tx, l.txBuf)})])
  }

  /** A message on the wire reaches receive context c. */
  function Arrive(level: Level, l: Link, c: nat, m: Msg): Link
    requires c < |l.rx| && m in l.rx[c].wire
  {
    var q := l.rx[c].(wire := l.rx[c].wire - multiset{m});
    if q.posted > 0 then Deliver(level, l, c, q.(posted := q.posted - 1), m)
    else l.(rx := l.rx[c := q.(early := q.early + [m])])
  }

  /** A completion that is due enters the queue of transmit context c. */
  function Complete(l: Link, c: nat): Link
    requires c < |l.tx| && l.tx[c].owed > 0
  {
    var t := l.tx[c];
    l.(tx := l.tx[c := t.(owed := t.owed - 1, open := t.open - 1, ready := t.ready + 1)])
  }

  /** fi_cq_read gives an entry of the transmit queue of context c. */
  function TakeTx(l: Link, c: nat): Link
    requires c < |l.tx| && l.tx[c].ready > 0
  {
    var t := l.tx[c];
    l.(tx := l.tx[c := t.(ready := t.ready - 1, reaped := t.reaped + 1)])
  }

  /** The same for the receive queue. */
  function TakeRx(l: Link, c: nat): Link
    requires c < |l.rx| && l.rx[c].unread > 0
  {
    var q := l.rx[c];
    l.(rx := l.rx[c := q.(unread := q.unread - 1, taken := q.taken + 1)])
  }

  // ------------------------------------------------------------------ invariant

  predicate Pending(l: Link, c: nat) {
    l.pend == [Ticket(c, c)]
  }

  function B(b: bool): nat {
    if b then 1 else 0
  }

  /** Where the only message of context c that is not received may be. */
  ghost predicate OnePlace(q: RxQ, pending: bool, m: Msg) {
    || (pending && q.wire == multiset{} && q.early == [])
    || (!pending && q.wire == multiset{m} && q.early == [])
    || (!pending && q.wire == multiset{} && q.early == [m])
  }

  /** A receive context whose messages come one at a time. */
  ghost predicate RxOk(q: RxQ, pending: bool, c: nat) {
    && |q.log| <= |q.sent| <= |q.log| + 1
    && q.log == q.sent[..|q.log|]
    && (forall m :: m in q.sent ==> m.tx == c)
    && (|q.sent| == |q.log| ==> !pending && q.wire == multiset{} && q.early == [])
    && (|q.sent| > |q.log| ==> OnePlace(q, pending, q.sent[|q.log|]))
    && (q.early != [] ==> q.posted == 0)
    && q.posts == q.posted + |q.log|
    && |q.log| == q.unread + q.taken
  }

  /** The sends of context c on which completions are due. */
  function Progress(level: Level, q: RxQ, pending: bool): int {
    if level == OnDelivery then |q.log| else |q.sent| - B(pending)
  }

  ghost predicate TxOk(level: Level, t: TxQ, q: RxQ, pending: bool) {
    && t.calls == |q.sent|
    && t.calls == t.open + t.ready + t.reaped
    && t.owed + t.ready + t.reaped == Progress(level, q, pending)
  }

  ghost predicate LaneOk(level: Level, l: Link, c: nat)
    requires c < |l.tx| && c < |l.rx|
  {
    && RxOk(l.rx[c], Pending(l, c), c)
    && TxOk(level, l.tx[c], l.rx[c], Pending(l, c))
    && (Pending(l, c) ==> l.rx[c].sent != [] && l.rx[c].sent[|l.rx[c].sent| - 1].body == l.txBuf)
  }

  ghost predicate BufOk(l: Link) {
    && -1 <= l.last < |l.rx|
    && (l.last == -1 ==> l.rxBuf == Zero && forall c :: 0 <= c < |l.rx| ==> l.rx[c].log == [])
    && (l.last >= 0 ==>
          var log := l.rx[l.last].log;
          log != [] && l.rxBuf == log[|log| - 1].body)
  }

  /** The link between two programs that have at most one send without a
      completion at a time and send from context c to context c only. */
  ghost predicate LinkOk(level: Level, l: Link, n: nat) {
    && |l.tx| == |l.rx| == n
    && (l.pend == [] || exists c: nat :: c < n && Pending(l, c))
    && (forall c: nat :: c < n ==> LaneOk(level, l, c))
    && BufOk(l)
  }

  // ------------------------------------------- the operations keep the invariant

  lemma NewLinkOk(level: Level, n: nat)
    ensures LinkOk(level, NewLink(n), n)
  {
    var l := NewLink(n);
    forall c: nat | c < n ensures LaneOk(level, l, c) {
      assert l.rx[c] == RxQ(multiset{}, [], 0, 0, [], [], 0, 0) && l.tx[c] == TxQ(0, 0, 0, 0, 0);
      assert !Pending(l, c);
    }
    assert BufOk(l) by {
      assert forall c :: 0 <= c < n ==> l.rx[c].log == [];
    }
  }

  /** Changing lane c and not the sends or buffers behind the others. */
  lemma OneLane(level: Level, l: Link, l': Link, n: nat, c: nat)
    requires LinkOk(level, l, n) && c < n
    requires |l'.tx| == |l'.rx| == n
    requires forall d: nat :: d < n && d != c ==> l'.tx[d] == l.tx[d] && l'.rx[d] == l.rx[d]
    requires l'.pend == l.pend || (l'.pend == [] && Pending(l, c)) || (l.pend == [] && Pending(l', c))
    requires l'.txBuf == l.txBuf
    requires LaneOk(level, l', c)
    requires BufOk(l')
    ensures LinkOk(level, l', n)
  {
    if l'.pend == l.pend != [] {
      var d: nat :| d < n && Pending(l, d);
      assert Pending(l', d);
    }
    forall d: nat | d < n ensures LaneOk(level, l', d) {
      assert LaneOk(level, l, d);
      if d != c {
        assert Pending(l', d) <==> Pending(l, d) by {
          assert Pending(l, c) ==> l.pend[0] == Ticket(c, c);
          assert Pending(l', c) ==> l'.pend[0] == Ticket(c, c);
        }
      }
    }
  }

  lemma DeliverOk(level: Level, l: Link, n: nat, c: nat, q: RxQ, m: Msg)
    requires LinkOk(level, l, n) && c < n
    requires |q.sent| == |q.log| + 1 && m == q.sent[|q.log|]
    requires q.wire == multiset{} && q.early == [] && !Pending(l, c)
    requires q.log == l.rx[c].log && q.sent == l.rx[c].sent && q.unread == l.rx[c].unread && q.taken == l.rx[c].taken
    requires q.posts == q.posted + |q.log| + 1
    ensures LinkOk(level, Deliver(level, l, c, q, m), n)
  {
    var l' := Deliver(level, l, c, q, m);
    assert LaneOk(level, l, c);
    assert m in q.sent;
    assert m.tx == c;
    assert q.sent == q.log + [m];
    assert l'.rx[c].log == q.sent;
    OneLane(level, l, l', n, c);
  }

  lemma PostOk(level: Level, l: Link, n: nat, c: nat)
    requires LinkOk(level, l, n) && c < n
    ensures LinkOk(level, Post(level, l, c), n)
  {
    assert LaneOk(level, l, c);
    var q := l.rx[c].(posts := l.rx[c].posts + 1);
    if q.early == [] {
      OneLane(level, l, Post(level, l, c), n, c);
    } else {
      DeliverOk(level, l, n, c, q.(early := q.early[1..]), q.early[0]);
    }
  }

  lemma SendOk(level: Level, l: Link, n: nat, c: nat)
    requires LinkOk(level, l, n) && c < n
    requires l.pend == [] && |l.rx[c].sent| == |l.rx[c].log|
    ensures LinkOk(level, Send(l, c, c), n)
  {
    assert LaneOk(level, l, c);
    var l' := Send(l, c, c);
    assert Pending(l', c);
    OneLane(level, l, l', n, c);
  }

  lemma TransmitOk(level: Level, l: Link, n: nat, k: nat)
    requires LinkOk(level, l, n) && k < |l.pend|
    ensures k == 0 && exists c: nat :: c < n && Pending(l, c)
    ensures LinkOk(level, Transmit(level, l, k), n)
  {
    var c: nat :| c < n && Pending(l, c);
    assert LaneOk(level, l, c);
    var l' := Transmit(level, l, k);
    assert l'.pend == [];
    var q := l.rx[c];
    var m := q.sent[|q.log|];
    assert m in q.sent;
    assert m == Msg(c, l.txBuf);
    OneLane(level, l, l', n, c);
  }

  lemma ArriveOk(level: Level, l: Link, n: nat, c: nat, m: Msg)
    requires LinkOk(level, l, n) && c < n && m in l.rx[c].wire
    ensures LinkOk(level, Arrive(level, l, c, m), n)
  {
    assert LaneOk(level, l, c);
    var q := l.rx[c];
    assert q.wire == multiset{m} && m == q.sent[|q.log|];
    var q' := q.(wire := q.wire - multiset{m});
    if q'.posted > 0 {
      DeliverOk(level, l, n, c, q'.(posted := q'.posted - 1), m);
    } else {
      OneLane(level, l, Arrive(level, l, c, m), n, c);
    }
  }

  lemma CompleteOk(level: Level, l: Link, n: nat, c: nat)
    requires LinkOk(level, l, n) && c < n && l.tx[c].owed > 0
    ensures LinkOk(level, Complete(l, c), n)
  {
    assert LaneOk(level, l, c);
    OneLane(level, l, Complete(l, c), n, c);
  }

  lemma TakeTxOk(level: Level, l: Link, n: nat, c: nat)
    requires LinkOk(level, l, n) && c < n && l.tx[c].ready > 0
    ensures LinkOk(level, TakeTx(l, c), n)
  {
    assert LaneOk(level, l, c);
    OneLane(level, l, TakeTx(l, c), n, c);
  }

  lemma TakeRxOk(level: Level, l: Link, n: nat, c: nat)
    requires LinkOk(level, l, n) && c < n && l.rx[c].unread > 0
    ensures LinkOk(level, TakeRx(l, c), n)
  {
    assert LaneOk(level, l, c);
    OneLane(level, l, TakeRx(l, c), n, c);
  }

  /** Writing tx_buf is harmless while no send waits to be read. */
  lemma WriteOk(level: Level, l: Link, n: nat, p: Payload)
    requires LinkOk(level, l, n) && l.pend == []
    ensures LinkOk(level, l.(txBuf := p), n)
  {
    forall c: nat | c < n ensures LaneOk(level, l.(txBuf := p), c) {
      assert LaneOk(level, l, c);
    }
  }
}
