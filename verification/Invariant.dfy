/** What holds in every reachable state of client, server and network. */
module Invariant {
  import opened Transport
  import opened Protocol
  import opened Address

  // ------------------------------- what each program has done when it stands at pc

  predicate ClientPc(pc: Pc, n: nat) {
    match pc
    case Binding(i) => i < n
    case Writing(i) => i < n
    case Sending(i) => i < n
    case AwaitingSent(i) => i < n
    case InsertingPeer | Naming | SendingName | AwaitingReply | FillingAddrs | Reposting | AwaitingTx | Done => true
    case _ => false
  }

  predicate ServerPc(pc: Pc, n: nat) {
    match pc
    case Binding(i) => i < n
    case AwaitingData(i) => i < n
    case Comparing(i) => i < n
    case AwaitingName | InsertingPeer | Replying | FillingAddrs | Reposting | AwaitingTx | Done => true
    case _ => false
  }

  predicate InTest(pc: Pc) {
    pc.Writing? || pc.Sending? || pc.AwaitingSent? || pc.AwaitingData? || pc.Comparing? || pc.Done?
  }

  predicate Reposted(pc: Pc) {
    pc.AwaitingTx? || InTest(pc)
  }

  /** The wait for the peer's first message is over, in the client. */
  predicate ReplyTaken(pc: Pc) {
    pc.FillingAddrs? || pc.Reposting? || Reposted(pc)
  }

  predicate NameSent(pc: Pc) {
    pc.AwaitingReply? || ReplyTaken(pc)
  }

  predicate ReplySent(pc: Pc) {
    pc.FillingAddrs? || pc.Reposting? || Reposted(pc)
  }

  predicate NameTaken(pc: Pc) {
    pc.InsertingPeer? || pc.Replying? || ReplySent(pc)
  }

  function DataSent(pc: Pc, n: nat): nat {
    match pc
    case Writing(i) => i
    case Sending(i) => i
    case AwaitingSent(i) => i + 1
    case Done => n
    case _ => 0
  }

  function DataReaped(pc: Pc, n: nat): nat {
    match pc
    case Writing(i) => i
    case Sending(i) => i
    case AwaitingSent(i) => i
    case Done => n
    case _ => 0
  }

  function DataTaken(pc: Pc, n: nat): nat {
    match pc
    case AwaitingData(i) => i
    case Comparing(i) => i + 1
    case Done => n
    case _ => 0
  }

  function Compared(pc: Pc, n: nat): nat {
    match pc
    case AwaitingData(i) => i
    case Comparing(i) => i
    case Done => n
    case _ => 0
  }

  function Posts(pc: Pc, c: nat): nat {
    (if pc.Binding? then B(c < pc.i) else 1) + B(c == 0 && Reposted(pc))
  }

  /** The messages the client has sent to receive context c. */
  function UpSent(pc: Pc, n: nat, c: nat): seq<Msg> {
    (if c == 0 && NameSent(pc) then [Msg(0, ClientName)] else [])
    + (if c < DataSent(pc, n) then [Msg(c, Word(DATA + c))] else [])
  }

  function UpReaped(pc: Pc, n: nat, c: nat): nat {
    B(c == 0 && InTest(pc)) + B(c < DataReaped(pc, n))
  }

  function UpTaken(pc: Pc, n: nat, c: nat): nat {
    B(c == 0 && NameTaken(pc)) + B(c < DataTaken(pc, n))
  }

  function DownSent(pc: Pc, c: nat): seq<Msg> {
    if c == 0 && ReplySent(pc) then [Msg(0, Zero)] else []
  }

  // ------------------------------------------------------------- the invariant

  ghost predicate UpLane(n: nat, l: Link, client: Pc, server: Pc, c: nat)
    requires c < |l.rx| && c < |l.tx|
  {
    && l.rx[c].sent == UpSent(client, n, c)
    && l.tx[c].reaped == UpReaped(client, n, c)
    && l.rx[c].posts == Posts(server, c)
    && l.rx[c].taken == UpTaken(server, n, c)
  }

  ghost predicate UpLedger(n: nat, l: Link, client: Pc, server: Pc)
    requires |l.rx| == |l.tx| == n
  {
    forall c: nat :: c < n ==> UpLane(n, l, client, server, c)
  }

  ghost predicate DownLane(l: Link, client: Pc, server: Pc, c: nat)
    requires c < |l.rx| && c < |l.tx|
  {
    && l.rx[c].sent == DownSent(server, c)
    && l.tx[c].reaped == B(c == 0 && InTest(server))
    && l.rx[c].posts == Posts(client, c)
    && l.rx[c].taken == B(c == 0 && ReplyTaken(client))
  }

  ghost predicate DownLedger(n: nat, l: Link, client: Pc, server: Pc)
    requires |l.rx| == |l.tx| == n
  {
    forall c: nat :: c < n ==> DownLane(l, client, server, c)
  }

  predicate PeerKnown(pc: Pc) {
    !pc.Binding? && !pc.InsertingPeer? && !pc.AwaitingName?
  }

  ghost predicate ProgramsOk(cfg: Cfg, s: State) {
    && (PeerKnown(s.client.pc) ==> s.client.peer == cfg.serverHandle)
    && (PeerKnown(s.server.pc) ==> s.server.peer == cfg.clientHandle)
    && (s.client.pc.Reposting? || Reposted(s.client.pc) ==> s.client.addrs == Addrs(cfg, cfg.serverHandle))
    && (s.client.pc.SendingName? ==> s.up.txBuf == ClientName)
    && (s.client.pc.Sending? ==> s.up.txBuf == Word(DATA + s.client.pc.i))
    && s.down.txBuf == Zero
  }

  /** The data message of context c has been received. */
  predicate DataIn(l: Link, c: nat)
    requires c < |l.rx|
  {
    |l.rx[c].log| > B(c == 0)
  }

  /** Data goes into the buffer after the address; if sends complete on delivery,
      it goes there in the order of the contexts. */
  ghost predicate OrderOk(level: Level, l: Link) {
    && -1 <= l.last < |l.rx|
    && (level == OnDelivery ==> forall c: nat :: c < |l.rx| && l.rx[c].log != [] ==> c <= l.last)
    && (forall c: nat :: c < |l.rx| && DataIn(l, c) ==> l.last >= 0 && DataIn(l, l.last))
  }

  /** What a comparison for context i can find in rx_buf. */
  predicate SeenOk(cfg: Cfg, i: nat, p: Payload) {
    p.Word? && 0 <= p.w - DATA < cfg.n && (cfg.level == OnDelivery ==> i <= p.w - DATA)
  }

  ghost predicate Inv(cfg: Cfg, s: State) {
    && ValidCfg(cfg)
    && ClientPc(s.client.pc, cfg.n) && ServerPc(s.server.pc, cfg.n)
    && LinkOk(cfg.level, s.up, cfg.n) && LinkOk(cfg.level, s.down, cfg.n)
    && UpLedger(cfg.n, s.up, s.client.pc, s.server.pc)
    && DownLedger(cfg.n, s.down, s.client.pc, s.server.pc)
    && ProgramsOk(cfg, s)
    && OrderOk(cfg.level, s.up)
    && |s.seen| == Compared(s.server.pc, cfg.n)
    && (forall i: nat :: i < |s.seen| ==> SeenOk(cfg, i, s.seen[i]))
  }

  lemma Same(cfg: Cfg, s: State, s': State)
    requires Inv(cfg, s) && s == s'
    ensures Inv(cfg, s')
  {
  }

  lemma InitInv(cfg: Cfg)
    requires ValidCfg(cfg)
    ensures Inv(cfg, Init(cfg))
  {
    NewLinkOk(cfg.level, cfg.n);
  }

  // ---------------------------------------------------------------- consequences

  /** Everything the invariant says about context c. */
  lemma Lanes(cfg: Cfg, s: State, c: nat)
    requires Inv(cfg, s) && c < cfg.n
    ensures LaneOk(cfg.level, s.up, c) && UpLane(cfg.n, s.up, s.client.pc, s.server.pc, c)
    ensures LaneOk(cfg.level, s.down, c) && DownLane(s.down, s.client.pc, s.server.pc, c)
  {
  }

  /** Causality across the links: who has read an answer was answered. */
  lemma Causality(cfg: Cfg, s: State)
    requires Inv(cfg, s)
    ensures ReplyTaken(s.client.pc) ==> ReplySent(s.server.pc) && |s.down.rx[0].log| == 1
    ensures NameTaken(s.server.pc) ==> NameSent(s.client.pc) && |s.up.rx[0].log| >= 1
    ensures DataSent(s.client.pc, cfg.n) > 0 ==> ReplyTaken(s.client.pc)
  {
    Lanes(cfg, s, 0);
  }

  /** A lane whose completions were all read is empty. */
  lemma ReapedLane(cfg: Cfg, l: Link, c: nat)
    requires LinkOk(cfg.level, l, cfg.n) && c < cfg.n
    requires l.tx[c].reaped == |l.rx[c].sent|
    ensures !Pending(l, c) && l.tx[c].open == 0 && l.tx[c].owed == 0 && l.tx[c].ready == 0
    ensures cfg.level == OnDelivery ==> |l.rx[c].log| == |l.rx[c].sent|
  {
    assert LaneOk(cfg.level, l, c);
  }

  /** When all completions were read, no send waits to be read. */
  lemma Quiet(cfg: Cfg, l: Link)
    requires LinkOk(cfg.level, l, cfg.n)
    requires forall c: nat :: c < cfg.n ==> l.tx[c].reaped == |l.rx[c].sent|
    ensures l.pend == []
    ensures forall c: nat :: c < cfg.n ==> l.tx[c].open == 0
  {
    forall c: nat | c < cfg.n ensures !Pending(l, c) && l.tx[c].open == 0 {
      ReapedLane(cfg, l, c);
    }
  }

  /** The client has read the completion of every send it made. */
  predicate ClientIdle(pc: Pc) {
    !(pc.AwaitingReply? || pc.FillingAddrs? || pc.Reposting? || pc.AwaitingTx? || pc.AwaitingSent?)
  }

  lemma ClientQuiet(cfg: Cfg, s: State)
    requires Inv(cfg, s) && ClientIdle(s.client.pc)
    ensures s.up.pend == [] && forall c: nat :: c < cfg.n ==> s.up.tx[c].open == 0
  {
    forall c: nat | c < cfg.n ensures s.up.tx[c].reaped == |s.up.rx[c].sent| {
      Lanes(cfg, s, c);
    }
    Quiet(cfg, s.up);
  }

  lemma ServerQuiet(cfg: Cfg, s: State)
    requires Inv(cfg, s) && (!ReplySent(s.server.pc) || InTest(s.server.pc))
    ensures s.down.pend == [] && forall c: nat :: c < cfg.n ==> s.down.tx[c].open == 0
  {
    forall c: nat | c < cfg.n ensures s.down.tx[c].reaped == |s.down.rx[c].sent| {
      Lanes(cfg, s, c);
    }
    Quiet(cfg, s.down);
  }

  /** Before the reply nothing but the address is under way to the server, and
      rx_buf holds it as soon as it has been received. */
  lemma AddressFirst(cfg: Cfg, s: State)
    requires Inv(cfg, s) && !ReplySent(s.server.pc)
    ensures forall c: nat :: c < cfg.n ==> !DataIn(s.up, c)
    ensures s.up.rx[0].log != [] ==> s.up.rxBuf == ClientName
  {
    Causality(cfg, s);
    assert DataSent(s.client.pc, cfg.n) == 0;
    forall c: nat | c < cfg.n ensures !DataIn(s.up, c) && (c > 0 ==> s.up.rx[c].log == []) {
      Lanes(cfg, s, c);
    }
    Lanes(cfg, s, 0);
  }

  /** What a receive of a message of lane k finds in the other lanes. */
  lemma ArrivalOrder(cfg: Cfg, s: State, k: nat)
    requires Inv(cfg, s) && k < cfg.n && |s.up.rx[k].sent| > |s.up.rx[k].log|
    ensures cfg.level == OnDelivery ==> forall c: nat :: c < cfg.n && s.up.rx[c].log != [] ==> c <= k
    ensures |s.up.rx[k].log| + 1 > B(k == 0) || forall c: nat :: c < cfg.n ==> !DataIn(s.up, c)
  {
    Lanes(cfg, s, k);
    if cfg.level == OnDelivery {
      forall c: nat | c < cfg.n && s.up.rx[c].log != [] ensures c <= k {
        Lanes(cfg, s, c);
        if c > k {
          ReapedLane(cfg, s.up, k);
        }
      }
    }
    if k == 0 && s.up.rx[0].log == [] {
      Causality(cfg, s);
      AddressFirst(cfg, s);
    }
  }

  lemma DeliverOrder(cfg: Cfg, s: State, k: nat, q: RxQ, m: Msg)
    requires Inv(cfg, s) && k < cfg.n && |s.up.rx[k].sent| > |s.up.rx[k].log|
    requires q.log == s.up.rx[k].log
    ensures OrderOk(cfg.level, Deliver(cfg.level, s.up, k, q, m))
  {
    ArrivalOrder(cfg, s, k);
    var l' := Deliver(cfg.level, s.up, k, q, m);
    assert l'.rx[k].log == q.log + [m];
    assert forall c: nat :: c < cfg.n && c != k ==> (DataIn(l', c) <==> DataIn(s.up, c));
  }

  lemma SameLogs(level: Level, l: Link, l': Link)
    requires OrderOk(level, l) && l'.last == l.last && |l'.rx| == |l.rx|
    requires forall c: nat :: c < |l.rx| ==> l'.rx[c].log == l.rx[c].log
    ensures OrderOk(level, l')
  {
    assert forall c: nat :: c < |l.rx| ==> (DataIn(l', c) <==> DataIn(l, c));
  }

  lemma PostOrder(cfg: Cfg, s: State, c: nat)
    requires Inv(cfg, s) && c < cfg.n
    ensures OrderOk(cfg.level, Post(cfg.level, s.up, c))
  {
    assert LaneOk(cfg.level, s.up, c);
    var q := s.up.rx[c].(posts := s.up.rx[c].posts + 1);
    if q.early == [] {
      SameLogs(cfg.level, s.up, Post(cfg.level, s.up, c));
    } else {
      DeliverOrder(cfg, s, c, q.(early := q.early[1..]), q.early[0]);
    }
  }

  // -------------------------------------------------------------- network steps

  ghost predicate SameHistory(l: Link, l': Link) {
    && |l'.rx| == |l.rx| && |l'.tx| == |l.tx| && l'.txBuf == l.txBuf
    && (forall c: nat :: c < |l.rx| ==>
          l'.rx[c].sent == l.rx[c].sent && l'.rx[c].posts == l.rx[c].posts && l'.rx[c].taken == l.rx[c].taken)
    && (forall c: nat :: c < |l.tx| ==> l'.tx[c].reaped == l.tx[c].reaped)
  }

  lemma NetworkKeeps(cfg: Cfg, s: State, up: bool, l': Link)
    requires Inv(cfg, s) && LinkOk(cfg.level, l', cfg.n) && SameHistory(LinkAt(s, up), l')
    requires up ==> OrderOk(cfg.level, l')
    ensures Inv(cfg, WithLink(s, up, l'))
  {
    forall c: nat | c < cfg.n
      ensures up ==> UpLane(cfg.n, l', s.client.pc, s.server.pc, c)
      ensures !up ==> DownLane(l', s.client.pc, s.server.pc, c)
    {
      Lanes(cfg, s, c);
    }
  }

  lemma TransmitHistory(level: Level, l: Link, k: nat)
    requires k < |l.pend| && l.pend[k].to < |l.rx|
    ensures SameHistory(l, Transmit(level, l, k))
  {
  }

  lemma InvTransmits(cfg: Cfg, s: State, up: bool, k: nat)
    requires Inv(cfg, s) && Enabled(cfg, s, Transmits(up, k))
    ensures Inv(cfg, Apply(cfg, s, Transmits(up, k)))
  {
    var l := LinkAt(s, up);
    var l' := Transmit(cfg.level, l, k);
    TransmitOk(cfg.level, l, cfg.n, k);
    TransmitHistory(cfg.level, l, k);
    if up {
      SameLogs(cfg.level, l, l');
    }
    NetworkKeeps(cfg, s, up, l');
  }

  lemma ArriveHistory(level: Level, l: Link, c: nat, m: Msg)
    requires c < |l.rx| && m in l.rx[c].wire
    ensures SameHistory(l, Arrive(level, l, c, m))
  {
  }

  lemma ArriveForm(level: Level, l: Link, c: nat, m: Msg)
    requires c < |l.rx| && m in l.rx[c].wire
    ensures var q := l.rx[c].(wire := l.rx[c].wire - multiset{m});
            Arrive(level, l, c, m) ==
            if q.posted > 0 then Deliver(level, l, c, q.(posted := q.posted - 1), m)
            else l.(rx := l.rx[c := q.(early := q.early + [m])])
  {
  }

  /** A message on the wire has not been received. */
  lemma WireMeansMissing(cfg: Cfg, l: Link, c: nat, m: Msg)
    requires LinkOk(cfg.level, l, cfg.n) && c < cfg.n && m in l.rx[c].wire
    ensures |l.rx[c].sent| > |l.rx[c].log|
  {
    assert LaneOk(cfg.level, l, c);
  }

  lemma QueueOrder(level: Level, l: Link, c: nat, q: RxQ)
    requires OrderOk(level, l) && c < |l.rx| && q.log == l.rx[c].log
    ensures OrderOk(level, l.(rx := l.rx[c := q]))
  {
    SameLogs(level, l, l.(rx := l.rx[c := q]));
  }

  lemma ArriveOrder(cfg: Cfg, s: State, c: nat, m: Msg)
    requires Inv(cfg, s) && c < cfg.n && m in s.up.rx[c].wire
    ensures OrderOk(cfg.level, Arrive(cfg.level, s.up, c, m))
  {
    ArriveForm(cfg.level, s.up, c, m);
    var q := s.up.rx[c].(wire := s.up.rx[c].wire - multiset{m});
    if q.posted > 0 {
      WireMeansMissing(cfg, s.up, c, m);
      DeliverOrder(cfg, s, c, q.(posted := q.posted - 1), m);
    } else {
      QueueOrder(cfg.level, s.up, c, q.(early := q.early + [m]));
    }
  }

  lemma InvArrives(cfg: Cfg, s: State, up: bool, c: nat, m: Msg)
    requires Inv(cfg, s) && Enabled(cfg, s, Arrives(up, c, m))
    ensures Inv(cfg, Apply(cfg, s, Arrives(up, c, m)))
  {
    var l := LinkAt(s, up);
    ArriveOk(cfg.level, l, cfg.n, c, m);
    ArriveHistory(cfg.level, l, c, m);
    if up {
      ArriveOrder(cfg, s, c, m);
    }
    NetworkKeeps(cfg, s, up, Arrive(cfg.level, l, c, m));
  }

  lemma InvCompletes(cfg: Cfg, s: State, up: bool, c: nat)
    requires Inv(cfg, s) && Enabled(cfg, s, Completes(up, c))
    ensures Inv(cfg, Apply(cfg, s, Completes(up, c)))
  {
    var l := LinkAt(s, up);
    CompleteOk(cfg.level, l, cfg.n, c);
    if up {
      SameLogs(cfg.level, l, Complete(l, c));
    }
    NetworkKeeps(cfg, s, up, Complete(l, c));
  }
}
