/** What is true in every reachable state of the address exchange and the data
    transfers, stated without the invariant that proves it. */
module Exchange {
  import opened Transport
  import opened Protocol
  import opened Invariant
  import opened Steps
  import opened Progress
  import Address
  import Bits
  import Setup

  // --------------------------------------------------------------- who receives what

  /** The messages that receive context c of the server is meant to get. */
  function Upward(c: nat): seq<Msg> {
    if c == 0 then [Msg(0, ClientName), Msg(0, Word(0x12345670))] else [Msg(c, Word(0x12345670 + c))]
  }

  /** The same for the client: one reply, in context 0. */
  function Downward(c: nat): seq<Msg> {
    if c == 0 then [Msg(0, Zero)] else []
  }

  lemma UpwardLog(cfg: Cfg, s: State, c: nat)
    requires Inv(cfg, s) && c < cfg.n
    ensures s.up.rx[c].log <= s.up.rx[c].sent <= Upward(c)
  {
    Causality(cfg, s);
    Lanes(cfg, s, c);
    assert UpSent(s.client.pc, cfg.n, c) <= Upward(c);
  }

  /** Each context receives its own messages and in this order, whatever overtakes
      what; so the first message of the server's context 0 is the address and the
      second is the first data. */
  lemma EachContextGetsItsOwn(cfg: Cfg, s: State, c: nat)
    requires ValidCfg(cfg) && Reachable(cfg, s) && c < cfg.n
    ensures |s.up.rx| == cfg.n && s.up.rx[c].log <= Upward(c)
    ensures |s.down.rx| == cfg.n && s.down.rx[c].log <= Downward(c)
  {
    InvReachable(cfg, s);
    Lanes(cfg, s, c);
    UpwardLog(cfg, s, c);
    assert s.down.rx[c].sent <= Downward(c);
  }

  /** Neither program meets a failing call: every address resolves, and the bytes
      passed to ft_av_insert are the client's address. */
  lemma NoCallFails(cfg: Cfg, s: State)
    requires ValidCfg(cfg) && Reachable(cfg, s)
    ensures !s.client.pc.Failed? && !s.server.pc.Failed?
    ensures s.server.pc.InsertingPeer? ==> s.up.rxBuf == ClientName
    ensures ReplySent(s.server.pc) ==> s.server.peer == cfg.clientHandle
  {
    InvReachable(cfg, s);
    if s.server.pc.InsertingPeer? {
      ServerInserts(cfg, s);
    }
  }

  lemma DataInUpSent(pc: Pc, n: nat, c: nat)
    requires Msg(c, Word(DATA + c)) in UpSent(pc, n, c)
    ensures c < DataSent(pc, n)
  {
    var m := Msg(c, Word(DATA + c));
    var k :| 0 <= k < |UpSent(pc, n, c)| && UpSent(pc, n, c)[k] == m;
  }

  lemma ReplyReceived(cfg: Cfg, s: State)
    requires Inv(cfg, s) && ReplyTaken(s.client.pc)
    ensures s.down.rx[0].log == [Msg(0, Zero)]
  {
    Causality(cfg, s);
    Lanes(cfg, s, 0);
  }

  lemma NameReceived(cfg: Cfg, s: State)
    requires Inv(cfg, s) && ReplySent(s.server.pc)
    ensures s.up.rx[0].log != [] && s.up.rx[0].log[0] == Msg(0, ClientName)
  {
    Causality(cfg, s);
    UpwardLog(cfg, s, 0);
  }

  /** Data is sent only after the reply was received, and the reply only after the
      address was. */
  lemma DataAfterReply(cfg: Cfg, s: State, c: nat)
    requires ValidCfg(cfg) && Reachable(cfg, s) && c < cfg.n
    ensures |s.up.rx| == |s.down.rx| == cfg.n
    ensures Msg(c, Word(DATA + c)) in s.up.rx[c].sent ==> s.down.rx[0].log == [Msg(0, Zero)]
    ensures s.down.rx[0].sent != [] ==> s.up.rx[0].log != [] && s.up.rx[0].log[0] == Msg(0, ClientName)
  {
    InvReachable(cfg, s);
    Lanes(cfg, s, c);
    Lanes(cfg, s, 0);
    if Msg(c, Word(DATA + c)) in s.up.rx[c].sent {
      DataInUpSent(s.client.pc, cfg.n, c);
      Causality(cfg, s);
      ReplyReceived(cfg, s);
    }
    if s.down.rx[0].sent != [] {
      NameReceived(cfg, s);
    }
  }

  // ----------------------------------------------------------------------- tx_buf

  /** Step e stores to the client's tx_buf. (The server never stores to its own.) */
  predicate Stores(s: State, e: Step) {
    e.Client? && (s.client.pc.Naming? || s.client.pc.Writing?)
  }

  lemma ClientKeepsTxBuf(cfg: Cfg, s: State)
    requires ClientCanStep(cfg, s) && !s.client.pc.Naming? && !s.client.pc.Writing?
    ensures ClientStep(cfg, s).up.txBuf == s.up.txBuf
  {
  }

  /** tx_buf changes only in a store, and at a store every send from it has its
      completion. */
  lemma TxBufIsFree(cfg: Cfg, s: State, e: Step)
    requires ValidCfg(cfg) && Reachable(cfg, s) && Enabled(cfg, s, e)
    ensures Apply(cfg, s, e).down.txBuf == s.down.txBuf
    ensures Apply(cfg, s, e).up.txBuf != s.up.txBuf ==> Stores(s, e)
    ensures |s.up.tx| == cfg.n
    ensures Stores(s, e) ==> s.up.pend == [] && forall c: nat :: c < cfg.n ==> s.up.tx[c].open == 0
  {
    InvReachable(cfg, s);
    InvStep(cfg, s, e);
    if Stores(s, e) {
      ClientQuiet(cfg, s);
    } else if e.Client? {
      ClientKeepsTxBuf(cfg, s);
    }
  }

  /** So the bytes a waiting send will carry are those it was called with, although
      the network reads them late. */
  lemma SentAsCalled(cfg: Cfg, s: State, up: bool, k: nat)
    requires ValidCfg(cfg) && Reachable(cfg, s) && k < |LinkAt(s, up).pend|
    ensures var l := LinkAt(s, up); var p := l.pend[k];
            p.to < |l.rx| && l.rx[p.to].sent != [] &&
            l.rx[p.to].sent[|l.rx[p.to].sent| - 1] == Msg(p.tx, l.txBuf)
  {
    InvReachable(cfg, s);
    var l := LinkAt(s, up);
    var c: nat :| c < cfg.n && Pending(l, c);
    Lanes(cfg, s, c);
    var q := l.rx[c];
    assert q.sent[|q.sent| - 1] in q.sent;
  }

  // ------------------------------------------------------------------ conservation

  /** The sends that wait, as the messages they will become. */
  function Waiting(l: Link, pend: seq<Ticket>, c: nat): multiset<Msg> {
    if pend == [] then multiset{}
    else (if pend[0].to == c then multiset{Msg(pend[0].tx, l.txBuf)} else multiset{}) + Waiting(l, pend[1..], c)
  }

  /** One context: what was sent is waiting, under way, early or received. */
  lemma MessagesKept(q: RxQ, pending: bool, c: nat)
    requires RxOk(q, pending, c)
    ensures multiset(q.sent) ==
            (if pending then multiset{q.sent[|q.sent| - 1]} else multiset{})
            + q.wire + multiset(q.early) + multiset(q.log)
  {
    if |q.log| < |q.sent| {
      assert q.sent == q.log + [q.sent[|q.log|]];
    } else {
      assert q.sent == q.log;
    }
  }

  lemma LaneKept(level: Level, l: Link, c: nat)
    requires c < |l.rx| && c < |l.tx| && LaneOk(level, l, c)
    ensures multiset(l.rx[c].sent) ==
            (if Pending(l, c) then multiset{Msg(c, l.txBuf)} else multiset{})
            + l.rx[c].wire + multiset(l.rx[c].early) + multiset(l.rx[c].log)
  {
    var q := l.rx[c];
    MessagesKept(q, Pending(l, c), c);
    if Pending(l, c) {
      assert q.sent[|q.sent| - 1] in q.sent;
      assert q.sent[|q.sent| - 1] == Msg(c, l.txBuf);
    }
  }

  lemma LaneOfLink(cfg: Cfg, s: State, up: bool, c: nat)
    requires Inv(cfg, s) && c < cfg.n
    ensures var l := LinkAt(s, up);
            |l.rx| == |l.tx| == cfg.n && LaneOk(cfg.level, l, c) && LinkOk(cfg.level, l, cfg.n)
  {
  }

  lemma WaitingIs(cfg: Cfg, l: Link, c: nat)
    requires LinkOk(cfg.level, l, cfg.n)
    ensures Waiting(l, l.pend, c) == if Pending(l, c) then multiset{Msg(c, l.txBuf)} else multiset{}
  {
    if l.pend != [] {
      var d: nat :| d < cfg.n && Pending(l, d);
      assert l.pend[1..] == [];
      assert Pending(l, c) <==> c == d by {
        assert l.pend[0] == Ticket(d, d);
      }
    }
  }

  /** No message is lost, doubled or damaged, and no receive is. */
  lemma Conservation(cfg: Cfg, s: State, up: bool, c: nat)
    requires ValidCfg(cfg) && Reachable(cfg, s) && c < cfg.n
    ensures |LinkAt(s, up).rx| == |LinkAt(s, up).tx| == cfg.n
    ensures var l := LinkAt(s, up); var q := l.rx[c];
            multiset(q.sent) == Waiting(l, l.pend, c) + q.wire + multiset(q.early) + multiset(q.log)
    ensures var q := LinkAt(s, up).rx[c];
            && q.posts == q.posted + |q.log|
            && |q.log| == q.unread + q.taken
            && (q.early != [] ==> q.posted == 0)
    ensures var l := LinkAt(s, up); var t := l.tx[c];
            t.calls == |l.rx[c].sent| && t.calls == t.open + t.ready + t.reaped
  {
    InvReachable(cfg, s);
    LaneOfLink(cfg, s, up, c);
    LaneKept(cfg.level, LinkAt(s, up), c);
    WaitingIs(cfg, LinkAt(s, up), c);
  }

  // -------------------------------------------------------------- the final state

  function Received(rx: seq<RxQ>): nat {
    if rx == [] then 0 else Received(rx[..|rx| - 1]) + |rx[|rx| - 1].log|
  }

  function Outstanding(rx: seq<RxQ>): nat {
    if rx == [] then 0 else Outstanding(rx[..|rx| - 1]) + rx[|rx| - 1].posted
  }

  /** Sums over contexts of which the first differs from the others. */
  lemma {:induction false} SumsOf(rx: seq<RxQ>, first: nat, other: nat, posted: nat)
    requires forall c: nat :: c < |rx| ==> |rx[c].log| == if c == 0 then first else other
    requires forall c: nat :: c < |rx| ==> rx[c].posted == posted
    ensures Outstanding(rx) == |rx| * posted
    ensures rx != [] ==> Received(rx) == first + (|rx| - 1) * other
  {
    if |rx| > 1 {
      SumsOf(rx[..|rx| - 1], first, other, posted);
    } else if |rx| == 1 {
      assert rx[..0] == [];
    }
  }

  lemma FinalLane(cfg: Cfg, s: State, c: nat)
    requires Inv(cfg, s) && Finished(s) && c < cfg.n
    ensures s.up.rx[c].log == Upward(c) && s.up.rx[c].posted == 0 && s.up.tx[c].open == 0
    ensures s.down.rx[c].log == Downward(c) && s.down.rx[c].posted == 1 && s.down.tx[c].open == 0
  {
    ClientQuiet(cfg, s);
    ServerQuiet(cfg, s);
    UpwardLog(cfg, s, c);
    Lanes(cfg, s, c);
  }

  lemma FinalSums(n: nat, up: seq<RxQ>, down: seq<RxQ>)
    requires |up| == |down| == n >= 1
    requires forall c: nat :: c < n ==> up[c].log == Upward(c) && up[c].posted == 0
    requires forall c: nat :: c < n ==> down[c].log == Downward(c) && down[c].posted == 1
    ensures Received(up) == n + 1 && Received(down) == 1
    ensures Outstanding(up) == 0 && Outstanding(down) == n
  {
    SumsOf(up, 2, 1, 0);
    SumsOf(down, 1, 0, 1);
  }

  /** At the end n + 1 messages were received by the server and one by the client;
      the server has no receive outstanding, the client one in each context. */
  lemma FinalCounts(cfg: Cfg, s: State)
    requires ValidCfg(cfg) && Reachable(cfg, s) && Finished(s)
    ensures |s.up.rx| == |s.down.rx| == |s.up.tx| == |s.down.tx| == cfg.n
    ensures Received(s.up.rx) == cfg.n + 1 && Received(s.down.rx) == 1
    ensures Outstanding(s.up.rx) == 0 && Outstanding(s.down.rx) == cfg.n
    ensures forall c: nat :: c < cfg.n ==>
              && s.up.rx[c].log == Upward(c) && s.up.rx[c].posted == 0 && s.up.tx[c].open == 0
              && s.down.rx[c].log == Downward(c) && s.down.rx[c].posted == 1 && s.down.tx[c].open == 0
  {
    InvReachable(cfg, s);
    forall c: nat | c < cfg.n
      ensures s.up.rx[c].log == Upward(c) && s.up.rx[c].posted == 0 && s.up.tx[c].open == 0
      ensures s.down.rx[c].log == Downward(c) && s.down.rx[c].posted == 1 && s.down.tx[c].open == 0
    {
      FinalLane(cfg, s, c);
    }
    FinalSums(cfg.n, s.up.rx, s.down.rx);
  }

  // ---------------------------------------------------- contexts and the negotiated count

  /** Both programs when init_fabric has negotiated the count. */
  function CfgOf(requested: nat, txLimit: nat, rxLimit: nat, level: Level, serverHandle: nat, clientHandle: nat): Cfg {
    Cfg(Setup.Negotiated(requested, txLimit, rxLimit), level, serverHandle, clientHandle)
  }

  /** No addresses yet, or one for each context of the peer known as handle. */
  ghost predicate AddrsOk(cfg: Cfg, addrs: seq<nat>, handle: nat) {
    addrs == [] || (|addrs| == cfg.n && forall i: nat :: i < cfg.n ==> Route(cfg, handle, addrs[i]) == At(i))
  }

  lemma FilledAddrsOk(cfg: Cfg, handle: nat)
    requires ValidCfg(cfg) && handle < Bits.Pow2(64 - Address.BitCount(cfg.n))
    ensures AddrsOk(cfg, Addrs(cfg, handle), handle)
  {
    forall i: nat | i < cfg.n ensures Route(cfg, handle, Addrs(cfg, handle)[i]) == At(i) {
      RouteOfRxAddr(cfg, handle, i);
    }
  }

  lemma AddrsStep(cfg: Cfg, s: State, e: Step)
    requires Enabled(cfg, s, e)
    ensures var t := Apply(cfg, s, e);
            && t.client.addrs == (if e.Client? && s.client.pc.FillingAddrs? then Addrs(cfg, s.client.peer) else s.client.addrs)
            && t.server.addrs == (if e.Server? && s.server.pc.FillingAddrs? then Addrs(cfg, s.server.peer) else s.server.addrs)
  {
  }

  lemma {:induction false} AddrsOfRun(cfg: Cfg, s: State, steps: seq<Step>, t: State)
    requires Inv(cfg, s) && Leads(cfg, s, steps, t)
    requires AddrsOk(cfg, s.client.addrs, cfg.serverHandle) && AddrsOk(cfg, s.server.addrs, cfg.clientHandle)
    ensures AddrsOk(cfg, t.client.addrs, cfg.serverHandle) && AddrsOk(cfg, t.server.addrs, cfg.clientHandle)
    decreases |steps|
  {
    if steps != [] {
      AddrsStep(cfg, s, steps[0]);
      FilledAddrsOk(cfg, cfg.serverHandle);
      FilledAddrsOk(cfg, cfg.clientHandle);
      InvStep(cfg, s, steps[0]);
      AddrsOfRun(cfg, Apply(cfg, s, steps[0]), steps[1..], t);
    }
  }

  predicate PcWithin(pc: Pc, n: nat) {
    match pc
    case Binding(i) => i < n
    case Writing(i) => i < n
    case Sending(i) => i < n
    case AwaitingSent(i) => i < n
    case AwaitingData(i) => i < n
    case Comparing(i) => i < n
    case _ => true
  }

  /** Sends go from and to contexts below n, and there are no others. */
  ghost predicate LinkWithin(l: Link, n: nat) {
    && |l.rx| == |l.tx| == n
    && (forall k: nat :: k < |l.pend| ==> l.pend[k].tx < n && l.pend[k].to < n)
    && (forall c: nat, m :: c < n && m in l.rx[c].sent ==> m.tx < n)
  }

  lemma LinkIsWithin(cfg: Cfg, l: Link)
    requires LinkOk(cfg.level, l, cfg.n)
    ensures LinkWithin(l, cfg.n)
  {
    if l.pend != [] {
      var d: nat :| d < cfg.n && Pending(l, d);
    }
    forall c: nat, m | c < cfg.n && m in l.rx[c].sent ensures m.tx < cfg.n {
      assert LaneOk(cfg.level, l, c);
    }
  }

  /** Every context that client and server ever post to, send from or to, wait for
      or have an address of is below the count that init_fabric negotiated. */
  lemma ContextsBelowNegotiated(requested: nat, txLimit: nat, rxLimit: nat, level: Level, serverHandle: nat,
                                clientHandle: nat, s: State)
    requires var cfg := CfgOf(requested, txLimit, rxLimit, level, serverHandle, clientHandle);
             ValidCfg(cfg) && Reachable(cfg, s)
    ensures var cfg := CfgOf(requested, txLimit, rxLimit, level, serverHandle, clientHandle);
            && cfg.n <= requested && cfg.n <= txLimit && cfg.n <= rxLimit
            && LinkWithin(s.up, cfg.n) && LinkWithin(s.down, cfg.n)
            && PcWithin(s.client.pc, cfg.n) && PcWithin(s.server.pc, cfg.n)
            && AddrsOk(cfg, s.client.addrs, serverHandle) && AddrsOk(cfg, s.server.addrs, clientHandle)
  {
    var cfg := CfgOf(requested, txLimit, rxLimit, level, serverHandle, clientHandle);
    var steps :| Leads(cfg, Init(cfg), steps, s);
    InitInv(cfg);
    AddrsOfRun(cfg, Init(cfg), steps, s);
    InvReachable(cfg, s);
    LinkIsWithin(cfg, s.up);
    LinkIsWithin(cfg, s.down);
  }

  /** What the setup leaves is what the exchange starts from: after a successful
      init_fabric one receive is posted in each context that ep_attr asked for. */
  lemma ExchangeFollowsSetup(attr: Setup.EpAttr, requested: nat, txLimit: nat, rxLimit: nat, rc: Setup.Codes,
                             level: Level, serverHandle: nat, clientHandle: nat, s: State)
    requires var cfg := CfgOf(requested, txLimit, rxLimit, level, serverHandle, clientHandle);
             ValidCfg(cfg) && Reachable(cfg, s)
    requires Setup.RefInit(requested, txLimit, rxLimit, true, rc).code == 0
    requires s.client.pc.InsertingPeer? && s.server.pc.AwaitingName?
    ensures var f := Setup.RefFabric(attr, requested, txLimit, rxLimit, true, rc);
            && f.attr == Setup.EpAttr(|s.up.tx|, |s.up.rx|) == Setup.EpAttr(|s.down.tx|, |s.down.rx|)
            && (forall c: nat :: Setup.PostRecv(c) in f.run.trace <==> c < |s.up.rx|)
            && (forall c: nat :: c < |s.up.rx| ==> s.up.rx[c].posts == 1 && s.down.rx[c].posts == 1)
  {
    var cfg := CfgOf(requested, txLimit, rxLimit, level, serverHandle, clientHandle);
    InvReachable(cfg, s);
    forall c: nat ensures Setup.PostRecv(c) in Setup.RefRun(cfg.n, true, rc).trace <==> c < cfg.n {
      Setup.RefOpens(cfg.n, true, rc, c);
    }
    forall c: nat | c < cfg.n ensures s.up.rx[c].posts == 1 && s.down.rx[c].posts == 1 {
      Lanes(cfg, s, c);
    }
  }
}
