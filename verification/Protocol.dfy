/** Client and server of the reference program, from the first posted receive to
    the end of run_test, over two links. Every provider call succeeds here. */
module Protocol {
  import opened Transport
  import opened Address
  import Bits

  const DATA: int := 0x12345670

  /** n contexts; the address-vector handles are the provider's choice. */
  datatype Cfg = Cfg(n: nat, level: Level, serverHandle: nat, clientHandle: nat)

  ghost predicate ValidCfg(cfg: Cfg) {
    && 1 <= cfg.n < INT_LIMIT
    && 1 <= BitCount(cfg.n) <= 31
    && cfg.serverHandle < Bits.Pow2(64 - BitCount(cfg.n))
    && cfg.clientHandle < Bits.Pow2(64 - BitCount(cfg.n))
  }

  /** Where a program stands: the call it makes next. */
  datatype Pc =
    | Binding(i: nat)                                     // fi_recv in bind_ep_res
    | InsertingPeer | Naming | SendingName | AwaitingReply // client, init_av
    | AwaitingName | Replying                              // server, init_av
    | FillingAddrs | Reposting | AwaitingTx                // both, init_av
    | Writing(i: nat) | Sending(i: nat) | AwaitingSent(i: nat)  // client, run_test
    | AwaitingData(i: nat) | Comparing(i: nat)             // server, run_test
    | Done | Failed

  /** peer is remote_fi_addr, addrs is remote_rx_addr. */
  datatype Party = Party(pc: Pc, peer: nat, addrs: seq<nat>)

  /** The link up leads from the client to the server, down back. seen holds
      what rx_buf held at each comparison of the server. */
  datatype State = State(client: Party, server: Party, up: Link, down: Link, seen: seq<Payload>)

  function Init(cfg: Cfg): State {
    State(Party(Binding(0), 0, []), Party(Binding(0), 0, []), NewLink(cfg.n), NewLink(cfg.n), [])
  }

  // ---------------------------------------------------------------- addressing

  datatype Target = Nowhere | At(ctx: nat)

  /** How the transport resolves a 64-bit address for the peer known as handle. */
  function Route(cfg: Cfg, handle: nat, addr: nat): Target {
    var bits := BitCount(cfg.n);
    if bits <= 64 && BaseOf(addr, bits) == handle && IndexOf(addr, bits) < cfg.n
    then At(IndexOf(addr, bits)) else Nowhere
  }

  lemma RouteOfRxAddr(cfg: Cfg, handle: nat, i: nat)
    requires ValidCfg(cfg) && i < cfg.n && handle < Bits.Pow2(64 - BitCount(cfg.n))
    ensures Route(cfg, handle, FiRxAddr(handle, i, BitCount(cfg.n))) == At(i)
  {
    RxAddrRoundTrip(handle, i, BitCount(cfg.n));
  }

  lemma RouteOfBase(cfg: Cfg, handle: nat)
    requires ValidCfg(cfg) && handle < Bits.Pow2(64 - BitCount(cfg.n))
    ensures Route(cfg, handle, handle) == At(0)
  {
    RxAddrIsBase(handle, 0, BitCount(cfg.n));
    RouteOfRxAddr(cfg, handle, 0);
  }

  lemma IndexFits(i: nat, n: nat)
    requires i < n
    ensures i % Bits.Pow2(BitCount(n)) == i
  {
    SmallMod(i, Bits.Pow2(BitCount(n)));
  }

  lemma Reassembled(addr: nat, p: nat)
    requires p > 0
    ensures addr == (addr / p) * p + addr % p
  {
  }

  /** The transport resolves the n addresses of the peer's contexts and no others. */
  lemma RouteIff(cfg: Cfg, handle: nat, addr: nat, i: nat)
    requires ValidCfg(cfg) && handle < Bits.Pow2(64 - BitCount(cfg.n))
    ensures Route(cfg, handle, addr) == At(i) <==> i < cfg.n && addr == FiRxAddr(handle, i, BitCount(cfg.n))
  {
    var bits := BitCount(cfg.n);
    if i < cfg.n && addr == FiRxAddr(handle, i, bits) {
      RouteOfRxAddr(cfg, handle, i);
    }
    if Route(cfg, handle, addr) == At(i) {
      RxAddrSum(handle, i, bits);
      IndexFits(i, cfg.n);
      Reassembled(addr, Bits.Pow2(64 - bits));
    }
  }

  function Addrs(cfg: Cfg, peer: nat): seq<nat> {
    if 1 <= BitCount(cfg.n) <= 64 then RxAddrs(peer, cfg.n, BitCount(cfg.n)) else []
  }

  // ---------------------------------------------------------------- the client

  predicate ClientCanStep(cfg: Cfg, s: State) {
    match s.client.pc
    case Binding(i) => i < |s.down.rx|
    case InsertingPeer | Naming | FillingAddrs => true
    case SendingName => 0 < |s.up.tx|
    case AwaitingReply => 0 < |s.down.rx| && s.down.rx[0].unread > 0
    case Reposting => 0 < |s.down.rx|
    case AwaitingTx => 0 < |s.up.tx| && s.up.tx[0].ready > 0
    case Writing(_) => true
    case Sending(i) => i < |s.up.tx| && i < |s.client.addrs|
    case AwaitingSent(i) => i < |s.up.tx| && s.up.tx[i].ready > 0
    case _ => false
  }

  /** fi_send of the client: an address the transport cannot resolve fails. */
  function ClientSend(cfg: Cfg, s: State, c: nat, addr: nat, next: Pc): State
    requires c < |s.up.tx|
  {
    var t := Route(cfg, cfg.serverHandle, addr);
    if t.At? && t.ctx < |s.up.rx| then s.(up := Send(s.up, c, t.ctx), client := s.client.(pc := next))
    else s.(client := s.client.(pc := Failed))
  }

  function ClientStep(cfg: Cfg, s: State): State
    requires ClientCanStep(cfg, s)
  {
    var p := s.client;
    match p.pc
    case Binding(i) =>
      s.(down := Post(cfg.level, s.down, i),
         client := p.(pc := if i + 1 < cfg.n then Binding(i + 1) else InsertingPeer))
    case InsertingPeer => s.(client := p.(pc := Naming, peer := cfg.serverHandle))
    case Naming => s.(up := s.up.(txBuf := ClientName), client := p.(pc := SendingName))
    case SendingName => ClientSend(cfg, s, 0, p.peer, AwaitingReply)
    case AwaitingReply => s.(down := TakeRx(s.down, 0), client := p.(pc := FillingAddrs))
    case FillingAddrs => s.(client := p.(pc := Reposting, addrs := Addrs(cfg, p.peer)))
    case Reposting => s.(down := Post(cfg.level, s.down, 0), client := p.(pc := AwaitingTx))
    case AwaitingTx => s.(up := TakeTx(s.up, 0), client := p.(pc := Writing(0)))
    case Writing(i) => s.(up := s.up.(txBuf := Word(DATA + i)), client := p.(pc := Sending(i)))
    case Sending(i) => ClientSend(cfg, s, i, p.addrs[i], AwaitingSent(i))
    case AwaitingSent(i) =>
      s.(up := TakeTx(s.up, i), client := p.(pc := if i + 1 < cfg.n then Writing(i + 1) else Done))
  }

  // ---------------------------------------------------------------- the server

  predicate ServerCanStep(cfg: Cfg, s: State) {
    match s.server.pc
    case Binding(i) => i < |s.up.rx|
    case AwaitingName => 0 < |s.up.rx| && s.up.rx[0].unread > 0
    case InsertingPeer | FillingAddrs => true
    case Replying => 0 < |s.down.tx|
    case Reposting => 0 < |s.up.rx|
    case AwaitingTx => 0 < |s.down.tx| && s.down.tx[0].ready > 0
    case AwaitingData(i) => i < |s.up.rx| && s.up.rx[i].unread > 0
    case Comparing(_) => true
    case _ => false
  }

  /** The server hands rx_buf to ft_av_insert: anything but the client's address
      is refused. */
  function ServerStep(cfg: Cfg, s: State): State
    requires ServerCanStep(cfg, s)
  {
    var p := s.server;
    match p.pc
    case Binding(i) =>
      s.(up := Post(cfg.level, s.up, i),
         server := p.(pc := if i + 1 < cfg.n then Binding(i + 1) else AwaitingName))
    case AwaitingName => s.(up := TakeRx(s.up, 0), server := p.(pc := InsertingPeer))
    case InsertingPeer =>
      if s.up.rxBuf == ClientName then s.(server := p.(pc := Replying, peer := cfg.clientHandle))
      else s.(server := p.(pc := Failed))
    case Replying =>
      var t := Route(cfg, cfg.clientHandle, p.peer);
      if t.At? && t.ctx < |s.down.rx| then s.(down := Send(s.down, 0, t.ctx), server := p.(pc := FillingAddrs))
      else s.(server := p.(pc := Failed))
    case FillingAddrs => s.(server := p.(pc := Reposting, addrs := Addrs(cfg, p.peer)))
    case Reposting => s.(up := Post(cfg.level, s.up, 0), server := p.(pc := AwaitingTx))
    case AwaitingTx => s.(down := TakeTx(s.down, 0), server := p.(pc := AwaitingData(0)))
    case AwaitingData(i) => s.(up := TakeRx(s.up, i), server := p.(pc := Comparing(i)))
    case Comparing(i) =>
      s.(seen := s.seen + [s.up.rxBuf],
         server := p.(pc := if i + 1 < cfg.n then AwaitingData(i + 1) else Done))
  }

  // ------------------------------------------------------------------ all steps

  /** One step of a program, or of the network on one of the links. */
  datatype Step =
    | Client | Server
    | Transmits(up: bool, k: nat) | Arrives(up: bool, c: nat, m: Msg) | Completes(up: bool, c: nat)

  function LinkAt(s: State, up: bool): Link {
    if up then s.up else s.down
  }

  function WithLink(s: State, up: bool, l: Link): State {
    if up then s.(up := l) else s.(down := l)
  }

  predicate Enabled(cfg: Cfg, s: State, e: Step) {
    match e
    case Client => ClientCanStep(cfg, s)
    case Server => ServerCanStep(cfg, s)
    case Transmits(up, k) => var l := LinkAt(s, up); k < |l.pend| && l.pend[k].to < |l.rx|
    case Arrives(up, c, m) => var l := LinkAt(s, up); c < |l.rx| && m in l.rx[c].wire
    case Completes(up, c) => var l := LinkAt(s, up); c < |l.tx| && l.tx[c].owed > 0
  }

  function Apply(cfg: Cfg, s: State, e: Step): State
    requires Enabled(cfg, s, e)
  {
    match e
    case Client => ClientStep(cfg, s)
    case Server => ServerStep(cfg, s)
    case Transmits(up, k) => WithLink(s, up, Transmit(cfg.level, LinkAt(s, up), k))
    case Arrives(up, c, m) => WithLink(s, up, Arrive(cfg.level, LinkAt(s, up), c, m))
    case Completes(up, c) => WithLink(s, up, Complete(LinkAt(s, up), c))
  }

  /** steps is a run from s to s'. */
  ghost predicate Leads(cfg: Cfg, s: State, steps: seq<Step>, s': State)
    decreases |steps|
  {
    if steps == [] then s == s'
    else Enabled(cfg, s, steps[0]) && Leads(cfg, Apply(cfg, s, steps[0]), steps[1..], s')
  }

  ghost predicate Reachable(cfg: Cfg, s: State) {
    exists steps :: Leads(cfg, Init(cfg), steps, s)
  }

  lemma {:induction false} LeadsAppend(cfg: Cfg, s: State, a: seq<Step>, t: State, b: seq<Step>, u: State)
    requires Leads(cfg, s, a, t) && Leads(cfg, t, b, u)
    ensures Leads(cfg, s, a + b, u)
    decreases |a|
  {
    if a == [] {
      assert a + b == b;
    } else {
      assert (a + b)[1..] == a[1..] + b;
      LeadsAppend(cfg, Apply(cfg, s, a[0]), a[1..], t, b, u);
    }
  }
}
