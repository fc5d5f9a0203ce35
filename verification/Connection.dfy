/** The two models of the reference agree: what a program calls in a run of client,
    server and network is what Process says of a program whose calls all succeed.
    Reads that find a queue empty are not steps of the former. */
module Connection {
  import opened Transport
  import opened Protocol
  import opened Invariant
  import opened Steps
  import opened Progress
  import opened Runs
  import opened Chain
  import opened Polling
  import Setup
  import P = Process
  import O = Order

  type Calls = seq<P.Call>

  /** What the client calls in its step at pc. */
  function ClientCall(pc: Pc): Calls {
    match pc
    case Binding(i) => [P.During(Setup.PostRecv(i))]
    case InsertingPeer => [P.InsertPeer]
    case Naming => [P.GetName]
    case SendingName => [P.SendFirst]
    case AwaitingReply => [P.Read(P.ForPeer)]
    case Reposting => [P.PostAgain]
    case AwaitingTx => [P.Read(P.ForFirstSend)]
    case Sending(i) => [P.SendData(i)]
    case AwaitingSent(i) => [P.Read(P.ForSent(i))]
    case _ => []
  }

  function ServerCall(pc: Pc): Calls {
    match pc
    case Binding(i) => [P.During(Setup.PostRecv(i))]
    case AwaitingName => [P.Read(P.ForPeer)]
    case InsertingPeer => [P.InsertPeer]
    case Replying => [P.SendFirst]
    case Reposting => [P.PostAgain]
    case AwaitingTx => [P.Read(P.ForFirstSend)]
    case AwaitingData(i) => [P.Read(P.ForData(i))]
    case _ => []
  }

  function PcOf(client: bool, s: State): Pc {
    if client then s.client.pc else s.server.pc
  }

  function CallsIn(client: bool, s: State, e: Step): Calls {
    if client && e.Client? then ClientCall(s.client.pc)
    else if !client && e.Server? then ServerCall(s.server.pc)
    else []
  }

  /** The calls of one program along a run. */
  ghost function CallsAlong(cfg: Cfg, client: bool, s: State, steps: seq<Step>, t: State): Calls
    requires Leads(cfg, s, steps, t)
    decreases |steps|
  {
    if steps == [] then []
    else CallsIn(client, s, steps[0]) + CallsAlong(cfg, client, Apply(cfg, s, steps[0]), steps[1..], t)
  }

  // ----------------------------------------------------- what was called up to a place

  /** The receives posted in bind_ep_res. */
  function Posts(i: nat): Calls {
    seq(i, k requires 0 <= k < i => P.During(Setup.PostRecv(k)))
  }

  function Rounds(client: bool, i: nat): Calls {
    if i == 0 then []
    else Rounds(client, i - 1)
         + if client then [P.SendData(i - 1), P.Read(P.ForSent(i - 1))] else [P.Read(P.ForData(i - 1))]
  }

  /** init_av. */
  function Opening(client: bool): Calls {
    if client then [P.InsertPeer, P.GetName, P.SendFirst, P.Read(P.ForPeer), P.PostAgain, P.Read(P.ForFirstSend)]
    else [P.Read(P.ForPeer), P.InsertPeer, P.SendFirst, P.PostAgain, P.Read(P.ForFirstSend)]
  }

  function ClientBefore(pc: Pc, n: nat): Calls {
    match pc
    case Binding(i) => Posts(i)
    case InsertingPeer => Posts(n)
    case Naming => Posts(n) + Opening(true)[..1]
    case SendingName => Posts(n) + Opening(true)[..2]
    case AwaitingReply => Posts(n) + Opening(true)[..3]
    case FillingAddrs => Posts(n) + Opening(true)[..4]
    case Reposting => Posts(n) + Opening(true)[..4]
    case AwaitingTx => Posts(n) + Opening(true)[..5]
    case Writing(i) => Posts(n) + Opening(true) + Rounds(true, i)
    case Sending(i) => Posts(n) + Opening(true) + Rounds(true, i)
    case AwaitingSent(i) => Posts(n) + Opening(true) + Rounds(true, i) + [P.SendData(i)]
    case _ => Posts(n) + Opening(true) + Rounds(true, n)
  }

  function ServerBefore(pc: Pc, n: nat): Calls {
    match pc
    case Binding(i) => Posts(i)
    case AwaitingName => Posts(n)
    case InsertingPeer => Posts(n) + Opening(false)[..1]
    case Replying => Posts(n) + Opening(false)[..2]
    case FillingAddrs => Posts(n) + Opening(false)[..3]
    case Reposting => Posts(n) + Opening(false)[..3]
    case AwaitingTx => Posts(n) + Opening(false)[..4]
    case AwaitingData(i) => Posts(n) + Opening(false) + Rounds(false, i)
    case Comparing(i) => Posts(n) + Opening(false) + Rounds(false, i + 1)
    case _ => Posts(n) + Opening(false) + Rounds(false, n)
  }

  function CallsBefore(client: bool, pc: Pc, n: nat): Calls {
    if client then ClientBefore(pc, n) else ServerBefore(pc, n)
  }

  /** The places a step leads to. */
  function ClientNext(pc: Pc, n: nat): Pc {
    match pc
    case Binding(i) => if i + 1 < n then Binding(i + 1) else InsertingPeer
    case InsertingPeer => Naming
    case Naming => SendingName
    case SendingName => AwaitingReply
    case AwaitingReply => FillingAddrs
    case FillingAddrs => Reposting
    case Reposting => AwaitingTx
    case AwaitingTx => Writing(0)
    case Writing(i) => Sending(i)
    case Sending(i) => AwaitingSent(i)
    case AwaitingSent(i) => if i + 1 < n then Writing(i + 1) else Done
    case _ => pc
  }

  function ServerNext(pc: Pc, n: nat): Pc {
    match pc
    case Binding(i) => if i + 1 < n then Binding(i + 1) else AwaitingName
    case AwaitingName => InsertingPeer
    case InsertingPeer => Replying
    case Replying => FillingAddrs
    case FillingAddrs => Reposting
    case Reposting => AwaitingTx
    case AwaitingTx => AwaitingData(0)
    case AwaitingData(i) => Comparing(i)
    case Comparing(i) => if i + 1 < n then AwaitingData(i + 1) else Done
    case _ => pc
  }

  lemma ClientGoesOn(cfg: Cfg, s: State)
    requires Inv(cfg, s) && ClientCanStep(cfg, s)
    ensures ClientStep(cfg, s).client.pc == ClientNext(s.client.pc, cfg.n)
    ensures ClientStep(cfg, s).server.pc == s.server.pc
  {
    InvClient(cfg, s);
  }

  lemma ServerGoesOn(cfg: Cfg, s: State)
    requires Inv(cfg, s) && ServerCanStep(cfg, s)
    ensures ServerStep(cfg, s).server.pc == ServerNext(s.server.pc, cfg.n)
    ensures ServerStep(cfg, s).client.pc == s.client.pc
  {
    InvServer(cfg, s);
  }

  lemma PostsNext(i: nat)
    ensures Posts(i) + [P.During(Setup.PostRecv(i))] == Posts(i + 1)
  {
  }

  /** The client in run_test. */
  lemma ClientRoundAdds(n: nat, pc: Pc)
    requires ClientPc(pc, n) && (pc.Writing? || pc.Sending? || pc.AwaitingSent? || pc.Done?)
    ensures ClientBefore(pc, n) + ClientCall(pc) == ClientBefore(ClientNext(pc, n), n)
  {
    if pc.AwaitingSent? {
      var before, send, read := Posts(n) + Opening(true), [P.SendData(pc.i)], [P.Read(P.ForSent(pc.i))];
      Associate(before + Rounds(true, pc.i), send, read);
      Associate(before, Rounds(true, pc.i), send + read);
      assert send + read == [P.SendData(pc.i), P.Read(P.ForSent(pc.i))];
    }
  }

  /** The client in init_av. */
  lemma OpeningAdds(n: nat, pc: Pc)
    requires ClientPc(pc, n) && !pc.Binding? && !pc.Writing? && !pc.Sending? && !pc.AwaitingSent? && !pc.Done?
    ensures ClientBefore(pc, n) + ClientCall(pc) == ClientBefore(ClientNext(pc, n), n)
  {
  }

  lemma ClientAdds(n: nat, pc: Pc)
    requires n > 0 && ClientPc(pc, n)
    ensures ClientBefore(pc, n) + ClientCall(pc) == ClientBefore(ClientNext(pc, n), n)
  {
    if pc.Writing? || pc.Sending? || pc.AwaitingSent? || pc.Done? {
      ClientRoundAdds(n, pc);
    } else if pc.Binding? {
      PostsNext(pc.i);
    } else {
      OpeningAdds(n, pc);
    }
  }

  lemma ServerAdds(n: nat, pc: Pc)
    requires n > 0 && ServerPc(pc, n)
    ensures ServerBefore(pc, n) + ServerCall(pc) == ServerBefore(ServerNext(pc, n), n)
  {
  }

  lemma StepAdds(cfg: Cfg, client: bool, s: State, e: Step)
    requires Inv(cfg, s) && Enabled(cfg, s, e)
    ensures CallsBefore(client, PcOf(client, s), cfg.n) + CallsIn(client, s, e)
            == CallsBefore(client, PcOf(client, Apply(cfg, s, e)), cfg.n)
  {
    match e
    case Client =>
      ClientGoesOn(cfg, s);
      ClientAdds(cfg.n, s.client.pc);
    case Server =>
      ServerGoesOn(cfg, s);
      ServerAdds(cfg.n, s.server.pc);
    case _ =>
  }

  lemma {:induction false} RunAdds(cfg: Cfg, client: bool, s: State, steps: seq<Step>, t: State)
    requires Inv(cfg, s) && Leads(cfg, s, steps, t)
    ensures CallsBefore(client, PcOf(client, s), cfg.n) + CallsAlong(cfg, client, s, steps, t)
            == CallsBefore(client, PcOf(client, t), cfg.n)
    decreases |steps|
  {
    if steps != [] {
      var u := Apply(cfg, s, steps[0]);
      InvStep(cfg, s, steps[0]);
      StepAdds(cfg, client, s, steps[0]);
      RunAdds(cfg, client, u, steps[1..], t);
      Associate(CallsBefore(client, PcOf(client, s), cfg.n), CallsIn(client, s, steps[0]),
                CallsAlong(cfg, client, u, steps[1..], t));
    }
  }

  // ------------------------------------------------------- a program that always succeeds

  /** Every call gives 0 and every queue has its entry. */
  function Smooth(): P.World {
    P.World(op => 0, c => 0, v => [1])
  }

  function CallsOf(items: seq<P.Item>): Calls {
    seq(|items|, k requires 0 <= k < |items| => O.CallOf(items[k]))
  }

  lemma SmoothItem(item: P.Item)
    ensures P.RunItem(item, Smooth(), P.RefPoll()) == P.Ended([O.CallOf(item)], 0)
  {
    if item.Await? {
      assert P.RefPoll()([1]) == Returned(1, 0);
      assert P.Reads(item.wait, 1) == [P.Read(item.wait)];
    }
  }

  lemma {:induction false} SmoothItems(items: seq<P.Item>, does: P.Item -> P.Result)
    requires does == P.RefDoes(Smooth())
    ensures P.RunItems(items, does) == P.Ended(CallsOf(items), 0)
  {
    if items != [] {
      SmoothItem(items[0]);
      SmoothItems(items[1..], does);
      assert CallsOf(items) == [O.CallOf(items[0])] + CallsOf(items[1..]);
    }
  }

  lemma CallsAppend(a: seq<P.Item>, b: seq<P.Item>)
    ensures CallsOf(a + b) == CallsOf(a) + CallsOf(b)
  {
  }

  lemma {:induction false} RoundsAreCalls(client: bool, n: nat)
    ensures CallsOf(P.TestItems(client, n)) == Rounds(client, n)
  {
    if n > 0 {
      RoundsAreCalls(client, n - 1);
      CallsAppend(P.TestItems(client, n - 1), P.TestRound(client, n - 1));
    }
  }

  lemma SmoothRest(client: bool, n: nat)
    ensures P.RefRest(client, n, Smooth()) == P.Ended(Opening(client) + Rounds(client, n), 0)
  {
    SmoothItems(P.ExchangeItems(client) + P.RepostItems() + P.TestItems(client, n), P.RefDoes(Smooth()));
    CallsAppend(P.ExchangeItems(client) + P.RepostItems(), P.TestItems(client, n));
    assert CallsOf(P.ExchangeItems(client) + P.RepostItems()) == Opening(client);
    RoundsAreCalls(client, n);
  }

  // -------------------------------------------------------------------- the theorems

  lemma NothingBefore(client: bool, n: nat, calls: Calls)
    ensures CallsBefore(client, Binding(0), n) + calls == calls
  {
    assert Posts(0) == [];
  }

  /** Along a complete run each program posts its receives and then calls what the
      model of one program says, in that order. */
  lemma CompleteRunCalls(cfg: Cfg, client: bool, steps: seq<Step>, t: State)
    requires ValidCfg(cfg) && Leads(cfg, Init(cfg), steps, t) && Finished(t)
    ensures P.RefRest(client, cfg.n, Smooth()).Ended? && P.RefRest(client, cfg.n, Smooth()).code == 0
    ensures CallsAlong(cfg, client, Init(cfg), steps, t) == Posts(cfg.n) + P.RefRest(client, cfg.n, Smooth()).trace
  {
    InitInv(cfg);
    RunAdds(cfg, client, Init(cfg), steps, t);
    SmoothRest(client, cfg.n);
    NothingBefore(client, cfg.n, CallsAlong(cfg, client, Init(cfg), steps, t));
    Associate(Posts(cfg.n), Opening(client), Rounds(client, cfg.n));
  }

  lemma {:induction false} CallsAlongAppend(cfg: Cfg, client: bool, s: State, a: seq<Step>, t: State, b: seq<Step>, u: State)
    requires Leads(cfg, s, a, t) && Leads(cfg, t, b, u)
    ensures Leads(cfg, s, a + b, u)
    ensures CallsAlong(cfg, client, s, a, t) <= CallsAlong(cfg, client, s, a + b, u)
    decreases |a|
  {
    LeadsAppend(cfg, s, a, t, b, u);
    if a != [] {
      assert (a + b)[0] == a[0] && (a + b)[1..] == a[1..] + b;
      CallsAlongAppend(cfg, client, Apply(cfg, s, a[0]), a[1..], t, b, u);
    }
  }

  /** Along any run they have called a first part of that. */
  lemma EveryRunCalls(cfg: Cfg, client: bool, steps: seq<Step>, s: State)
    requires ValidCfg(cfg) && Leads(cfg, Init(cfg), steps, s)
    ensures CallsAlong(cfg, client, Init(cfg), steps, s) <= Posts(cfg.n) + P.RefRest(client, cfg.n, Smooth()).trace
  {
    var more, t := EveryRunCanFinish(cfg, steps, s);
    CallsAlongAppend(cfg, client, Init(cfg), steps, s, more, t);
    CompleteRunCalls(cfg, client, steps + more, t);
  }
}
