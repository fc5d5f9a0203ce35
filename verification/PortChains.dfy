/** The chains the port actually writes, with the integer types of their calls. */
module PortChains {
  import opened Chain
  import opened Setup
  import opened Polling
  import Process

  function Int(op: Op): Prog<Op> {
    Act(op, Int32)
  }

  /** ft_open_fabric_res |-> fi_scalable_ep |-> alloc_ep_res, in init_fabric. */
  function FabricChain(): Prog<Op> {
    Then(Then(Then(Then(Int(OpenFabric), Int(OpenEq)), Int(OpenDomain)), Int(OpenSep)), Int(AllocRes))
  }

  lemma FabricChainIsFaithful(rc: Codes)
    requires Typed(FabricChain(), rc)
    ensures Run(FabricChain(), rc) == Outcome(Cut(FabricOps(), rc), FirstCode(FabricOps(), rc))
  {
    var p := FabricChain();
    assert Widening(p);
    ChainStopsAtFirstError(p, rc);
    assert Leaves(p.first.first.first) == [OpenFabric, OpenEq];
    assert Leaves(p.first.first) == [OpenFabric, OpenEq, OpenDomain];
    assert Leaves(p.first) == [OpenFabric, OpenEq, OpenDomain, OpenSep];
    assert Leaves(p) == FabricOps();
  }

  /** The codes the port sees: ft_getinfo and ft_alloc_ep_res give 0. */
  function Seen(rc: Codes): Codes {
    op => if op == GetInfo || op == AllocRes then 0 else rc(op)
  }

  lemma {:induction false} SeenSame(ops: seq<Op>, rc: Codes)
    requires forall op :: op in ops ==> op != GetInfo && op != AllocRes
    ensures Cut(ops, Seen(rc)) == Cut(ops, rc) && FirstCode(ops, Seen(rc)) == FirstCode(ops, rc)
  {
    if ops != [] {
      assert ops[0] in ops;
      assert forall op :: op in ops[1..] ==> op in ops;
      SeenSame(ops[1..], rc);
    }
  }

  lemma SeenHead(n: nat, rc: Codes)
    requires n > 0
    ensures PortHead(n, rc) == Outcome([GetInfo] + Cut(FabricOps(), Seen(rc)), FirstCode(FabricOps(), Seen(rc)))
  {
    SeenSame(FourOps(), rc);
    FabricParts(Seen(rc));
  }

  /** With those codes the chain is what the port does before its loops. */
  lemma FabricChainIsPortHead(n: nat, rc: Codes)
    requires n > 0 && Typed(FabricChain(), Seen(rc))
    ensures var out := Run(FabricChain(), Seen(rc)); PortHead(n, rc) == Outcome([GetInfo] + out.trace, out.code)
  {
    SeenHead(n, rc);
    FabricChainIsFaithful(Seen(rc));
  }

  // -------------------------------------------------------- the address exchange

  datatype Exchange =
    | InsertServer | GetName | SendName | AwaitReply
    | AwaitName | InsertClient | SendReply

  /** init_av_a: fi_send and the wait give a CLong, the others a CInt. */
  function ClientExchange(): Prog<Exchange> {
    Then(Then(Then(Act(InsertServer, Int32), Act(GetName, Int32)), Act(SendName, Int64)), Act(AwaitReply, Int64))
  }

  /** init_av_b: a CInt stands between two CLongs. */
  function ServerExchange(): Prog<Exchange> {
    Then(Then(Act(AwaitName, Int64), Act(InsertClient, Int32)), Act(SendReply, Int64))
  }

  function ServerExchangeRegrouped(): Prog<Exchange> {
    Then(Act(AwaitName, Int64), Then(Act(InsertClient, Int32), Act(SendReply, Int64)))
  }

  function ServerOps(): seq<Exchange> {
    [AwaitName, InsertClient, SendReply]
  }

  lemma ClientExchangeIsFaithful()
    ensures Faithful(ClientExchange())
  {
    var p := ClientExchange();
    assert Widening(p);
    forall rc: Exchange -> int | Typed(p, rc)
      ensures Run(p, rc).code == FirstCode(Leaves(p), rc)
    {
      ChainStopsAtFirstError(p, rc);
    }
  }

  lemma ServerLeaves()
    ensures Leaves(ServerExchange()) == ServerOps()
    ensures Leaves(ServerExchangeRegrouped()) == ServerOps()
  {
    assert Leaves(ServerExchange().first) == [AwaitName, InsertClient];
    assert Leaves(ServerExchangeRegrouped().second) == [InsertClient, SendReply];
  }

  /** By its types alone the server's chain narrows: for some CLong in place of the
      wait's code it would not give the first error. Grouped to the right it has
      no such conversion. */
  lemma ServerExchangeNarrows()
    ensures !Faithful(ServerExchange())
    ensures Faithful(ServerExchangeRegrouped())
  {
    ServerLeaves();
    FaithfulIffWidening(ServerExchange());
    FaithfulIffWidening(ServerExchangeRegrouped());
  }

  /** It stops at the first error exactly on waits whose code fits a CInt. */
  lemma ServerExchangeExact(rc: Exchange -> int)
    requires Typed(ServerExchange(), rc)
    ensures Run(ServerExchange(), rc) == Outcome(Cut(ServerOps(), rc), FirstCode(ServerOps(), rc)) <==>
            InRange(Int32, rc(AwaitName))
  {
    var s := ServerOps();
    var s1 := s[1..];
    var s2 := s1[1..];
    assert s1 == [InsertClient, SendReply] && s2 == [SendReply] && s2[1..] == [];
    assert Cut(s2, rc) == [SendReply] && FirstCode(s2, rc) == rc(SendReply);
    var w := Wrap(Int32, rc(AwaitName));
    var first := ServerExchange().first;
    assert Run(first, rc) ==
           if rc(AwaitName) == 0 then Outcome([AwaitName] + [InsertClient], rc(InsertClient))
           else Outcome([AwaitName], w);
    assert w != 0 ==> Wrap(Int64, w) == w;
    if rc(AwaitName) != 0 && w == 0 {
      assert Run(ServerExchange(), rc).trace == [AwaitName] + [SendReply];
      assert |Run(ServerExchange(), rc).trace| == 2;
    }
  }

  // ---------------------------------------------------- the exchanges with their waits

  /** The codes of the exchange in the world w, when its wait gives code. */
  function ExchangeCodes(w: Process.World, code: int): Exchange -> int {
    (e: Exchange) => match e
         case InsertServer | InsertClient => w.codes(Process.InsertPeer)
         case GetName => w.codes(Process.GetName)
         case SendName | SendReply => w.codes(Process.SendFirst)
         case AwaitReply | AwaitName => code
  }

  function ExchangeOf(client: bool): Prog<Exchange> {
    if client then ClientExchange() else ServerExchange()
  }

  function Links(client: bool): seq<Exchange> {
    if client then [InsertServer, GetName, SendName, AwaitReply] else ServerOps()
  }

  /** No code that a wait of the port returns is lost: as written, with the types
      it has, either chain makes the calls up to the first error and gives that
      error, whatever the queue holds. */
  lemma WaitedChainStops(client: bool, results: seq<CqResult>, rc: Exchange -> int)
    requires DoWhile(results, 0).Returned? && Typed(ExchangeOf(client), rc)
    requires rc(if client then AwaitReply else AwaitName) == DoWhile(results, 0).code
    ensures Run(ExchangeOf(client), rc) == Outcome(Cut(Links(client), rc), FirstCode(Links(client), rc))
  {
    if client {
      var p := ClientExchange();
      ChainStopsAtFirstError(p, rc);
      assert Leaves(p.first.first) == [InsertServer, GetName];
      assert Leaves(p.first) == [InsertServer, GetName, SendName];
      assert Leaves(p) == Links(true);
    } else {
      DoWhileStops(results, 0);
      ServerExchangeExact(rc);
    }
  }

  function Spell(e: Exchange, k: nat): seq<Process.Call> {
    match e
    case InsertServer | InsertClient => [Process.InsertPeer]
    case GetName => [Process.GetName]
    case SendName | SendReply => [Process.SendFirst]
    case AwaitReply | AwaitName => Process.Reads(Process.ForPeer, k)
  }

  /** The calls of an exchange whose wait reads the queue k times. */
  function Spelled(t: seq<Exchange>, k: nat): seq<Process.Call> {
    if t == [] then [] else Spell(t[0], k) + Spelled(t[1..], k)
  }

  /** A chain spelled out from its first call on. */
  lemma SpelledFirst(s: seq<Exchange>, rc: Exchange -> int, k: nat)
    requires s != []
    ensures Spelled(Cut(s, rc), k) == Spell(s[0], k) + (if rc(s[0]) != 0 then [] else Spelled(Cut(s[1..], rc), k))
  {
    var t := Cut(s, rc);
    var u := if rc(s[0]) != 0 then [] else Cut(s[1..], rc);
    assert t == [s[0]] + u;
    assert t[1..] == u;
  }

  lemma ClientSpelled(w: Process.World, k: nat, code: int)
    ensures var rc := ExchangeCodes(w, code);
            Process.AndThen(Process.Ended([Process.InsertPeer], w.codes(Process.InsertPeer)),
              Process.AndThen(Process.Ended([Process.GetName], w.codes(Process.GetName)),
                Process.AndThen(Process.Ended([Process.SendFirst], w.codes(Process.SendFirst)),
                                Process.Ended(Process.Reads(Process.ForPeer, k), code))))
            == Process.Ended(Spelled(Cut(Links(true), rc), k), FirstCode(Links(true), rc))
  {
    var rc := ExchangeCodes(w, code);
    var s := Links(true);
    var s1, s2, s3 := s[1..], s[2..], s[3..];
    assert s1 == [GetName, SendName, AwaitReply] && s2 == [SendName, AwaitReply] && s3 == [AwaitReply];
    assert s1[1..] == s2 && s2[1..] == s3 && s3[1..] == [];
    SpelledFirst(s3, rc, k);
    SpelledFirst(s2, rc, k);
    SpelledFirst(s1, rc, k);
    SpelledFirst(s, rc, k);
  }

  lemma ServerSpelled(w: Process.World, k: nat, code: int)
    ensures var rc := ExchangeCodes(w, code);
            Process.AndThen(Process.Ended(Process.Reads(Process.ForPeer, k), code),
              Process.AndThen(Process.Ended([Process.InsertPeer], w.codes(Process.InsertPeer)),
                              Process.Ended([Process.SendFirst], w.codes(Process.SendFirst))))
            == Process.Ended(Spelled(Cut(Links(false), rc), k), FirstCode(Links(false), rc))
  {
    var rc := ExchangeCodes(w, code);
    var s := Links(false);
    var s1, s2 := s[1..], s[2..];
    assert s1 == [InsertClient, SendReply] && s2 == [SendReply] && s1[1..] == s2 && s2[1..] == [];
    SpelledFirst(s2, rc, k);
    SpelledFirst(s1, rc, k);
    SpelledFirst(s, rc, k);
  }

  /** The exchange of the whole port is its typed chain, with the wait spelled out. */
  lemma PortExchangeIsChain(client: bool, w: Process.World)
    requires DoWhile(w.queue(Process.ForPeer), 0).Returned?
    requires Typed(ExchangeOf(client), ExchangeCodes(w, DoWhile(w.queue(Process.ForPeer), 0).code))
    ensures var p := DoWhile(w.queue(Process.ForPeer), 0);
            var out := Run(ExchangeOf(client), ExchangeCodes(w, p.code));
            Process.RunItems(Process.ExchangeItems(client), Process.PortDoes(w))
            == Process.Ended(Spelled(out.trace, p.polls), out.code)
  {
    var p := DoWhile(w.queue(Process.ForPeer), 0);
    WaitedChainStops(client, w.queue(Process.ForPeer), ExchangeCodes(w, p.code));
    if client {
      Process.ClientExchangeRuns(Process.PortDoes(w));
      ClientSpelled(w, p.polls, p.code);
    } else {
      Process.ServerExchangeRuns(Process.PortDoes(w));
      ServerSpelled(w, p.polls, p.code);
    }
  }
}
