/** run, from init_fabric to the end of run_test, of one program under arbitrary
    codes and queue results: the reference and the port. */
module Process {
  import opened Chain
  import opened Setup
  import opened Polling

  /** A wait, named by what it waits for: the peer's first message, the completion
      of the own first send, and in run_test a send or a receive of context i. */
  datatype Wait = ForPeer | ForFirstSend | ForSent(i: nat) | ForData(i: nat)

  datatype Call =
    | During(op: Op)                                   // in init_fabric
    | InsertPeer | GetName | SendFirst | PostAgain     // in init_av
    | SendData(i: nat)                                 // in run_test
    | Read(wait: Wait)                                 // one fi_cq_read

  /** A checked step of init_av or run_test. */
  datatype Item = Do(call: Call) | Await(wait: Wait)

  /** What the provider answers. */
  datatype World = World(setup: Codes, codes: Call -> int, queue: Wait -> seq<CqResult>)

  /** The program has ended, or has used up the results of a queue and still polls. */
  datatype Result = Ended(trace: seq<Call>, code: int) | Waiting(trace: seq<Call>, on: Wait)

  type Poller = seq<CqResult> -> Poll

  function RefPoll(): Poller {
    results => Finish(results, Leading(results, Again()))
  }

  function PortPoll(): Poller {
    results => DoWhile(results, 0)
  }

  function Reads(wait: Wait, k: nat): seq<Call> {
    seq(k, _ => Read(wait))
  }

  /** What r does after the calls of trace. */
  function Continue(trace: seq<Call>, r: Result): Result {
    r.(trace := trace + r.trace)
  }

  /** b after a, if a gives 0. */
  function AndThen(a: Result, b: Result): Result {
    if a.Ended? && a.code == 0 then Continue(a.trace, b) else a
  }

  /** b after a, whatever a gives. */
  function Regardless(a: Result, b: Result): Result {
    if a.Ended? then Continue(a.trace, b) else a
  }

  function RunItem(item: Item, w: World, poll: Poller): Result {
    match item
    case Do(c) => Ended([c], w.codes(c))
    case Await(v) =>
      match poll(w.queue(v))
      case StillPolling(k) => Waiting(Reads(v, k), v)
      case Returned(k, code) => Ended(Reads(v, k), code)
  }

  function RefDoes(w: World): Item -> Result {
    item => RunItem(item, w, RefPoll())
  }

  function PortDoes(w: World): Item -> Result {
    item => RunItem(item, w, PortPoll())
  }

  /** The items in order, up to the first that does not give 0. */
  function RunItems(items: seq<Item>, does: Item -> Result): Result {
    if items == [] then Ended([], 0) else AndThen(does(items[0]), RunItems(items[1..], does))
  }

  lemma RunOne(item: Item, does: Item -> Result)
    ensures RunItems([item], does) == does(item)
  {
    assert [item][1..] == [];
    assert does(item).trace + [] == does(item).trace;
  }

  lemma AndThenAssociates(a: Result, b: Result, c: Result)
    ensures AndThen(AndThen(a, b), c) == AndThen(a, AndThen(b, c))
  {
    Associate(a.trace, b.trace, c.trace);
  }

  lemma {:induction false} RunAppend(a: seq<Item>, b: seq<Item>, does: Item -> Result)
    ensures RunItems(a + b, does) == AndThen(RunItems(a, does), RunItems(b, does))
  {
    if a == [] {
      assert a + b == b;
      var r := RunItems(b, does);
      assert [] + r.trace == r.trace;
    } else {
      assert (a + b)[1..] == a[1..] + b;
      RunAppend(a[1..], b, does);
      AndThenAssociates(does(a[0]), RunItems(a[1..], does), RunItems(b, does));
    }
  }

  // ------------------------------------------------------------- the two programs

  function ExchangeItems(client: bool): seq<Item> {
    if client then [Do(InsertPeer), Do(GetName), Do(SendFirst), Await(ForPeer)]
    else [Await(ForPeer), Do(InsertPeer), Do(SendFirst)]
  }

  function RepostItems(): seq<Item> {
    [Do(PostAgain), Await(ForFirstSend)]
  }

  function TestRound(client: bool, i: nat): seq<Item> {
    if client then [Do(SendData(i)), Await(ForSent(i))] else [Await(ForData(i))]
  }

  function TestItems(client: bool, n: nat): seq<Item> {
    if n == 0 then [] else TestItems(client, n - 1) + TestRound(client, n - 1)
  }

  /** init_av and run_test of the reference: every call is checked. */
  function RefRest(client: bool, n: nat, w: World): Result {
    RunItems(ExchangeItems(client) + RepostItems() + TestItems(client, n), RefDoes(w))
  }

  function Setups(t: seq<Op>): (s: seq<Call>)
    ensures |s| == |t|
  {
    seq(|t|, k requires 0 <= k < |t| => During(t[k]))
  }

  function RefProcess(client: bool, requested: nat, txLimit: nat, rxLimit: nat, memory: bool, w: World): Result {
    var fabric := RefInit(requested, txLimit, rxLimit, memory, w.setup);
    AndThen(Ended(Setups(fabric.trace), fabric.code), RefRest(client, Negotiated(requested, txLimit, rxLimit), w))
  }

  /** init_av of the port: the code of the exchange is dropped. */
  function PortAv(client: bool, w: World): Result {
    Regardless(RunItems(ExchangeItems(client), PortDoes(w)), RunItems(RepostItems(), PortDoes(w)))
  }

  /** run_test_send of the port, whose two counts stop it: the context index at 2,
      and the code at 0. */
  function PortTestSend(i: nat, ret: int, w: World): Result
    requires i <= 2
    decreases 2 - i
  {
    if i == 2 then Ended([], ret)
    else if ret == 0 then Ended([], 0)
    else
      var sent := RunItem(Do(SendData(i)), w, PortPoll());
      var done := RunItem(Await(ForSent(i)), w, PortPoll());
      AndThen(sent, Regardless(done, PortTestSend(i + 1, if done.Ended? then done.code else 0, w)))
  }

  /** run_test calls run_test_send with (0, 0), and so run_test_recv, whose first
      equation gives its code back. */
  function PortTest(client: bool, w: World): Result {
    if client then PortTestSend(0, 0, w) else Ended([], 0)
  }

  function PortRest(client: bool, w: World): Result {
    AndThen(PortAv(client, w), PortTest(client, w))
  }

  function PortProcess(client: bool, requested: nat, txLimit: nat, rxLimit: nat, w: World): Result {
    var fabric := PortInit(requested, txLimit, rxLimit, w.setup);
    AndThen(Ended(Setups(fabric.trace), Wrap(Int64, fabric.code)), PortRest(client, w))
  }

  // --------------------------------------------------------------- one wait in both

  /** The queue has only -EAGAIN to say. */
  predicate Blocks(results: seq<CqResult>) {
    Leading(results, Again()) == |results|
  }

  /** Its first other result. */
  function Answer(results: seq<CqResult>): int
    requires !Blocks(results)
  {
    results[Leading(results, Again())]
  }

  /** The reference passes this wait. */
  predicate Passes(results: seq<CqResult>) {
    !Blocks(results) && 0 <= Answer(results) <= 1
  }

  lemma PollInBoth(results: seq<CqResult>)
    ensures var ref, port := RefPoll()(results), PortPoll()(results);
            && (Blocks(results) ==> ref.StillPolling?)
            && (!Blocks(results) ==>
                  ref == Returned(ref.polls, if Answer(results) == 1 then 0 else Answer(results)) && ref.polls > 0)
            && (Blocks(results) || Answer(results) >= 0 ==> port == ref)
            && (!Blocks(results) && Answer(results) < 0 ==> port.StillPolling? || port.polls > ref.polls)
  {
    var k := Leading(results, Again());
    PortAgreesIff(results);
    if k < |results| && results[k] < 0 {
      DoWhileStops(results, 0);
      assert forall i :: 0 <= i <= k ==> results[i] < 0;
      assert Leading(results, Negative()) > k;
    }
  }

  lemma WaitInBoth(v: Wait, w: World)
    ensures var ref, port := RunItem(Await(v), w, RefPoll()), RunItem(Await(v), w, PortPoll());
            var results := w.queue(v);
            && (Blocks(results) ==> ref.Waiting?)
            && (!Blocks(results) ==>
                  && ref.Ended? && ref.trace != []
                  && ref.code == (if Answer(results) == 1 then 0 else Answer(results)))
            && (Blocks(results) || Answer(results) >= 0 ==> port == ref)
            && (!Blocks(results) && Answer(results) < 0 ==> port.Waiting? || |port.trace| > |ref.trace|)
  {
    PollInBoth(w.queue(v));
  }

  lemma RunsSomething(items: seq<Item>, w: World, port: bool)
    requires items != []
    ensures var r := RunItems(items, if port then PortDoes(w) else RefDoes(w)); r.Waiting? || r.trace != []
  {
    if items[0].Await? {
      WaitInBoth(items[0].wait, w);
    }
  }

  // ------------------------------------------------------------ init_av in both

  /** The calls of the exchange before its wait, or after it in the server. */
  predicate CallsPass(client: bool, w: World) {
    w.codes(InsertPeer) == 0 && w.codes(SendFirst) == 0 && (client ==> w.codes(GetName) == 0)
  }

  predicate ExchangePasses(client: bool, w: World) {
    CallsPass(client, w) && Passes(w.queue(ForPeer))
  }

  /** The program waits for its peer, and nothing comes. */
  predicate ExchangeBlocks(client: bool, w: World) {
    Blocks(w.queue(ForPeer)) && (client ==> CallsPass(client, w))
  }

  lemma ClientExchangeRuns(does: Item -> Result)
    ensures RunItems(ExchangeItems(true), does) ==
            AndThen(does(Do(InsertPeer)),
                    AndThen(does(Do(GetName)),
                            AndThen(does(Do(SendFirst)), does(Await(ForPeer)))))
  {
    var s := ExchangeItems(true);
    var s1 := s[1..];
    var s2 := s1[1..];
    assert s1 == [Do(GetName), Do(SendFirst), Await(ForPeer)] && s2 == [Do(SendFirst), Await(ForPeer)];
    assert s2[1..] == [Await(ForPeer)];
    RunOne(Await(ForPeer), does);
    assert RunItems(s2, does) == AndThen(does(Do(SendFirst)), does(Await(ForPeer)));
    assert RunItems(s1, does) == AndThen(does(Do(GetName)), RunItems(s2, does));
  }

  lemma ServerExchangeRuns(does: Item -> Result)
    ensures RunItems(ExchangeItems(false), does) ==
            AndThen(does(Await(ForPeer)),
                    AndThen(does(Do(InsertPeer)), does(Do(SendFirst))))
  {
    var s := ExchangeItems(false);
    var s1 := s[1..];
    assert s1 == [Do(InsertPeer), Do(SendFirst)] && s1[1..] == [Do(SendFirst)];
    RunOne(Do(SendFirst), does);
    assert RunItems(s1, does) == AndThen(does(Do(InsertPeer)), does(Do(SendFirst)));
  }

  lemma ExchangeInBoth(client: bool, w: World)
    ensures var ref, port := RunItems(ExchangeItems(client), RefDoes(w)), RunItems(ExchangeItems(client), PortDoes(w));
            && (ExchangeBlocks(client, w) ==> port == ref && ref.Waiting?)
            && (ExchangePasses(client, w) ==> port == ref && ref.Ended? && ref.code == 0)
            && (!ExchangeBlocks(client, w) && !ExchangePasses(client, w) ==>
                  ref.Ended? && ref.code != 0 && (port.Waiting? || |port.trace| >= |ref.trace|))
  {
    WaitInBoth(ForPeer, w);
    if client {
      ClientExchangeRuns(RefDoes(w));
      ClientExchangeRuns(PortDoes(w));
    } else {
      ServerExchangeRuns(RefDoes(w));
      ServerExchangeRuns(PortDoes(w));
    }
  }

  /** init_av ends after the exchange, without going on to run_test. */
  predicate RepostEnds(w: World) {
    || w.codes(PostAgain) != 0
    || Blocks(w.queue(ForFirstSend))
    || Answer(w.queue(ForFirstSend)) > 1
  }

  lemma RepostInBoth(w: World)
    ensures var ref, port := RunItems(RepostItems(), RefDoes(w)), RunItems(RepostItems(), PortDoes(w));
            && (RepostEnds(w) ==> port == ref && (ref.Waiting? || ref.code != 0))
            && (!RepostEnds(w) && Passes(w.queue(ForFirstSend)) ==> port == ref && ref.Ended? && ref.code == 0)
            && (!RepostEnds(w) && !Passes(w.queue(ForFirstSend)) ==>
                  ref.Ended? && ref.code != 0 && (port.Waiting? || |port.trace| > |ref.trace|))
  {
    assert RepostItems()[1..] == [Await(ForFirstSend)];
    RunOne(Await(ForFirstSend), RefDoes(w));
    RunOne(Await(ForFirstSend), PortDoes(w));
    WaitInBoth(ForFirstSend, w);
  }

  /** What both programs do before run_test is the same and ends there. */
  predicate EndsBeforeTest(client: bool, w: World) {
    ExchangeBlocks(client, w) || (ExchangePasses(client, w) && RepostEnds(w))
  }

  lemma RefRestParts(client: bool, n: nat, w: World)
    ensures RefRest(client, n, w) ==
            AndThen(RunItems(ExchangeItems(client), RefDoes(w)),
                    AndThen(RunItems(RepostItems(), RefDoes(w)), RunItems(TestItems(client, n), RefDoes(w))))
  {
    RunAppend(ExchangeItems(client) + RepostItems(), TestItems(client, n), RefDoes(w));
    RunAppend(ExchangeItems(client), RepostItems(), RefDoes(w));
    AndThenAssociates(RunItems(ExchangeItems(client), RefDoes(w)), RunItems(RepostItems(), RefDoes(w)),
                      RunItems(TestItems(client, n), RefDoes(w)));
  }

  /** run_test of the port calls nothing. */
  lemma PortRestIsAv(client: bool, w: World)
    ensures PortRest(client, w) == PortAv(client, w)
  {
    var r := PortAv(client, w);
    assert r.trace + [] == r.trace;
  }

  /** e, r and t against e' and r' without t, when e' and r' agree with e and r or
      go on where those stop. */
  lemma SameOrNot(e: Result, e': Result, r: Result, r': Result, t: Result, blocks: bool, passes: bool, ends: bool)
    requires blocks ==> e' == e && e.Waiting?
    requires passes ==> e' == e && e.Ended? && e.code == 0
    requires !blocks && !passes ==> e.Ended? && e.code != 0 && (e'.Waiting? || |e'.trace| >= |e.trace|)
    requires ends ==> r' == r && (r.Waiting? || r.code != 0)
    requires !ends ==> || (r' == r && r.Ended? && r.code == 0)
                       || (r.Ended? && r.code != 0 && (r'.Waiting? || |r'.trace| > |r.trace|))
    requires r'.Waiting? || r'.trace != []
    requires t.Waiting? || t.trace != []
    ensures Regardless(e', r') == AndThen(e, AndThen(r, t)) <==> blocks || (passes && ends)
  {
    var port, ref := Regardless(e', r'), AndThen(e, AndThen(r, t));
    if !blocks && !passes {
      assert ref == e;
      assert port.Ended? ==> |port.trace| == |e'.trace| + |r'.trace|;
    } else if passes && !ends {
      assert port.Ended? ==> |port.trace| == |e.trace| + |r'.trace|;
      assert ref.Ended? ==> |ref.trace| == |e.trace| + |r.trace| + if r.code == 0 then |t.trace| else 0;
      assert r.code == 0 ==> port.Ended?;
    }
  }

  /** The port's exchange, spelled out. Its code goes nowhere. */
  lemma PortExchange(client: bool, w: World)
    ensures var r := RunItems(ExchangeItems(client), PortDoes(w));
            var p := DoWhile(w.queue(ForPeer), 0);
            if client then
              if w.codes(InsertPeer) != 0 then r == Ended([InsertPeer], w.codes(InsertPeer))
              else if w.codes(GetName) != 0 then r == Ended([InsertPeer, GetName], w.codes(GetName))
              else if w.codes(SendFirst) != 0 then r == Ended([InsertPeer, GetName, SendFirst], w.codes(SendFirst))
              else if p.StillPolling? then r == Waiting([InsertPeer, GetName, SendFirst] + Reads(ForPeer, p.polls), ForPeer)
              else r == Ended([InsertPeer, GetName, SendFirst] + Reads(ForPeer, p.polls), p.code)
            else
              if p.StillPolling? then r == Waiting(Reads(ForPeer, p.polls), ForPeer)
              else if p.code != 0 then r == Ended(Reads(ForPeer, p.polls), p.code)
              else if w.codes(InsertPeer) != 0 then r == Ended(Reads(ForPeer, p.polls) + [InsertPeer], w.codes(InsertPeer))
              else r == Ended(Reads(ForPeer, p.polls) + [InsertPeer, SendFirst], w.codes(SendFirst))
  {
    var p := DoWhile(w.queue(ForPeer), 0);
    var s := Reads(ForPeer, p.polls);
    if client {
      ClientExchangeRuns(PortDoes(w));
      assert [InsertPeer] + ([GetName] + ([SendFirst] + s)) == [InsertPeer, GetName, SendFirst] + s;
    } else {
      ServerExchangeRuns(PortDoes(w));
      assert s + ([InsertPeer] + [SendFirst]) == s + [InsertPeer, SendFirst];
    }
  }

  /** After the exchange has ended, with whatever code, the port posts the receive,
      and reads the queue of its first send exactly if that gave 0; it ends with the
      code of the one or of the other, and calls nothing more. */
  lemma PortAfterExchange(client: bool, w: World)
    ensures var e := RunItems(ExchangeItems(client), PortDoes(w));
            var r := PortRest(client, w);
            var p := DoWhile(w.queue(ForFirstSend), 0);
            if e.Waiting? then r == e
            else if w.codes(PostAgain) != 0 then r == Ended(e.trace + [PostAgain], w.codes(PostAgain))
            else if p.StillPolling? then
              r == Waiting(e.trace + [PostAgain] + Reads(ForFirstSend, p.polls), ForFirstSend)
            else r == Ended(e.trace + [PostAgain] + Reads(ForFirstSend, p.polls), p.code)
  {
    PortRestIsAv(client, w);
    var e, p := RunItems(ExchangeItems(client), PortDoes(w)), DoWhile(w.queue(ForFirstSend), 0);
    assert RepostItems()[1..] == [Await(ForFirstSend)];
    RunOne(Await(ForFirstSend), PortDoes(w));
    Associate(e.trace, [PostAgain], Reads(ForFirstSend, p.polls));
  }

  /** The port's send loop, were it entered with a code other than 0: it goes on to
      context 1 exactly if the wait for context 0 gave an error. */
  lemma PortSendsAfterErrors(ret: int, w: World, k: nat, code: int)
    requires ret != 0 && w.codes(SendData(0)) == 0 && DoWhile(w.queue(ForSent(0)), 0) == Returned(k, code)
    ensures var first := [SendData(0)] + Reads(ForSent(0), k);
            && (code == 0 ==> PortTestSend(0, ret, w) == Ended(first, 0))
            && (code != 0 && w.codes(SendData(1)) != 0 ==>
                  PortTestSend(0, ret, w) == Ended(first + [SendData(1)], w.codes(SendData(1))))
  {
    assert [SendData(0)] + (Reads(ForSent(0), k) + []) == [SendData(0)] + Reads(ForSent(0), k);
    Associate([SendData(0)], Reads(ForSent(0), k), [SendData(1)]);
  }

  /** After a successful init_fabric, the two programs do the same exactly when
      they wait for their peer for ever, or the exchange succeeds and then the
      next receive cannot be posted or its wait does not end well. Whenever the
      reference comes to run_test, and whenever its exchange fails, they differ. */
  lemma RestAgreesIff(client: bool, n: nat, w: World)
    requires n > 0
    ensures PortRest(client, w) == RefRest(client, n, w) <==> EndsBeforeTest(client, w)
  {
    PortRestIsAv(client, w);
    RefRestParts(client, n, w);
    ExchangeInBoth(client, w);
    RepostInBoth(w);
    RunsSomething(RepostItems(), w, true);
    RunsSomething(TestItems(client, n), w, false);
    SameOrNot(RunItems(ExchangeItems(client), RefDoes(w)), RunItems(ExchangeItems(client), PortDoes(w)),
              RunItems(RepostItems(), RefDoes(w)), RunItems(RepostItems(), PortDoes(w)),
              RunItems(TestItems(client, n), RefDoes(w)),
              ExchangeBlocks(client, w), ExchangePasses(client, w), RepostEnds(w));
  }

  // ------------------------------------------------------------------ whole processes

  /** None of the calls is one of init_fabric. */
  ghost predicate PastSetup(t: seq<Call>) {
    forall c :: c in t ==> !c.During?
  }

  ghost predicate ItemsPastSetup(items: seq<Item>) {
    forall k :: 0 <= k < |items| && items[k].Do? ==> !items[k].call.During?
  }

  lemma {:induction false} RunPastSetup(items: seq<Item>, w: World, does: Item -> Result)
    requires ItemsPastSetup(items) && (does == RefDoes(w) || does == PortDoes(w))
    ensures PastSetup(RunItems(items, does).trace)
  {
    if items != [] {
      RunPastSetup(items[1..], w, does);
      assert PastSetup(does(items[0]).trace);
    }
  }

  lemma {:induction false} TestPastSetup(client: bool, n: nat)
    ensures ItemsPastSetup(TestItems(client, n))
  {
    if n > 0 {
      TestPastSetup(client, n - 1);
    }
  }

  lemma RestPastSetup(client: bool, n: nat, w: World)
    ensures PastSetup(RefRest(client, n, w).trace) && PastSetup(PortRest(client, w).trace)
    ensures RefRest(client, n, w).Ended? ==> RefRest(client, n, w).trace != []
    ensures PortRest(client, w).Ended? ==> PortRest(client, w).trace != []
  {
    TestPastSetup(client, n);
    PortRestIsAv(client, w);
    RunPastSetup(ExchangeItems(client) + RepostItems() + TestItems(client, n), w, RefDoes(w));
    RunPastSetup(ExchangeItems(client), w, PortDoes(w));
    RunPastSetup(RepostItems(), w, PortDoes(w));
    RunsSomething(ExchangeItems(client) + RepostItems() + TestItems(client, n), w, false);
    RunsSomething(RepostItems(), w, true);
  }

  /** A trace falls into its setup and the rest in one way. */
  lemma {:induction false} SplitIsUnique(a: seq<Op>, u: seq<Call>, b: seq<Op>, v: seq<Call>)
    requires PastSetup(u) && PastSetup(v) && Setups(a) + u == Setups(b) + v
    ensures a == b && u == v
  {
    var t := Setups(a) + u;
    assert forall k :: |a| <= k < |t| ==> t[k] == u[k - |a|];
    assert forall k :: |b| <= k < |t| ==> t[k] == v[k - |b|];
    assert forall k :: 0 <= k < |a| ==> t[k] == During(a[k]);
    assert forall k :: 0 <= k < |b| ==> t[k] == During(b[k]);
    assert |a| < |t| ==> !t[|a|].During?;
    assert |b| < |t| ==> !t[|b|].During?;
    forall k | 0 <= k < |a| ensures a[k] == b[k] {
      assert t[k] == During(a[k]) && t[k] == During(b[k]);
    }
    assert u == t[|a|..] && v == t[|b|..];
  }

  /** The codes of init_fabric's calls are C ints. */
  ghost predicate IntCodes(rc: Codes) {
    forall op :: InRange(Int32, rc(op))
  }

  lemma PortCodeIsKept(requested: nat, txLimit: nat, rxLimit: nat, rc: Codes)
    requires IntCodes(rc)
    ensures var code := PortInit(requested, txLimit, rxLimit, rc).code; Wrap(Int64, code) == code
  {
    if FirstCode(FourOps(), rc) != 0 {
      LastCode(FourOps(), rc);
    }
  }

  /** Two setups with what follows them. */
  lemma SameWhole(ref: Outcome<Op>, port: Outcome<Op>, r: Result, r': Result)
    requires PastSetup(r.trace) && PastSetup(r'.trace)
    requires (r.Ended? ==> r.trace != []) && (r'.Ended? ==> r'.trace != [])
    ensures AndThen(Ended(Setups(port.trace), port.code), r') == AndThen(Ended(Setups(ref.trace), ref.code), r) <==>
            port == ref && (ref.code != 0 || r' == r)
  {
    var u := if ref.code == 0 then r.trace else [];
    var v := if port.code == 0 then r'.trace else [];
    assert Setups(ref.trace) + [] == Setups(ref.trace) && Setups(port.trace) + [] == Setups(port.trace);
    if Setups(ref.trace) + u == Setups(port.trace) + v {
      SplitIsUnique(ref.trace, u, port.trace, v);
    }
  }

  /** The run of the port is that of the reference exactly when init_fabric is, and
      fails or is followed by the same rest. */
  lemma ProcessAgreesIff(client: bool, requested: nat, txLimit: nat, rxLimit: nat, memory: bool, w: World)
    requires IntCodes(w.setup)
    ensures PortProcess(client, requested, txLimit, rxLimit, w)
            == RefProcess(client, requested, txLimit, rxLimit, memory, w) <==>
            && PortInit(requested, txLimit, rxLimit, w.setup) == RefInit(requested, txLimit, rxLimit, memory, w.setup)
            && (RefInit(requested, txLimit, rxLimit, memory, w.setup).code != 0 || EndsBeforeTest(client, w))
  {
    var n := Negotiated(requested, txLimit, rxLimit);
    PortCodeIsKept(requested, txLimit, rxLimit, w.setup);
    RestPastSetup(client, n, w);
    SameWhole(RefInit(requested, txLimit, rxLimit, memory, w.setup), PortInit(requested, txLimit, rxLimit, w.setup),
              RefRest(client, n, w), PortRest(client, w));
    if n > 0 {
      RestAgreesIff(client, n, w);
    }
  }

  // ------------------------------------------------------------------- data transfer

  /** The calls by which a program takes part in the transfer of context i. */
  function Transfers(client: bool, i: nat): set<Call> {
    if client then {SendData(i), Read(ForSent(i))} else {Read(ForData(i))}
  }

  lemma RunReaches(items: seq<Item>, k: nat, w: World)
    requires k < |items|
    requires var r := RunItems(items, RefDoes(w)); r.Ended? && r.code == 0
    ensures items[k].Do? ==> items[k].call in RunItems(items, RefDoes(w)).trace
    ensures items[k].Await? ==> Read(items[k].wait) in RunItems(items, RefDoes(w)).trace
  {
    if k == 0 {
      var first := RunItem(items[0], w, RefPoll());
      if items[0].Await? {
        WaitInBoth(items[0].wait, w);
      }
      assert first.trace[0] in first.trace;
    } else {
      RunReaches(items[1..], k - 1, w);
    }
  }

  lemma {:induction false} TestHas(client: bool, n: nat, i: nat)
    requires i < n
    ensures forall item :: item in TestRound(client, i) ==> item in TestItems(client, n)
  {
    if i < n - 1 {
      TestHas(client, n - 1, i);
    }
  }

  /** A run of the reference that succeeds took part in every transfer. */
  lemma RefTransfersAll(client: bool, requested: nat, txLimit: nat, rxLimit: nat, memory: bool, w: World, i: nat)
    requires var r := RefProcess(client, requested, txLimit, rxLimit, memory, w); r.Ended? && r.code == 0
    requires i < Negotiated(requested, txLimit, rxLimit)
    ensures forall c :: c in Transfers(client, i) ==>
              c in RefProcess(client, requested, txLimit, rxLimit, memory, w).trace
  {
    var n := Negotiated(requested, txLimit, rxLimit);
    var items := ExchangeItems(client) + RepostItems() + TestItems(client, n);
    TestHas(client, n, i);
    forall item | item in TestRound(client, i)
      ensures (if item.Do? then item.call else Read(item.wait)) in RunItems(items, RefDoes(w)).trace
    {
      assert item in items;
      var k :| 0 <= k < |items| && items[k] == item;
      RunReaches(items, k, w);
    }
    if client {
      assert TestRound(client, i)[0] == Do(SendData(i)) && TestRound(client, i)[1] == Await(ForSent(i));
    } else {
      assert TestRound(client, i)[0] == Await(ForData(i));
    }
  }

  ghost predicate NoTransfer(items: seq<Item>) {
    forall k :: 0 <= k < |items| ==>
      match items[k]
      case Do(c) => !c.SendData? && !c.Read?
      case Await(v) => v.ForPeer? || v.ForFirstSend?
  }

  lemma {:induction false} RunTransfersNothing(items: seq<Item>, w: World, c: Call)
    requires NoTransfer(items) && c in RunItems(items, PortDoes(w)).trace
    ensures forall client, i: nat :: c !in Transfers(client, i)
  {
    if c !in RunItem(items[0], w, PortPoll()).trace {
      RunTransfersNothing(items[1..], w, c);
    }
  }

  /** The port takes part in none, whatever happens. */
  lemma PortTransfersNothing(client: bool, requested: nat, txLimit: nat, rxLimit: nat, w: World, i: nat)
    ensures forall c :: c in Transfers(client, i) ==> c !in PortProcess(client, requested, txLimit, rxLimit, w).trace
  {
    PortRestIsAv(client, w);
    forall c | c in PortProcess(client, requested, txLimit, rxLimit, w).trace ensures c !in Transfers(client, i) {
      if c in RunItems(ExchangeItems(client), PortDoes(w)).trace {
        RunTransfersNothing(ExchangeItems(client), w, c);
      } else if c in RunItems(RepostItems(), PortDoes(w)).trace {
        RunTransfersNothing(RepostItems(), w, c);
      } else {
        assert c in Setups(PortInit(requested, txLimit, rxLimit, w.setup).trace);
      }
    }
  }

  /** So whenever the reference succeeds, the port has done something else. */
  lemma SuccessDiffers(client: bool, requested: nat, txLimit: nat, rxLimit: nat, memory: bool, w: World)
    requires var r := RefProcess(client, requested, txLimit, rxLimit, memory, w); r.Ended? && r.code == 0
    ensures PortProcess(client, requested, txLimit, rxLimit, w)
            != RefProcess(client, requested, txLimit, rxLimit, memory, w)
  {
    assert RefInit(requested, txLimit, rxLimit, memory, w.setup).code == 0;
    RefTransfersAll(client, requested, txLimit, rxLimit, memory, w, 0);
    PortTransfersNothing(client, requested, txLimit, rxLimit, w, 0);
    assert (if client then SendData(0) else Read(ForData(0))) in Transfers(client, 0);
  }
}
