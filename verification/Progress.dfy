/** The system never deadlocks, and every run has the same length. */
module Progress {
  import opened Transport
  import opened Protocol
  import opened Invariant
  import opened Steps

  // --------------------------------------------------------- what is left to do

  /** Steps left to the client, and 3 network steps for each send to come. */
  function ClientRank(pc: Pc, n: nat): int {
    match pc
    case Binding(i) => 10 + 6 * n + (n - i)
    case InsertingPeer => 10 + 6 * n
    case Naming => 9 + 6 * n
    case SendingName => 8 + 6 * n
    case AwaitingReply => 4 + 6 * n
    case FillingAddrs => 3 + 6 * n
    case Reposting => 2 + 6 * n
    case AwaitingTx => 1 + 6 * n
    case Writing(i) => 6 * (n - i)
    case Sending(i) => 6 * (n - i) - 1
    case AwaitingSent(i) => 6 * (n - i) - 5
    case _ => 0
  }

  function ServerRank(pc: Pc, n: nat): int {
    match pc
    case Binding(i) => 9 + 2 * n + (n - i)
    case AwaitingName => 9 + 2 * n
    case InsertingPeer => 8 + 2 * n
    case Replying => 7 + 2 * n
    case FillingAddrs => 3 + 2 * n
    case Reposting => 2 + 2 * n
    case AwaitingTx => 1 + 2 * n
    case AwaitingData(i) => 2 * (n - i)
    case Comparing(i) => 2 * (n - i) - 1
    case _ => 0
  }

  /** Network steps left for the messages of one context that were transmitted. */
  function LaneRest(level: Level, q: RxQ, t: TxQ): nat {
    (if level == OnDelivery then 2 * |q.wire| + |q.early| else |q.wire|) + t.owed
  }

  function SumRest(level: Level, l: Link, k: nat): nat
    requires k <= |l.rx| && k <= |l.tx|
  {
    if k == 0 then 0 else SumRest(level, l, k - 1) + LaneRest(level, l.rx[k - 1], l.tx[k - 1])
  }

  function LinkRest(level: Level, l: Link, n: nat): nat
    requires |l.rx| == |l.tx| == n
  {
    3 * |l.pend| + SumRest(level, l, n)
  }

  function Rest(cfg: Cfg, s: State): int
    requires |s.up.rx| == |s.up.tx| == |s.down.rx| == |s.down.tx| == cfg.n
  {
    ClientRank(s.client.pc, cfg.n) + ServerRank(s.server.pc, cfg.n)
    + LinkRest(cfg.level, s.up, cfg.n) + LinkRest(cfg.level, s.down, cfg.n)
  }

  lemma {:induction false} SumSame(level: Level, l: Link, l': Link, k: nat)
    requires k <= |l.rx| && k <= |l.tx| && k <= |l'.rx| && k <= |l'.tx|
    requires forall d: nat :: d < k ==> LaneRest(level, l'.rx[d], l'.tx[d]) == LaneRest(level, l.rx[d], l.tx[d])
    ensures SumRest(level, l', k) == SumRest(level, l, k)
  {
    if k > 0 {
      SumSame(level, l, l', k - 1);
    }
  }

  /** One lane changes: the sum changes by as much. */
  lemma {:induction false} SumChange(level: Level, l: Link, l': Link, k: nat, c: nat)
    requires k <= |l.rx| && k <= |l.tx| && k <= |l'.rx| && k <= |l'.tx| && c < k
    requires forall d: nat :: d < k && d != c ==>
               LaneRest(level, l'.rx[d], l'.tx[d]) == LaneRest(level, l.rx[d], l.tx[d])
    ensures SumRest(level, l', k) - SumRest(level, l, k)
            == LaneRest(level, l'.rx[c], l'.tx[c]) - LaneRest(level, l.rx[c], l.tx[c])
  {
    if c == k - 1 {
      SumSame(level, l, l', k - 1);
    } else {
      SumChange(level, l, l', k - 1, c);
    }
  }

  // ------------------------------------------------ how much each operation does

  lemma PostRest(level: Level, l: Link, n: nat, c: nat)
    requires LinkOk(level, l, n) && c < n
    ensures |Post(level, l, c).rx| == |Post(level, l, c).tx| == n
    ensures LinkRest(level, Post(level, l, c), n) == LinkRest(level, l, n)
  {
    var l' := Post(level, l, c);
    assert LaneOk(level, l, c);
    if l.rx[c].early != [] {
      assert l.rx[c].early[0] in l.rx[c].sent;
    }
    SumChange(level, l, l', n, c);
  }

  lemma SendRest(level: Level, l: Link, n: nat, c: nat)
    requires |l.rx| == |l.tx| == n && c < n
    ensures LinkRest(level, Send(l, c, c), n) == LinkRest(level, l, n) + 3
  {
    SumChange(level, l, Send(l, c, c), n, c);
  }

  lemma TakeRest(level: Level, l: Link, n: nat, c: nat)
    requires |l.rx| == |l.tx| == n && c < n
    ensures l.tx[c].ready > 0 ==> LinkRest(level, TakeTx(l, c), n) == LinkRest(level, l, n)
    ensures l.rx[c].unread > 0 ==> LinkRest(level, TakeRx(l, c), n) == LinkRest(level, l, n)
  {
    if l.tx[c].ready > 0 {
      SumChange(level, l, TakeTx(l, c), n, c);
    }
    if l.rx[c].unread > 0 {
      SumChange(level, l, TakeRx(l, c), n, c);
    }
  }

  lemma WriteRest(level: Level, l: Link, n: nat, p: Payload)
    requires |l.rx| == |l.tx| == n
    ensures LinkRest(level, l.(txBuf := p), n) == LinkRest(level, l, n)
  {
    SumSame(level, l, l.(txBuf := p), n);
  }

  lemma TransmitRest(level: Level, l: Link, n: nat, k: nat)
    requires LinkOk(level, l, n) && k < |l.pend|
    ensures l.pend[k].to < n
    ensures |Transmit(level, l, k).rx| == |Transmit(level, l, k).tx| == n
    ensures LinkRest(level, Transmit(level, l, k), n) == LinkRest(level, l, n) - 1
  {
    var c: nat :| c < n && Pending(l, c);
    assert LaneOk(level, l, c);
    SumChange(level, l, Transmit(level, l, k), n, c);
  }

  lemma ArriveRest(level: Level, l: Link, n: nat, c: nat, m: Msg)
    requires LinkOk(level, l, n) && c < n && m in l.rx[c].wire
    ensures |Arrive(level, l, c, m).rx| == |Arrive(level, l, c, m).tx| == n
    ensures LinkRest(level, Arrive(level, l, c, m), n) == LinkRest(level, l, n) - 1
  {
    assert LaneOk(level, l, c);
    var q := l.rx[c];
    assert q.wire == multiset{m} && m == q.sent[|q.log|] && m in q.sent;
    assert m.tx == c;
    assert |q.wire - multiset{m}| == 0;
    SumChange(level, l, Arrive(level, l, c, m), n, c);
  }

  lemma CompleteRest(level: Level, l: Link, n: nat, c: nat)
    requires |l.rx| == |l.tx| == n && c < n && l.tx[c].owed > 0
    ensures LinkRest(level, Complete(l, c), n) == LinkRest(level, l, n) - 1
  {
    SumChange(level, l, Complete(l, c), n, c);
  }

  // ---------------------------------------------------------------- one step less

  ghost predicate Sized(cfg: Cfg, s: State) {
    |s.up.rx| == |s.up.tx| == |s.down.rx| == |s.down.tx| == cfg.n
  }

  lemma ClientPostsRest(cfg: Cfg, s: State, c: nat, q: Pc)
    requires Sized(cfg, s) && LinkOk(cfg.level, s.down, cfg.n) && c < cfg.n
    requires || (s.client.pc == Binding(c) && q == if c + 1 < cfg.n then Binding(c + 1) else InsertingPeer)
             || (s.client.pc == Reposting && q == AwaitingTx && c == 0)
    ensures ClientCanStep(cfg, s) && Sized(cfg, ClientStep(cfg, s))
    ensures Rest(cfg, ClientStep(cfg, s)) == Rest(cfg, s) - 1
  {
    ClientPostForm(cfg, s, c, q);
    PostRest(cfg.level, s.down, cfg.n, c);
  }

  lemma ClientWritesRest(cfg: Cfg, s: State, p: Payload, q: Pc)
    requires Sized(cfg, s)
    requires || (s.client.pc == Naming && p == ClientName && q == SendingName)
             || (s.client.pc.Writing? && p == Word(DATA + s.client.pc.i) && q == Sending(s.client.pc.i))
    ensures Sized(cfg, ClientStep(cfg, s)) && Rest(cfg, ClientStep(cfg, s)) == Rest(cfg, s) - 1
  {
    ClientWriteForm(cfg, s, p, q);
    WriteRest(cfg.level, s.up, cfg.n, p);
  }

  lemma ClientReapsRest(cfg: Cfg, s: State, c: nat, q: Pc)
    requires Sized(cfg, s) && c < cfg.n && s.up.tx[c].ready > 0
    requires || (s.client.pc == AwaitingTx && q == Writing(0) && c == 0)
             || (s.client.pc == AwaitingSent(c) && q == if c + 1 < cfg.n then Writing(c + 1) else Done)
    ensures ClientCanStep(cfg, s) && Sized(cfg, ClientStep(cfg, s))
    ensures Rest(cfg, ClientStep(cfg, s)) == Rest(cfg, s) - 1
  {
    ClientReapForm(cfg, s, c, q);
    TakeRest(cfg.level, s.up, cfg.n, c);
  }

  lemma ClientTakesRest(cfg: Cfg, s: State)
    requires Sized(cfg, s) && s.client.pc.AwaitingReply? && ClientCanStep(cfg, s)
    ensures Sized(cfg, ClientStep(cfg, s)) && Rest(cfg, ClientStep(cfg, s)) == Rest(cfg, s) - 1
  {
    TakeRest(cfg.level, s.down, cfg.n, 0);
  }

  /** The client's send goes from context c to the same context of the server. */
  lemma ClientSendsRest(cfg: Cfg, s: State, c: nat, addr: nat, next: Pc)
    requires Sized(cfg, s) && c < cfg.n && Route(cfg, cfg.serverHandle, addr) == At(c)
    requires ClientRank(next, cfg.n) == ClientRank(s.client.pc, cfg.n) - 4
    ensures var s' := ClientSend(cfg, s, c, addr, next);
            Sized(cfg, s') && Rest(cfg, s') == Rest(cfg, s) - 1
  {
    SendRest(cfg.level, s.up, cfg.n, c);
  }

  lemma ClientRest(cfg: Cfg, s: State)
    requires Inv(cfg, s) && ClientCanStep(cfg, s)
    ensures Sized(cfg, ClientStep(cfg, s)) && Rest(cfg, ClientStep(cfg, s)) == Rest(cfg, s) - 1
  {
    match s.client.pc
    case Binding(i) => ClientPostsRest(cfg, s, i, if i + 1 < cfg.n then Binding(i + 1) else InsertingPeer);
    case Reposting => ClientPostsRest(cfg, s, 0, AwaitingTx);
    case InsertingPeer | FillingAddrs =>
    case Naming => ClientWritesRest(cfg, s, ClientName, SendingName);
    case Writing(i) => ClientWritesRest(cfg, s, Word(DATA + i), Sending(i));
    case AwaitingReply => ClientTakesRest(cfg, s);
    case AwaitingTx => ClientReapsRest(cfg, s, 0, Writing(0));
    case AwaitingSent(i) => ClientReapsRest(cfg, s, i, if i + 1 < cfg.n then Writing(i + 1) else Done);
    case SendingName =>
      RouteOfBase(cfg, cfg.serverHandle);
      ClientSendsRest(cfg, s, 0, s.client.peer, AwaitingReply);
    case Sending(i) =>
      RouteOfRxAddr(cfg, cfg.serverHandle, i);
      ClientSendsRest(cfg, s, i, s.client.addrs[i], AwaitingSent(i));
  }

  lemma ServerPostsRest(cfg: Cfg, s: State, c: nat, q: Pc)
    requires Sized(cfg, s) && LinkOk(cfg.level, s.up, cfg.n) && c < cfg.n
    requires || (s.server.pc == Binding(c) && q == if c + 1 < cfg.n then Binding(c + 1) else AwaitingName)
             || (s.server.pc == Reposting && q == AwaitingTx && c == 0)
    ensures ServerCanStep(cfg, s) && Sized(cfg, ServerStep(cfg, s))
    ensures Rest(cfg, ServerStep(cfg, s)) == Rest(cfg, s) - 1
  {
    ServerPostForm(cfg, s, c, q);
    PostRest(cfg.level, s.up, cfg.n, c);
  }

  lemma ServerTakesRest(cfg: Cfg, s: State, c: nat, q: Pc)
    requires Sized(cfg, s) && c < cfg.n && s.up.rx[c].unread > 0
    requires || (s.server.pc == AwaitingName && q == InsertingPeer && c == 0)
             || (s.server.pc == AwaitingData(c) && q == Comparing(c))
    ensures ServerCanStep(cfg, s) && Sized(cfg, ServerStep(cfg, s))
    ensures Rest(cfg, ServerStep(cfg, s)) == Rest(cfg, s) - 1
  {
    ServerTakeForm(cfg, s, c, q);
    TakeRest(cfg.level, s.up, cfg.n, c);
  }

  lemma ServerRepliesRest(cfg: Cfg, s: State)
    requires ValidCfg(cfg) && Sized(cfg, s) && s.server.pc.Replying? && s.server.peer == cfg.clientHandle
    ensures Sized(cfg, ServerStep(cfg, s)) && Rest(cfg, ServerStep(cfg, s)) == Rest(cfg, s) - 1
  {
    RouteOfBase(cfg, cfg.clientHandle);
    SendRest(cfg.level, s.down, cfg.n, 0);
  }

  lemma ServerReapsRest(cfg: Cfg, s: State)
    requires Sized(cfg, s) && s.server.pc.AwaitingTx? && ServerCanStep(cfg, s)
    ensures Sized(cfg, ServerStep(cfg, s)) && Rest(cfg, ServerStep(cfg, s)) == Rest(cfg, s) - 1
  {
    TakeRest(cfg.level, s.down, cfg.n, 0);
  }

  lemma ServerRest(cfg: Cfg, s: State)
    requires Inv(cfg, s) && ServerCanStep(cfg, s)
    ensures Sized(cfg, ServerStep(cfg, s)) && Rest(cfg, ServerStep(cfg, s)) == Rest(cfg, s) - 1
  {
    match s.server.pc
    case Binding(i) => ServerPostsRest(cfg, s, i, if i + 1 < cfg.n then Binding(i + 1) else AwaitingName);
    case Reposting => ServerPostsRest(cfg, s, 0, AwaitingTx);
    case AwaitingName => ServerTakesRest(cfg, s, 0, InsertingPeer);
    case AwaitingData(i) => ServerTakesRest(cfg, s, i, Comparing(i));
    case InsertingPeer => ServerInserts(cfg, s);
    case Replying => ServerRepliesRest(cfg, s);
    case AwaitingTx => ServerReapsRest(cfg, s);
    case FillingAddrs | Comparing(_) =>
  }

  lemma StepRest(cfg: Cfg, s: State, e: Step)
    requires Inv(cfg, s) && Enabled(cfg, s, e)
    ensures Inv(cfg, Apply(cfg, s, e)) && Rest(cfg, Apply(cfg, s, e)) == Rest(cfg, s) - 1
  {
    InvStep(cfg, s, e);
    match e
    case Client => ClientRest(cfg, s);
    case Server => ServerRest(cfg, s);
    case Transmits(up, k) => TransmitRest(cfg.level, LinkAt(s, up), cfg.n, k);
    case Arrives(up, c, m) => ArriveRest(cfg.level, LinkAt(s, up), cfg.n, c, m);
    case Completes(up, c) => CompleteRest(cfg.level, LinkAt(s, up), cfg.n, c);
  }

  // ------------------------------------------------------------- a step is enabled

  /** A message that is not received, with a receive for it, can move. */
  lemma MessageMoves(cfg: Cfg, s: State, up: bool, c: nat) returns (e: Step)
    requires Inv(cfg, s) && c < cfg.n
    requires var q := LinkAt(s, up).rx[c]; |q.log| < |q.sent| && |q.log| < q.posts
    ensures Enabled(cfg, s, e) && (e == Transmits(up, 0) || (e.Arrives? && e.up == up && e.c == c))
  {
    Lanes(cfg, s, c);
    var l := LinkAt(s, up);
    if Pending(l, c) {
      e := Transmits(up, 0);
    } else {
      var m := l.rx[c].sent[|l.rx[c].log|];
      assert l.rx[c].wire == multiset{m};
      e := Arrives(up, c, m);
    }
  }

  /** A completion that is due and not read is in the queue or can come. */
  lemma CompletionComes(cfg: Cfg, s: State, up: bool, c: nat)
    requires Inv(cfg, s) && c < cfg.n
    requires var l := LinkAt(s, up); l.tx[c].reaped < Progress(cfg.level, l.rx[c], Pending(l, c))
    ensures LinkAt(s, up).tx[c].ready > 0 || Enabled(cfg, s, Completes(up, c))
  {
    Lanes(cfg, s, c);
  }

  predicate ClientWaits(pc: Pc) {
    pc.AwaitingReply? || pc.AwaitingTx? || pc.AwaitingSent?
  }

  predicate ServerWaits(pc: Pc) {
    pc.AwaitingName? || pc.AwaitingTx? || pc.AwaitingData?
  }

  lemma ClientRuns(cfg: Cfg, s: State)
    requires Inv(cfg, s) && !ClientWaits(s.client.pc) && !s.client.pc.Done?
    ensures ClientCanStep(cfg, s)
  {
    if s.client.pc.Sending? {
      ClientSendsData(cfg, s);
    }
  }

  lemma ServerRuns(cfg: Cfg, s: State)
    requires Inv(cfg, s) && !ServerWaits(s.server.pc) && !s.server.pc.Done?
    ensures ServerCanStep(cfg, s)
  {
  }

  lemma ReplyComes(cfg: Cfg, s: State) returns (e: Step)
    requires Inv(cfg, s) && s.client.pc.AwaitingReply? && ReplySent(s.server.pc)
    ensures Enabled(cfg, s, e) && e != Server
  {
    Lanes(cfg, s, 0);
    if s.down.rx[0].log == [] {
      e := MessageMoves(cfg, s, false, 0);
    } else {
      e := Client;
    }
  }

  lemma NameCompletes(cfg: Cfg, s: State) returns (e: Step)
    requires Inv(cfg, s) && s.client.pc.AwaitingTx?
    ensures Enabled(cfg, s, e) && (e == Client || e.Completes?)
  {
    Causality(cfg, s);
    Lanes(cfg, s, 0);
    CompletionComes(cfg, s, true, 0);
    e := if s.up.tx[0].ready > 0 then Client else Completes(true, 0);
  }

  lemma DataCompletes(cfg: Cfg, s: State) returns (e: Step)
    requires Inv(cfg, s) && s.client.pc.AwaitingSent? && InTest(s.server.pc)
    ensures Enabled(cfg, s, e) && e != Server
    ensures cfg.level == OnTransmit ==> !e.Arrives?
  {
    var i := s.client.pc.i;
    Lanes(cfg, s, i);
    var q := s.up.rx[i];
    if Progress(cfg.level, q, Pending(s.up, i)) == |q.sent| {
      CompletionComes(cfg, s, true, i);
      e := if s.up.tx[i].ready > 0 then Client else Completes(true, i);
    } else {
      e := MessageMoves(cfg, s, true, i);
    }
  }

  /** The server may be left alone once it is in run_test: the client still gets
      through. */
  lemma ClientProgress(cfg: Cfg, s: State) returns (e: Step)
    requires Inv(cfg, s) && InTest(s.server.pc) && !s.client.pc.Done?
    ensures Enabled(cfg, s, e) && e != Server
    ensures cfg.level == OnTransmit && InTest(s.client.pc) ==> !e.Arrives?
  {
    match s.client.pc
    case AwaitingReply => e := ReplyComes(cfg, s);
    case AwaitingTx => e := NameCompletes(cfg, s);
    case AwaitingSent(_) => e := DataCompletes(cfg, s);
    case _ =>
      ClientRuns(cfg, s);
      e := Client;
  }

  lemma ReplyCompletes(cfg: Cfg, s: State) returns (e: Step)
    requires Inv(cfg, s) && s.server.pc.AwaitingTx? && !s.client.pc.Binding?
    ensures Enabled(cfg, s, e) && e != Client
  {
    Lanes(cfg, s, 0);
    if s.down.rx[0].log == [] {
      e := MessageMoves(cfg, s, false, 0);
    } else {
      CompletionComes(cfg, s, false, 0);
      e := if s.down.tx[0].ready > 0 then Server else Completes(false, 0);
    }
  }

  lemma NameComes(cfg: Cfg, s: State) returns (e: Step)
    requires Inv(cfg, s) && s.server.pc.AwaitingName? && NameSent(s.client.pc)
    ensures Enabled(cfg, s, e) && e != Client
  {
    Lanes(cfg, s, 0);
    if s.up.rx[0].log == [] {
      e := MessageMoves(cfg, s, true, 0);
    } else {
      e := Server;
    }
  }

  lemma DataComes(cfg: Cfg, s: State) returns (e: Step)
    requires Inv(cfg, s) && s.server.pc.AwaitingData? && s.server.pc.i < DataSent(s.client.pc, cfg.n)
    ensures Enabled(cfg, s, e) && e != Client
  {
    Causality(cfg, s);
    var i := s.server.pc.i;
    Lanes(cfg, s, i);
    if |s.up.rx[i].log| < |s.up.rx[i].sent| {
      e := MessageMoves(cfg, s, true, i);
    } else {
      e := Server;
    }
  }

  /** Both programs are at their ends. */
  predicate Finished(s: State) {
    s.client.pc.Done? && s.server.pc.Done?
  }

  lemma SomeStep(cfg: Cfg, s: State) returns (e: Step)
    requires Inv(cfg, s) && !Finished(s)
    ensures Enabled(cfg, s, e)
  {
    if !ClientWaits(s.client.pc) && !s.client.pc.Done? {
      ClientRuns(cfg, s);
      e := Client;
    } else if !ServerWaits(s.server.pc) && !s.server.pc.Done? {
      ServerRuns(cfg, s);
      e := Server;
    } else if InTest(s.server.pc) && !s.client.pc.Done? {
      e := ClientProgress(cfg, s);
    } else {
      Causality(cfg, s);
      match s.server.pc
      case AwaitingName => e := NameComes(cfg, s);
      case AwaitingTx => e := ReplyCompletes(cfg, s);
      case AwaitingData(_) => e := DataComes(cfg, s);
    }
  }
}
