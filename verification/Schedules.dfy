/** Runs that produce a given record: the schedules behind the theorem about what
    the server's comparisons can find. */
module Schedules {
  import opened Transport
  import opened Protocol
  import opened Invariant
  import opened Steps
  import opened Progress
  import opened Runs
  import opened Outcomes

  // ------------------------------------- both programs come to the start of run_test

  predicate EarlyClient(pc: Pc) {
    !pc.Sending? && !pc.AwaitingSent? && !pc.Done? && (pc.Writing? ==> pc.i == 0)
  }

  predicate EarlyServer(pc: Pc) {
    !pc.Comparing? && !pc.Done? && (pc.AwaitingData? ==> pc.i == 0)
  }

  lemma ClientStaysEarly(cfg: Cfg, s: State)
    requires ClientCanStep(cfg, s) && EarlyClient(s.client.pc) && s.client.pc != Writing(0)
    ensures EarlyClient(ClientStep(cfg, s).client.pc) && ClientStep(cfg, s).server == s.server
  {
  }

  lemma ServerStaysEarly(cfg: Cfg, s: State)
    requires ServerCanStep(cfg, s) && EarlyServer(s.server.pc) && s.server.pc != AwaitingData(0)
    ensures EarlyServer(ServerStep(cfg, s).server.pc) && ServerStep(cfg, s).client == s.client
  {
  }

  lemma NetworkOnly(cfg: Cfg, s: State, e: Step)
    requires Enabled(cfg, s, e) && e != Client && e != Server
    ensures Apply(cfg, s, e).client == s.client && Apply(cfg, s, e).server == s.server
    ensures Apply(cfg, s, e).seen == s.seen
  {
  }

  /** A step that leaves a program alone that has come to run_test. */
  lemma EarlyStep(cfg: Cfg, s: State) returns (e: Step)
    requires Inv(cfg, s)
    requires s.client.pc != Writing(0) || s.server.pc != AwaitingData(0)
    requires EarlyClient(s.client.pc) && EarlyServer(s.server.pc)
    ensures Enabled(cfg, s, e)
    ensures e == Client ==> s.client.pc != Writing(0)
    ensures e == Server ==> s.server.pc != AwaitingData(0)
  {
    if s.server.pc == AwaitingData(0) {
      e := ClientProgress(cfg, s);
    } else if s.client.pc == Writing(0) {
      Causality(cfg, s);
      if s.server.pc.AwaitingTx? {
        e := ReplyCompletes(cfg, s);
      } else {
        ServerRuns(cfg, s);
        e := Server;
      }
    } else {
      e := SomeStep(cfg, s);
    }
  }

  lemma {:induction false} Meet(cfg: Cfg, s: State) returns (t: State)
    requires Inv(cfg, s) && EarlyClient(s.client.pc) && EarlyServer(s.server.pc)
    ensures Reaches(cfg, s, t) && Inv(cfg, t)
    ensures t.client.pc == Writing(0) && t.server.pc == AwaitingData(0)
    decreases Rest(cfg, s)
  {
    if s.client.pc == Writing(0) && s.server.pc == AwaitingData(0) {
      ReachesSelf(cfg, s);
      t := s;
    } else {
      var e := EarlyStep(cfg, s);
      StepRest(cfg, s, e);
      RestNonnegative(cfg, s);
      if e == Client {
        ClientStaysEarly(cfg, s);
      } else if e == Server {
        ServerStaysEarly(cfg, s);
      } else {
        NetworkOnly(cfg, s, e);
      }
      t := Meet(cfg, Apply(cfg, s, e));
      ReachesVia(cfg, s, e, t);
    }
  }

  // ---------------------------------------------- the client runs, the server waits

  /** Where the client stands when it has sent the data of k contexts. */
  function Target(n: nat, k: nat): Pc {
    if k < n then Writing(k) else Done
  }

  predicate Behind(pc: Pc, n: nat, k: nat) {
    k <= n &&
    match pc
    case Writing(i) => i <= k && i < n
    case Sending(i) => i < k
    case AwaitingSent(i) => i < k
    case Done => k == n
    case _ => false
  }

  lemma ClientStaysBehind(cfg: Cfg, s: State, k: nat)
    requires Inv(cfg, s) && ClientCanStep(cfg, s)
    requires Behind(s.client.pc, cfg.n, k) && s.client.pc != Target(cfg.n, k)
    ensures Behind(ClientStep(cfg, s).client.pc, cfg.n, k)
    ensures ClientStep(cfg, s).server == s.server && ClientStep(cfg, s).seen == s.seen
  {
    InvClient(cfg, s);
  }

  lemma ClientRunsOn(cfg: Cfg, s: State, k: nat) returns (e: Step)
    requires Inv(cfg, s) && InTest(s.server.pc)
    requires Behind(s.client.pc, cfg.n, k) && s.client.pc != Target(cfg.n, k)
    ensures Enabled(cfg, s, e)
    ensures var t := Apply(cfg, s, e);
            && Behind(t.client.pc, cfg.n, k) && t.server == s.server && t.seen == s.seen
            && (cfg.level == OnTransmit ==> Calm(s.up, t.up))
  {
    e := ClientProgress(cfg, s);
    var _ := StepGrows(cfg, s, e);
    if e == Client {
      ClientStaysBehind(cfg, s, k);
    } else {
      NetworkOnly(cfg, s, e);
    }
  }

  lemma {:induction false} ClientRunsTo(cfg: Cfg, s: State, k: nat) returns (t: State)
    requires Inv(cfg, s) && InTest(s.server.pc) && Behind(s.client.pc, cfg.n, k)
    ensures Reaches(cfg, s, t) && Inv(cfg, t)
    ensures t.client.pc == Target(cfg.n, k) && t.server == s.server && t.seen == s.seen
    ensures cfg.level == OnTransmit ==> Calm(s.up, t.up)
    decreases Rest(cfg, s)
  {
    if s.client.pc == Target(cfg.n, k) {
      ReachesSelf(cfg, s);
      t := s;
    } else {
      var e := ClientRunsOn(cfg, s, k);
      StepRest(cfg, s, e);
      RestNonnegative(cfg, s);
      t := ClientRunsTo(cfg, Apply(cfg, s, e), k);
      ReachesVia(cfg, s, e, t);
    }
  }

  /** If sends complete on delivery, the buffer then holds the last data sent. */
  lemma LastIsSent(cfg: Cfg, s: State, j: nat)
    requires Inv(cfg, s) && cfg.level == OnDelivery && j < cfg.n
    requires s.client.pc == Target(cfg.n, j + 1) && InTest(s.server.pc)
    ensures s.up.last == j && forall c: nat :: c <= j ==> DataIn(s.up, c)
  {
    forall c: nat | c <= j ensures DataIn(s.up, c) {
      Lanes(cfg, s, c);
      ReapedLane(cfg, s.up, c);
    }
    LastAfterData(cfg.level, s.up, j);
    Lanes(cfg, s, s.up.last);
  }

  // --------------------------------------------------------- the server compares once

  /** Where the server stands when it has made i comparisons. */
  function Looked(n: nat, i: nat): Pc {
    if i < n then AwaitingData(i) else Done
  }

  lemma ServerReads(cfg: Cfg, s: State, i: nat) returns (t: State)
    requires Inv(cfg, s) && i < cfg.n && s.server.pc == AwaitingData(i) && DataIn(s.up, i)
    ensures Reaches(cfg, s, t) && Inv(cfg, t) && t.server.pc == Comparing(i)
    ensures t.client == s.client && t.seen == s.seen && Calm(s.up, t.up)
  {
    Lanes(cfg, s, i);
    ServerTakeForm(cfg, s, i, Comparing(i));
    InvServer(cfg, s);
    t := ServerStep(cfg, s);
    ReachesSelf(cfg, t);
    ReachesVia(cfg, s, Server, t);
  }

  lemma ServerLooks(cfg: Cfg, s: State, i: nat) returns (t: State)
    requires Inv(cfg, s) && i < cfg.n && s.server.pc == AwaitingData(i) && DataIn(s.up, i)
    ensures Reaches(cfg, s, t) && Inv(cfg, t)
    ensures t.server.pc == Looked(cfg.n, i + 1) && t.client == s.client && Calm(s.up, t.up)
    ensures s.up.last >= 0 && t.seen == s.seen + [Word(DATA + s.up.last)]
  {
    var u := ServerReads(cfg, s, i);
    BufferAtComparison(cfg, u);
    InvServer(cfg, u);
    t := ServerStep(cfg, u);
    ReachesSelf(cfg, t);
    ReachesVia(cfg, u, Server, t);
    ReachesOn(cfg, s, u, t);
  }

  // --------------------------------------- sends complete on delivery: one at a time

  lemma SendAndLook(cfg: Cfg, s: State, i: nat, j: nat) returns (t: State)
    requires Inv(cfg, s) && cfg.level == OnDelivery && Behind(s.client.pc, cfg.n, j + 1)
    requires s.server.pc == AwaitingData(i) && i <= j < cfg.n
    ensures Reaches(cfg, s, t) && Inv(cfg, t)
    ensures t.server.pc == Looked(cfg.n, i + 1) && t.client.pc == Target(cfg.n, j + 1)
    ensures t.seen == s.seen + [Word(DATA + j)]
  {
    var u := ClientRunsTo(cfg, s, j + 1);
    LastIsSent(cfg, u, j);
    t := ServerLooks(cfg, u, i);
    ReachesOn(cfg, s, u, t);
  }

  /** How many contexts the client has sent data for when comparison i is made. */
  function Bound(n: nat, f: seq<nat>, i: nat): nat {
    if i < |f| then f[i] + 1 else n
  }

  lemma BoundGrows(cfg: Cfg, f: seq<nat>, i: nat)
    requires Possible(cfg, f) && cfg.level == OnDelivery && i < cfg.n
    ensures i <= f[i] < cfg.n && Behind(Target(cfg.n, f[i] + 1), cfg.n, Bound(cfg.n, f, i + 1))
    ensures i + 1 == cfg.n ==> f[i] + 1 == cfg.n
  {
  }

  /** The client has sent what comparison i shall find, or less. */
  ghost predicate InStep(cfg: Cfg, s: State, f: seq<nat>, i: nat)
    requires i <= |f|
  {
    && s.server.pc == Looked(cfg.n, i) && s.seen == Data(f[..i])
    && Behind(s.client.pc, cfg.n, Bound(cfg.n, f, i)) && (i == cfg.n ==> s.client.pc.Done?)
  }

  lemma LookInStep(cfg: Cfg, s: State, f: seq<nat>, i: nat) returns (t: State)
    requires Inv(cfg, s) && cfg.level == OnDelivery && Possible(cfg, f) && i < cfg.n && InStep(cfg, s, f, i)
    ensures Reaches(cfg, s, t) && Inv(cfg, t) && InStep(cfg, t, f, i + 1)
  {
    BoundGrows(cfg, f, i);
    t := SendAndLook(cfg, s, i, f[i]);
    DataSnoc(f, i);
  }

  lemma {:induction false} LookInOrder(cfg: Cfg, s: State, f: seq<nat>, i: nat) returns (t: State)
    requires Inv(cfg, s) && cfg.level == OnDelivery && Possible(cfg, f) && i <= cfg.n && InStep(cfg, s, f, i)
    ensures Reaches(cfg, s, t) && Finished(t) && t.seen == Data(f)
    decreases cfg.n - i
  {
    if i == cfg.n {
      assert f[..i] == f;
      ReachesSelf(cfg, s);
      t := s;
    } else {
      var u := LookInStep(cfg, s, f, i);
      t := LookInOrder(cfg, u, f, i + 1);
      ReachesOn(cfg, s, u, t);
    }
  }

  // ----------------------------- sends complete earlier: the network delivers at will

  /** All data is sent; what the server has not received is on the wire. */
  lemma DataOnWire(cfg: Cfg, s: State, c: nat)
    requires Inv(cfg, s) && s.client.pc.Done? && InTest(s.server.pc) && c < cfg.n && !DataIn(s.up, c)
    ensures Msg(c, Word(DATA + c)) in s.up.rx[c].wire && s.up.rx[c].posted > 0
  {
    Lanes(cfg, s, c);
    ReapedLane(cfg, s.up, c);
    var q := s.up.rx[c];
    assert q.sent[|q.log|] == Msg(c, Word(DATA + c));
  }

  lemma Bring(cfg: Cfg, s: State, c: nat) returns (t: State)
    requires Inv(cfg, s) && s.client.pc.Done? && InTest(s.server.pc) && c < cfg.n && !DataIn(s.up, c)
    ensures Reaches(cfg, s, t) && Inv(cfg, t)
    ensures t.client == s.client && t.server == s.server && t.seen == s.seen
    ensures t.up.last == c && forall d: nat :: d < cfg.n ==> (DataIn(t.up, d) <==> DataIn(s.up, d) || d == c)
  {
    DataOnWire(cfg, s, c);
    Lanes(cfg, s, c);
    var m := Msg(c, Word(DATA + c));
    var e := Arrives(true, c, m);
    assert Enabled(cfg, s, e);
    InvStep(cfg, s, e);
    NetworkOnly(cfg, s, e);
    t := Apply(cfg, s, e);
    ArriveForm(cfg.level, s.up, c, m);
    ReachesSelf(cfg, t);
    ReachesVia(cfg, s, e, t);
  }

  /** The contexts whose data has been received. */
  ghost predicate Holds(n: nat, l: Link, d: set<nat>)
    requires |l.rx| == n
  {
    forall c: nat :: c < n ==> (DataIn(l, c) <==> c in d)
  }

  lemma CalmHolds(n: nat, l: Link, l': Link, d: set<nat>)
    requires |l.rx| == n && Calm(l, l') && Holds(n, l, d)
    ensures Holds(n, l', d)
  {
    assert forall c: nat :: c < n ==> (DataIn(l', c) <==> DataIn(l, c));
  }

  /** Data that is not in the buffer is brought there. */
  lemma BringIfNew(cfg: Cfg, s: State, d: set<nat>, v: nat) returns (t: State)
    requires Inv(cfg, s) && s.client.pc.Done? && InTest(s.server.pc) && Holds(cfg.n, s.up, d)
    requires v < cfg.n && (v in d ==> s.up.last == v)
    ensures Reaches(cfg, s, t) && Inv(cfg, t) && Holds(cfg.n, t.up, d + {v})
    ensures t.client == s.client && t.server == s.server && t.seen == s.seen && t.up.last == v
  {
    if v in d {
      ReachesSelf(cfg, s);
      t := s;
    } else {
      t := Bring(cfg, s, v);
    }
  }

  /** The server finds what is in the buffer. */
  lemma LookNow(cfg: Cfg, s: State, i: nat, d: set<nat>) returns (t: State)
    requires Inv(cfg, s) && i < cfg.n && s.server.pc == AwaitingData(i) && Holds(cfg.n, s.up, d) && i in d
    ensures Reaches(cfg, s, t) && Inv(cfg, t) && Holds(cfg.n, t.up, d)
    ensures t.server.pc == Looked(cfg.n, i + 1) && t.client == s.client
    ensures t.up.last == s.up.last >= 0 && t.seen == s.seen + [Word(DATA + s.up.last)]
  {
    t := ServerLooks(cfg, s, i);
    CalmHolds(cfg.n, s.up, t.up, d);
  }

  /** The server finds the data of context v. */
  lemma LookFor(cfg: Cfg, s: State, i: nat, d: set<nat>, v: nat) returns (t: State)
    requires Inv(cfg, s) && i < cfg.n && s.server.pc == AwaitingData(i) && Holds(cfg.n, s.up, d)
    requires s.client.pc.Done? && v < cfg.n && i in d + {v} && (v in d ==> s.up.last == v)
    ensures Reaches(cfg, s, t) && Inv(cfg, t) && Holds(cfg.n, t.up, d + {v})
    ensures t.server.pc == Looked(cfg.n, i + 1) && t.client == s.client
    ensures t.up.last == v && t.seen == s.seen + [Word(DATA + v)]
  {
    var u := BringIfNew(cfg, s, d, v);
    t := LookNow(cfg, u, i, d + {v});
    assert t.seen == u.seen + [Word(DATA + v)] && u.seen == s.seen;
    ReachesOn(cfg, s, u, t);
  }

  /** First the data arrives that no comparison shall find; the other data arrives
      before the first comparison that shall find it. */
  function Arrived(n: nat, f: seq<nat>, i: nat): set<nat>
    requires i <= |f|
  {
    set c: nat | c < n && (c !in f || c in f[..i])
  }

  lemma ArrivedNext(cfg: Cfg, f: seq<nat>, i: nat)
    requires Possible(cfg, f) && i < |f|
    ensures Arrived(cfg.n, f, i + 1) == Arrived(cfg.n, f, i) + {f[i]}
    ensures i in Arrived(cfg.n, f, i + 1)
    ensures f[i] in Arrived(cfg.n, f, i) ==> i > 0 && f[i - 1] == f[i]
  {
    assert f[..i + 1] == f[..i] + [f[i]];
    if i in f {
      var k :| 0 <= k < |f| && f[k] == i;
      if k > i {
        assert f[i] == f[k];
      }
      assert f[..i + 1][if k > i then i else k] == i;
    }
  }

  lemma {:induction false} BringUnseen(cfg: Cfg, s: State, f: seq<nat>, k: nat) returns (t: State)
    requires Inv(cfg, s) && s.client.pc.Done? && InTest(s.server.pc) && k <= cfg.n
    requires Holds(cfg.n, s.up, set c: nat | c < k && c !in f)
    ensures Reaches(cfg, s, t) && Inv(cfg, t)
    ensures t.client == s.client && t.server == s.server && t.seen == s.seen
    ensures Holds(cfg.n, t.up, set c: nat | c < cfg.n && c !in f)
    decreases cfg.n - k
  {
    if k == cfg.n {
      ReachesSelf(cfg, s);
      t := s;
    } else {
      var u := s;
      if k !in f {
        u := Bring(cfg, s, k);
      } else {
        ReachesSelf(cfg, s);
      }
      t := BringUnseen(cfg, u, f, k + 1);
      ReachesOn(cfg, s, u, t);
    }
  }

  lemma LookNext(cfg: Cfg, s: State, f: seq<nat>, i: nat) returns (t: State)
    requires Inv(cfg, s) && s.client.pc.Done? && Possible(cfg, f) && i < cfg.n
    requires s.server.pc == AwaitingData(i) && s.seen == Data(f[..i])
    requires Holds(cfg.n, s.up, Arrived(cfg.n, f, i)) && (i > 0 ==> s.up.last == f[i - 1])
    ensures Reaches(cfg, s, t) && Inv(cfg, t) && t.client == s.client
    ensures t.server.pc == Looked(cfg.n, i + 1) && t.seen == Data(f[..i + 1])
    ensures Holds(cfg.n, t.up, Arrived(cfg.n, f, i + 1)) && t.up.last == f[i]
  {
    ArrivedNext(cfg, f, i);
    t := LookFor(cfg, s, i, Arrived(cfg.n, f, i), f[i]);
    DataSnoc(f, i);
  }

  lemma {:induction false} LookAtWill(cfg: Cfg, s: State, f: seq<nat>, i: nat) returns (t: State)
    requires Inv(cfg, s) && s.client.pc.Done? && Possible(cfg, f) && i <= cfg.n
    requires s.server.pc == Looked(cfg.n, i) && s.seen == Data(f[..i])
    requires Holds(cfg.n, s.up, Arrived(cfg.n, f, i)) && (i > 0 ==> s.up.last == f[i - 1])
    ensures Reaches(cfg, s, t) && Finished(t) && t.seen == Data(f)
    decreases cfg.n - i
  {
    if i == cfg.n {
      assert f[..i] == f;
      ReachesSelf(cfg, s);
      t := s;
    } else {
      var u := LookNext(cfg, s, f, i);
      t := LookAtWill(cfg, u, f, i + 1);
      ReachesOn(cfg, s, u, t);
    }
  }

  // -------------------------------------------------------------------- the theorems

  lemma NothingInYet(cfg: Cfg, s: State)
    requires Inv(cfg, s) && s.client.pc == Writing(0)
    ensures Holds(cfg.n, s.up, {})
  {
    forall c: nat | c < cfg.n ensures !DataIn(s.up, c) {
      Lanes(cfg, s, c);
    }
  }

  lemma {:induction false} ProduceAtWill(cfg: Cfg, s: State, f: seq<nat>) returns (t: State)
    requires Inv(cfg, s) && cfg.level == OnTransmit && Possible(cfg, f)
    requires s.client.pc == Writing(0) && s.server.pc == AwaitingData(0) && s.seen == []
    ensures Reaches(cfg, s, t) && Finished(t) && t.seen == Data(f)
  {
    NothingInYet(cfg, s);
    var u := ClientRunsTo(cfg, s, cfg.n);
    CalmHolds(cfg.n, s.up, u.up, {});
    var v := BringUnseen(cfg, u, f, 0);
    assert Arrived(cfg.n, f, 0) == set c: nat | c < cfg.n && c !in f;
    t := LookAtWill(cfg, v, f, 0);
    ReachesOn(cfg, u, v, t);
    ReachesOn(cfg, s, u, t);
  }

  lemma PossibleIsProduced(cfg: Cfg, f: seq<nat>)
    requires ValidCfg(cfg) && Possible(cfg, f)
    ensures Produced(cfg, f)
  {
    InitInv(cfg);
    var m := Meet(cfg, Init(cfg));
    assert m.seen == Data(f[..0]);
    var t: State;
    if cfg.level == OnDelivery {
      t := LookInOrder(cfg, m, f, 0);
    } else {
      t := ProduceAtWill(cfg, m, f);
    }
    ReachesOn(cfg, Init(cfg), m, t);
  }

  /** The records of comparisons of the complete runs are exactly the possible
      ones. */
  lemma RecordsOfRuns(cfg: Cfg, f: seq<nat>)
    requires ValidCfg(cfg)
    ensures Produced(cfg, f) <==> Possible(cfg, f)
  {
    if Produced(cfg, f) {
      ProducedIsPossible(cfg, f);
    }
    if Possible(cfg, f) {
      PossibleIsProduced(cfg, f);
    }
  }

  /** Some run, complete or not, finds DATA + j at its comparison for context i. */
  ghost predicate Finds(cfg: Cfg, i: nat, j: int) {
    exists s :: Reachable(cfg, s) && i < |s.seen| && s.seen[i] == Word(DATA + j)
  }

  /** A possible record with j at every place where that can be. */
  function Witness(cfg: Cfg, j: nat): seq<nat>
    requires j < cfg.n
  {
    seq(cfg.n, a requires 0 <= a < cfg.n => if cfg.level == OnDelivery && j < a then a else j)
  }

  lemma WitnessIsPossible(cfg: Cfg, i: nat, j: nat)
    requires i < cfg.n && j < cfg.n && (cfg.level == OnDelivery ==> i <= j)
    ensures Possible(cfg, Witness(cfg, j)) && Witness(cfg, j)[i] == j
  {
  }

  lemma FindsExactly(cfg: Cfg, i: nat, j: int)
    requires ValidCfg(cfg) && i < cfg.n
    ensures Finds(cfg, i, j) <==> 0 <= j < cfg.n && (cfg.level == OnDelivery ==> i <= j)
  {
    if Finds(cfg, i, j) {
      var s :| Reachable(cfg, s) && i < |s.seen| && s.seen[i] == Word(DATA + j);
      InvReachable(cfg, s);
      assert SeenOk(cfg, i, s.seen[i]);
    }
    if 0 <= j < cfg.n && (cfg.level == OnDelivery ==> i <= j) {
      var f := Witness(cfg, j);
      WitnessIsPossible(cfg, i, j);
      PossibleIsProduced(cfg, f);
      var s :| Reachable(cfg, s) && Finished(s) && s.seen == Data(f);
      assert s.seen[i] == Word(DATA + j);
    }
  }

  /** The comparison for context i can fail exactly if there is other data it can
      find: if sends complete on delivery, the data of a later context. */
  lemma ComparisonCanFail(cfg: Cfg, i: nat)
    requires ValidCfg(cfg) && i < cfg.n
    ensures (exists s :: Reachable(cfg, s) && i < |s.seen| && s.seen[i] != Word(DATA + i))
            <==> if cfg.level == OnDelivery then i + 1 < cfg.n else cfg.n >= 2
  {
    if exists s :: Reachable(cfg, s) && i < |s.seen| && s.seen[i] != Word(DATA + i) {
      var s :| Reachable(cfg, s) && i < |s.seen| && s.seen[i] != Word(DATA + i);
      InvReachable(cfg, s);
      assert SeenOk(cfg, i, s.seen[i]);
    }
    if if cfg.level == OnDelivery then i + 1 < cfg.n else cfg.n >= 2 {
      var j := if i + 1 < cfg.n then i + 1 else 0;
      FindsExactly(cfg, i, j);
      var s :| Reachable(cfg, s) && i < |s.seen| && s.seen[i] == Word(DATA + j);
      assert s.seen[i] != Word(DATA + i);
    }
  }
}
