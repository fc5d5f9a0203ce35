/** What the server's comparisons can find in the shared rx_buf: exactly which
    records of comparisons the complete runs produce. */
module Outcomes {
  import opened Transport
  import opened Protocol
  import opened Invariant
  import opened Steps
  import opened Progress
  import opened Runs

  /** The record of a run that compared DATA + f[0], DATA + f[1] and so on. */
  function Data(f: seq<nat>): seq<Payload> {
    seq(|f|, i requires 0 <= i < |f| => Word(DATA + f[i]))
  }

  lemma DataSnoc(f: seq<nat>, i: nat)
    requires i < |f|
    ensures Data(f[..i + 1]) == Data(f[..i]) + [Word(DATA + f[i])]
  {
  }

  /** A message is written to the buffer once: what stops being its content does
      not come back, and what context m waited for was written by then. */
  ghost predicate WrittenOnce(f: seq<nat>) {
    && (forall a, m, k :: 0 <= a <= m <= k < |f| && f[a] == f[k] ==> f[m] == f[a])
    && (forall m, k :: 0 <= m <= k < |f| && f[k] <= m ==> f[m] == f[k])
  }

  ghost predicate Possible(cfg: Cfg, f: seq<nat>) {
    && |f| == cfg.n
    && (forall i :: 0 <= i < |f| ==> f[i] < cfg.n)
    && WrittenOnce(f)
    && (cfg.level == OnDelivery ==> forall i, k :: 0 <= i <= k < |f| ==> i <= f[i] <= f[k])
  }

  ghost predicate Produced(cfg: Cfg, f: seq<nat>) {
    exists s :: Reachable(cfg, s) && Finished(s) && s.seen == Data(f)
  }

  // -------------------------------------------------- a step writes rx_buf at most once

  ghost predicate Calm(l: Link, l': Link) {
    && |l'.rx| == |l.rx| && l'.last == l.last
    && (forall c: nat :: c < |l.rx| ==> l'.rx[c].log == l.rx[c].log)
  }

  /** A message was received in context c. */
  ghost predicate Grew(l: Link, l': Link, c: nat) {
    && c < |l.rx| == |l'.rx| && l'.last == c
    && |l.rx[c].log| < |l.rx[c].sent| && |l'.rx[c].log| == |l.rx[c].log| + 1
    && (forall d: nat :: d < |l.rx| && d != c ==> l'.rx[d].log == l.rx[d].log)
  }

  lemma PostGrows(level: Level, l: Link, n: nat, c: nat)
    requires LinkOk(level, l, n) && c < n
    ensures Calm(l, Post(level, l, c)) || Grew(l, Post(level, l, c), c)
  {
    assert LaneOk(level, l, c);
  }

  lemma ArriveGrows(level: Level, l: Link, n: nat, c: nat, m: Msg)
    requires LinkOk(level, l, n) && c < n && m in l.rx[c].wire
    ensures Calm(l, Arrive(level, l, c, m)) || Grew(l, Arrive(level, l, c, m), c)
  {
    assert LaneOk(level, l, c);
  }

  lemma ClientIsCalm(cfg: Cfg, s: State)
    requires ClientCanStep(cfg, s)
    ensures Calm(s.up, ClientStep(cfg, s).up)
  {
  }

  lemma ServerGrows(cfg: Cfg, s: State) returns (c: nat)
    requires LinkOk(cfg.level, s.up, cfg.n) && ServerCanStep(cfg, s)
    ensures Calm(s.up, ServerStep(cfg, s).up) || Grew(s.up, ServerStep(cfg, s).up, c)
  {
    c := if s.server.pc.Binding? then s.server.pc.i else 0;
    if s.server.pc.Binding? || s.server.pc.Reposting? {
      PostGrows(cfg.level, s.up, cfg.n, c);
    }
  }

  lemma StepGrows(cfg: Cfg, s: State, e: Step) returns (c: nat)
    requires LinkOk(cfg.level, s.up, cfg.n) && Enabled(cfg, s, e)
    ensures Calm(s.up, Apply(cfg, s, e).up) || Grew(s.up, Apply(cfg, s, e).up, c)
    ensures e != Server && !e.Arrives? ==> Calm(s.up, Apply(cfg, s, e).up)
  {
    c := 0;
    match e
    case Client => ClientIsCalm(cfg, s);
    case Server => c := ServerGrows(cfg, s);
    case Arrives(up, d, m) =>
      if up {
        c := d;
        ArriveGrows(cfg.level, s.up, cfg.n, d, m);
      }
    case Transmits(_, _) =>
    case Completes(_, _) =>
  }

  // -------------------------------------------------------- every record is possible

  /** The record f of the comparisons so far, when last was written to rx_buf last. */
  ghost predicate Fits(level: Level, f: seq<nat>, last: int) {
    && WrittenOnce(f)
    && (forall a, m :: 0 <= a <= m < |f| && f[a] == last ==> f[m] == last)
    && (forall m :: 0 <= m < |f| && 0 <= last <= m ==> f[m] == last)
    && (level == OnDelivery ==>
          && (forall a, m :: 0 <= a <= m < |f| ==> a <= f[a] <= f[m])
          && (forall a :: 0 <= a < |f| ==> f[a] <= last))
  }

  lemma WrittenOnceSnoc(level: Level, f: seq<nat>, last: nat)
    requires Fits(level, f, last)
    ensures WrittenOnce(f + [last])
  {
    var g := f + [last];
    forall a, m, k | 0 <= a <= m <= k < |g| && g[a] == g[k] ensures g[m] == g[a] {
      if k == |f| && m < |f| {
        assert f[a] == last;
      }
    }
    forall m, k | 0 <= m <= k < |g| && g[k] <= m ensures g[m] == g[k] {
    }
  }

  lemma FitsSnoc(level: Level, f: seq<nat>, last: nat)
    requires Fits(level, f, last) && (level == OnDelivery ==> |f| <= last)
    ensures Fits(level, f + [last], last)
  {
    WrittenOnceSnoc(level, f, last);
  }

  ghost predicate History(cfg: Cfg, s: State, f: seq<nat>) {
    && |s.up.rx| == cfg.n && s.seen == Data(f) && Fits(cfg.level, f, s.up.last)
    && (forall a: nat :: a < |f| ==> f[a] < cfg.n && DataIn(s.up, f[a]))
  }

  /** A context whose data was compared, or waited for, gets no more data. */
  lemma NewOne(cfg: Cfg, s: State, c: nat)
    requires Inv(cfg, s) && c < cfg.n && |s.up.rx[c].log| < |s.up.rx[c].sent| && s.seen != []
    ensures !DataIn(s.up, c) && c >= |s.seen|
    ensures cfg.level == OnDelivery ==> forall d: nat :: d < cfg.n && DataIn(s.up, d) ==> d <= c
  {
    Lanes(cfg, s, c);
    ArrivalOrder(cfg, s, c);
    if c < |s.seen| {
      ReadMeansIn(cfg, s, c);
    }
  }

  lemma HistoryGrows(cfg: Cfg, s: State, f: seq<nat>, s': State, c: nat)
    requires Inv(cfg, s) && History(cfg, s, f)
    requires s'.seen == s.seen && (Calm(s.up, s'.up) || Grew(s.up, s'.up, c))
    ensures History(cfg, s', f)
  {
    assert forall d: nat :: d < cfg.n && DataIn(s.up, d) ==> DataIn(s'.up, d);
    if f != [] && !Calm(s.up, s'.up) {
      assert s.seen[0] == Word(DATA + f[0]);
      NewOne(cfg, s, c);
      assert forall a: nat :: a < |f| ==> f[a] != c;
    }
  }

  lemma HistoryCompares(cfg: Cfg, s: State, f: seq<nat>) returns (f': seq<nat>)
    requires Inv(cfg, s) && History(cfg, s, f) && s.server.pc.Comparing?
    ensures History(cfg, ServerStep(cfg, s), f')
  {
    BufferAtComparison(cfg, s);
    ReadMeansIn(cfg, s, s.server.pc.i);
    LastAfterData(cfg.level, s.up, s.server.pc.i);
    FitsSnoc(cfg.level, f, s.up.last);
    f' := f + [s.up.last];
    assert Data(f') == Data(f) + [s.up.rxBuf];
  }

  lemma SeenStays(cfg: Cfg, s: State, e: Step)
    requires Enabled(cfg, s, e) && !(e.Server? && s.server.pc.Comparing?)
    ensures Apply(cfg, s, e).seen == s.seen
  {
  }

  lemma {:induction false} HistoryOfRun(cfg: Cfg, s: State, f: seq<nat>, steps: seq<Step>, t: State)
    returns (g: seq<nat>)
    requires Inv(cfg, s) && History(cfg, s, f) && Leads(cfg, s, steps, t)
    ensures Inv(cfg, t) && History(cfg, t, g)
    decreases |steps|
  {
    if steps == [] {
      g := f;
    } else {
      var e, g' := steps[0], f;
      InvStep(cfg, s, e);
      if e.Server? && s.server.pc.Comparing? {
        g' := HistoryCompares(cfg, s, f);
      } else {
        SeenStays(cfg, s, e);
        var c := StepGrows(cfg, s, e);
        HistoryGrows(cfg, s, f, Apply(cfg, s, e), c);
      }
      g := HistoryOfRun(cfg, Apply(cfg, s, e), g', steps[1..], t);
    }
  }

  lemma SameRecord(f: seq<nat>, g: seq<nat>)
    requires Data(f) == Data(g)
    ensures f == g
  {
    assert |Data(f)| == |f| && |Data(g)| == |g|;
    forall i | 0 <= i < |f| ensures f[i] == g[i] {
      assert Data(f)[i] == Data(g)[i];
    }
  }

  lemma ProducedIsPossible(cfg: Cfg, f: seq<nat>)
    requires ValidCfg(cfg) && Produced(cfg, f)
    ensures Possible(cfg, f)
  {
    var s :| Reachable(cfg, s) && Finished(s) && s.seen == Data(f);
    var steps :| Leads(cfg, Init(cfg), steps, s);
    InitInv(cfg);
    assert Init(cfg).seen == Data([]);
    var g := HistoryOfRun(cfg, Init(cfg), [], steps, s);
    SameRecord(f, g);
  }
}
