/** Whole runs: they all have the same length, none gets stuck before both
    programs are done, and each can be continued to the end. */
module Runs {
  import opened Transport
  import opened Protocol
  import opened Invariant
  import opened Steps
  import opened Progress

  /** The length of every complete run. */
  function RunLength(n: nat): nat {
    10 * n + 19
  }

  // ----------------------------------------------------------------- continuations

  ghost predicate Reaches(cfg: Cfg, s: State, t: State) {
    exists steps :: Leads(cfg, s, steps, t)
  }

  lemma ReachesSelf(cfg: Cfg, s: State)
    ensures Reaches(cfg, s, s)
  {
    assert Leads(cfg, s, [], s);
  }

  lemma ReachesVia(cfg: Cfg, s: State, e: Step, t: State)
    requires Enabled(cfg, s, e) && Reaches(cfg, Apply(cfg, s, e), t)
    ensures Reaches(cfg, s, t)
  {
    var steps :| Leads(cfg, Apply(cfg, s, e), steps, t);
    assert ([e] + steps)[0] == e && ([e] + steps)[1..] == steps;
    assert Leads(cfg, s, [e] + steps, t);
  }

  lemma ReachesOn(cfg: Cfg, s: State, t: State, u: State)
    requires Reaches(cfg, s, t) && Reaches(cfg, t, u)
    ensures Reaches(cfg, s, u)
  {
    var a :| Leads(cfg, s, a, t);
    var b :| Leads(cfg, t, b, u);
    LeadsAppend(cfg, s, a, t, b, u);
  }

  // ------------------------------------------------------------------- the measure

  lemma {:induction false} NewLinkRest(level: Level, n: nat, k: nat)
    requires k <= n
    ensures SumRest(level, NewLink(n), k) == 0
  {
    if k > 0 {
      NewLinkRest(level, n, k - 1);
    }
  }

  lemma InitRest(cfg: Cfg)
    requires 1 <= cfg.n
    ensures Rest(cfg, Init(cfg)) == RunLength(cfg.n)
  {
    NewLinkRest(cfg.level, cfg.n, cfg.n);
  }

  lemma RestNonnegative(cfg: Cfg, s: State)
    requires Inv(cfg, s)
    ensures Rest(cfg, s) >= 0
  {
  }

  /** What is left shrinks by one in every step. */
  lemma {:induction false} RestOfRun(cfg: Cfg, s: State, steps: seq<Step>, t: State)
    requires Inv(cfg, s) && Leads(cfg, s, steps, t)
    ensures Inv(cfg, t) && |steps| + Rest(cfg, t) == Rest(cfg, s)
    decreases |steps|
  {
    if steps != [] {
      StepRest(cfg, s, steps[0]);
      RestOfRun(cfg, Apply(cfg, s, steps[0]), steps[1..], t);
    }
  }

  lemma {:induction false} SumZero(level: Level, l: Link, k: nat)
    requires k <= |l.rx| && k <= |l.tx|
    requires forall c: nat :: c < k ==> LaneRest(level, l.rx[c], l.tx[c]) == 0
    ensures SumRest(level, l, k) == 0
  {
    if k > 0 {
      SumZero(level, l, k - 1);
    }
  }

  /** With both programs done, the links are empty. */
  lemma NothingLeft(cfg: Cfg, s: State)
    requires Inv(cfg, s) && Finished(s)
    ensures Rest(cfg, s) == 0
  {
    ClientQuiet(cfg, s);
    ServerQuiet(cfg, s);
    forall c: nat | c < cfg.n
      ensures LaneRest(cfg.level, s.up.rx[c], s.up.tx[c]) == 0
      ensures LaneRest(cfg.level, s.down.rx[c], s.down.tx[c]) == 0
    {
      Lanes(cfg, s, c);
    }
    SumZero(cfg.level, s.up, cfg.n);
    SumZero(cfg.level, s.down, cfg.n);
  }

  // ------------------------------------------------------------------ the theorems

  /** Every run has at most 10n + 19 steps; it has that many, and no step is left,
      exactly when both programs are done. */
  lemma EveryRunEnds(cfg: Cfg, steps: seq<Step>, s: State)
    requires ValidCfg(cfg) && Leads(cfg, Init(cfg), steps, s)
    ensures |steps| <= RunLength(cfg.n)
    ensures |steps| == RunLength(cfg.n) <==> Finished(s)
    ensures (forall e :: !Enabled(cfg, s, e)) <==> Finished(s)
  {
    InitInv(cfg);
    InitRest(cfg);
    RestOfRun(cfg, Init(cfg), steps, s);
    RestNonnegative(cfg, s);
    if Finished(s) {
      NothingLeft(cfg, s);
      forall e ensures !Enabled(cfg, s, e) {
        if Enabled(cfg, s, e) {
          StepRest(cfg, s, e);
          RestNonnegative(cfg, Apply(cfg, s, e));
        }
      }
    } else {
      var e := SomeStep(cfg, s);
      StepRest(cfg, s, e);
      RestNonnegative(cfg, Apply(cfg, s, e));
    }
  }

  lemma {:induction false} CanFinish(cfg: Cfg, s: State) returns (t: State)
    requires Inv(cfg, s)
    ensures Reaches(cfg, s, t) && Inv(cfg, t) && Finished(t)
    decreases Rest(cfg, s)
  {
    RestNonnegative(cfg, s);
    if Finished(s) {
      ReachesSelf(cfg, s);
      t := s;
    } else {
      var e := SomeStep(cfg, s);
      StepRest(cfg, s, e);
      RestNonnegative(cfg, Apply(cfg, s, e));
      t := CanFinish(cfg, Apply(cfg, s, e));
      ReachesVia(cfg, s, e, t);
    }
  }

  /** Whatever the programs and the network did so far, the run can still be
      completed, and then with the steps that were left. */
  lemma EveryRunCanFinish(cfg: Cfg, steps: seq<Step>, s: State) returns (more: seq<Step>, t: State)
    requires ValidCfg(cfg) && Leads(cfg, Init(cfg), steps, s)
    ensures Leads(cfg, s, more, t) && Finished(t)
    ensures |steps| + |more| == RunLength(cfg.n)
  {
    InitInv(cfg);
    RestOfRun(cfg, Init(cfg), steps, s);
    t := CanFinish(cfg, s);
    more :| Leads(cfg, s, more, t);
    LeadsAppend(cfg, Init(cfg), steps, s, more, t);
    EveryRunEnds(cfg, steps + more, t);
  }
}
