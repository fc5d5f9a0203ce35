/** The order of all calls of the reference, from init_fabric to the end of
    run_test, by a number for each call that does not depend on the lists of items
    in Process. */
module Order {
  import opened Chain
  import opened Setup
  import opened Numbers
  import opened Polling
  import opened Process

  /** The calls that the client, or the server, makes with n contexts. */
  predicate Belongs(client: bool, n: nat, c: Call) {
    match c
    case During(op) => HasCtx(op) ==> op.ctx < n
    case InsertPeer | SendFirst | PostAgain => true
    case GetName => client
    case SendData(i) => client && i < n
    case Read(v) =>
      match v
      case ForPeer | ForFirstSend => true
      case ForSent(i) => client && i < n
      case ForData(i) => !client && i < n
  }

  /** The number of the first call of run_test. */
  function FirstOfTest(client: bool, n: nat): nat {
    8 + 9 * n + if client then 6 else 5
  }

  /** The number after the last call. */
  function Total(client: bool, n: nat): nat {
    if client then 14 + 11 * n else 13 + 10 * n
  }

  /** The place of each call in the program text. */
  function Number(client: bool, n: nat, c: Call): nat {
    var b := 8 + 9 * n;
    match c
    case During(op) => OpNumber(n, op)
    case InsertPeer => if client then b else b + 1
    case GetName => b + 1
    case SendFirst => b + 2
    case PostAgain => if client then b + 4 else b + 3
    case SendData(i) => b + 6 + 2 * i
    case Read(v) =>
      match v
      case ForPeer => if client then b + 3 else b
      case ForFirstSend => if client then b + 5 else b + 4
      case ForSent(i) => b + 7 + 2 * i
      case ForData(i) => b + 5 + i
  }

  /** The calls of t are those from number b on, none left out, and only reads of a
      queue are repeated. */
  ghost predicate InOrder(client: bool, n: nat, t: seq<Call>, b: nat) {
    && (forall k :: 0 <= k < |t| ==> Belongs(client, n, t[k]))
    && (t != [] ==> Number(client, n, t[0]) == b)
    && (forall k :: 0 < k < |t| ==>
          || Number(client, n, t[k]) == Number(client, n, t[k - 1]) + 1
          || (t[k] == t[k - 1] && t[k].Read?))
  }

  function CodeOf(w: World, c: Call): int {
    if c.During? then w.setup(c.op) else w.codes(c)
  }

  /** Whatever is followed by another call has succeeded. */
  ghost predicate AllPass(w: World, t: seq<Call>) {
    forall k :: 0 < k < |t| && t[k] != t[k - 1] ==>
      if t[k - 1].Read? then Passes(w.queue(t[k - 1].wait)) else CodeOf(w, t[k - 1]) == 0
  }

  /** How often a wait reads its queue. */
  function ReadCount(results: seq<CqResult>): nat {
    if Blocks(results) then |results| else Leading(results, Again()) + 1
  }

  ghost predicate ReadsCounted(w: World, t: seq<Call>) {
    forall v :: Read(v) in t ==> multiset(t)[Read(v)] == ReadCount(w.queue(v))
  }

  /** The code at the end is that of the last call; it is 0 only after call e - 1. */
  ghost predicate EndsWith(client: bool, n: nat, w: World, t: seq<Call>, code: int, b: nat, e: nat) {
    if t == [] then code == 0 && b == e
    else
      var last := t[|t| - 1];
      && (if last.Read? then
            !Blocks(w.queue(last.wait))
            && code == (if Answer(w.queue(last.wait)) == 1 then 0 else Answer(w.queue(last.wait)))
          else code == CodeOf(w, last))
      && (code == 0 ==> Number(client, n, last) + 1 == e)
  }

  /** The last call that is not a read for v, if there is one, comes right before v. */
  ghost predicate WaitsFor(client: bool, n: nat, w: World, t: seq<Call>, v: Wait, b: nat, e: nat) {
    var k := |w.queue(v)|;
    && Blocks(w.queue(v)) && k <= |t| && t[|t| - k..] == Reads(v, k)
    && Number(client, n, Read(v)) < e
    && (if k == |t| then Number(client, n, Read(v)) == b
        else var c := t[|t| - k - 1];
             && Number(client, n, c) + 1 == Number(client, n, Read(v))
             && (if c.Read? then Passes(w.queue(c.wait)) else CodeOf(w, c) == 0))
  }

  /** r is what the calls from number b to number e - 1 do in the world w. */
  ghost predicate Runs(client: bool, n: nat, w: World, b: nat, e: nat, r: Result) {
    && b <= e && InOrder(client, n, r.trace, b) && AllPass(w, r.trace) && ReadsCounted(w, r.trace)
    && (forall k :: 0 <= k < |r.trace| ==> Number(client, n, r.trace[k]) < e)
    && match r
       case Ended(t, code) => EndsWith(client, n, w, t, code, b, e)
       case Waiting(t, v) => WaitsFor(client, n, w, t, v, b, e)
  }

  // -------------------------------------------------------------- what order implies

  /** Calls with smaller numbers stand before those with larger ones. */
  lemma {:induction false} Sorted(client: bool, n: nat, t: seq<Call>, b: nat, j: nat, k: nat)
    requires InOrder(client, n, t, b) && j < k < |t|
    ensures b <= Number(client, n, t[j]) <= Number(client, n, t[k])
    ensures Number(client, n, t[j]) == Number(client, n, t[k]) ==> t[j] == t[k] && t[j].Read?
    decreases k, j
  {
    if j > 0 {
      Sorted(client, n, t, b, 0, j);
    }
    if k > j + 1 {
      Sorted(client, n, t, b, j, k - 1);
    }
  }

  lemma AtLeastFirst(client: bool, n: nat, t: seq<Call>, b: nat, k: nat)
    requires InOrder(client, n, t, b) && k < |t|
    ensures b <= Number(client, n, t[k])
  {
    if k > 0 {
      Sorted(client, n, t, b, 0, k);
    }
  }

  /** t ends right before number m, and its last call has succeeded. */
  ghost predicate Before(client: bool, n: nat, w: World, t: seq<Call>, m: nat) {
    t != [] &&
    var last := t[|t| - 1];
    && Number(client, n, last) + 1 == m
    && (if last.Read? then Passes(w.queue(last.wait)) else CodeOf(w, last) == 0)
  }

  lemma JoinOrder(client: bool, n: nat, w: World, t: seq<Call>, u: seq<Call>, b: nat, m: nat)
    requires InOrder(client, n, t, b) && InOrder(client, n, u, m) && Before(client, n, w, t, m)
    ensures InOrder(client, n, t + u, b)
  {
    var s := t + u;
    forall k | 0 <= k < |s| ensures Belongs(client, n, s[k]) {
      assert s[k] == if k < |t| then t[k] else u[k - |t|];
    }
    forall k | 0 < k < |s|
      ensures || Number(client, n, s[k]) == Number(client, n, s[k - 1]) + 1
              || (s[k] == s[k - 1] && s[k].Read?)
    {
      if k > |t| {
        assert s[k] == u[k - |t|] && s[k - 1] == u[k - |t| - 1];
      } else if k == |t| {
        assert s[k] == u[0] && s[k - 1] == t[|t| - 1];
      }
    }
  }

  lemma JoinPass(client: bool, n: nat, w: World, t: seq<Call>, u: seq<Call>, m: nat)
    requires AllPass(w, t) && AllPass(w, u) && Before(client, n, w, t, m)
    ensures AllPass(w, t + u)
  {
    var s := t + u;
    forall k | 0 < k < |s| && s[k] != s[k - 1]
      ensures if s[k - 1].Read? then Passes(w.queue(s[k - 1].wait)) else CodeOf(w, s[k - 1]) == 0
    {
      if k > |t| {
        assert s[k] == u[k - |t|] && s[k - 1] == u[k - |t| - 1];
      } else if k == |t| {
        assert s[k - 1] == t[|t| - 1];
      }
    }
  }

  lemma JoinCounts(client: bool, n: nat, w: World, t: seq<Call>, u: seq<Call>, m: nat)
    requires ReadsCounted(w, t) && ReadsCounted(w, u) && InOrder(client, n, u, m)
    requires forall k :: 0 <= k < |t| ==> Number(client, n, t[k]) < m
    ensures ReadsCounted(w, t + u)
  {
    forall v | Read(v) in t + u ensures multiset(t + u)[Read(v)] == ReadCount(w.queue(v)) {
      assert multiset(t + u) == multiset(t) + multiset(u);
      if Read(v) in u {
        var k :| 0 <= k < |u| && u[k] == Read(v);
        AtLeastFirst(client, n, u, m, k);
        assert Read(v) !in t;
      } else {
        assert Read(v) !in multiset(u);
      }
    }
  }

  lemma JoinEnds(client: bool, n: nat, w: World, t: seq<Call>, u: seq<Call>, code: int, b: nat, m: nat, e: nat)
    requires Before(client, n, w, t, m) && EndsWith(client, n, w, u, code, m, e)
    requires EndsWith(client, n, w, t, 0, b, m)
    ensures EndsWith(client, n, w, t + u, code, b, e)
  {
    if u == [] {
      assert t + u == t;
    } else {
      assert (t + u)[|t + u| - 1] == u[|u| - 1];
    }
  }

  lemma JoinWaits(client: bool, n: nat, w: World, t: seq<Call>, u: seq<Call>, v: Wait, b: nat, m: nat, e: nat)
    requires Before(client, n, w, t, m) && WaitsFor(client, n, w, u, v, m, e)
    ensures WaitsFor(client, n, w, t + u, v, b, e)
  {
    var k := |w.queue(v)|;
    var s := t + u;
    assert s[|s| - k..] == u[|u| - k..];
    assert s[|s| - k - 1] == if k == |u| then t[|t| - 1] else u[|u| - k - 1];
  }

  /** The same for a part that is not empty and succeeds. */
  lemma RunsJoined(client: bool, n: nat, w: World, b: nat, m: nat, e: nat, t: seq<Call>, r: Result)
    requires Runs(client, n, w, b, m, Ended(t, 0)) && t != [] && Runs(client, n, w, m, e, r)
    ensures Runs(client, n, w, b, e, Continue(t, r))
  {
    var u := r.trace;
    assert Before(client, n, w, t, m);
    JoinOrder(client, n, w, t, u, b, m);
    JoinPass(client, n, w, t, u, m);
    JoinCounts(client, n, w, t, u, m);
    forall k | 0 <= k < |t + u| ensures Number(client, n, (t + u)[k]) < e {
      assert (t + u)[k] == if k < |t| then t[k] else u[k - |t|];
    }
    if r.Ended? {
      JoinEnds(client, n, w, t, u, r.code, b, m, e);
    } else {
      JoinWaits(client, n, w, t, u, r.on, b, m, e);
    }
  }

  lemma EndsWider(client: bool, n: nat, w: World, t: seq<Call>, code: int, b: nat, m: nat, e: nat)
    requires EndsWith(client, n, w, t, code, b, m) && code != 0
    ensures EndsWith(client, n, w, t, code, b, e)
  {
  }

  lemma WaitsWider(client: bool, n: nat, w: World, t: seq<Call>, v: Wait, b: nat, m: nat, e: nat)
    requires WaitsFor(client, n, w, t, v, b, m) && m <= e
    ensures WaitsFor(client, n, w, t, v, b, e)
  {
  }

  /** What stops within its part stops within a larger one. */
  lemma RunsWider(client: bool, n: nat, w: World, b: nat, m: nat, e: nat, r: Result)
    requires Runs(client, n, w, b, m, r) && m <= e && (r.Waiting? || r.code != 0)
    ensures Runs(client, n, w, b, e, r)
  {
    forall k | 0 <= k < |r.trace| ensures Number(client, n, r.trace[k]) < e {
      assert Number(client, n, r.trace[k]) < m;
    }
    match r
    case Ended(t, code) => EndsWider(client, n, w, t, code, b, m, e);
    case Waiting(t, v) => WaitsWider(client, n, w, t, v, b, m, e);
  }

  /** One part of the program after another. */
  lemma RunsThen(client: bool, n: nat, w: World, b: nat, m: nat, e: nat, r: Result, r': Result)
    requires Runs(client, n, w, b, m, r) && Runs(client, n, w, m, e, r')
    ensures Runs(client, n, w, b, e, AndThen(r, r'))
  {
    if r.Waiting? || r.code != 0 {
      RunsWider(client, n, w, b, m, e, r);
    } else if r.trace == [] {
      assert [] + r'.trace == r'.trace;
    } else {
      RunsJoined(client, n, w, b, m, e, r.trace, r');
    }
  }

  // ------------------------------------------------------------------ the reference

  function CallOf(item: Item): Call {
    if item.Do? then item.call else Read(item.wait)
  }

  /** The items are numbered from b on. */
  ghost predicate ItemsFrom(client: bool, n: nat, items: seq<Item>, b: nat) {
    forall k :: 0 <= k < |items| ==>
      && Belongs(client, n, CallOf(items[k])) && Number(client, n, CallOf(items[k])) == b + k
      && (items[k].Do? ==> !items[k].call.During? && !items[k].call.Read?)
  }

  lemma ItemsAppend(client: bool, n: nat, s: seq<Item>, t: seq<Item>, b: nat)
    requires ItemsFrom(client, n, s, b) && ItemsFrom(client, n, t, b + |s|)
    ensures ItemsFrom(client, n, s + t, b)
  {
    assert forall k :: |s| <= k < |s + t| ==> (s + t)[k] == t[k - |s|];
  }

  lemma DoRuns(client: bool, n: nat, w: World, c: Call, b: nat)
    requires ItemsFrom(client, n, [Do(c)], b)
    ensures Runs(client, n, w, b, b + 1, Ended([c], w.codes(c)))
  {
    assert [Do(c)][0] == Do(c);
    assert Belongs(client, n, c) && Number(client, n, c) == b && !c.Read? && !c.During?;
  }

  lemma {:induction false} ReadsOfOne(v: Wait, k: nat)
    ensures multiset(Reads(v, k))[Read(v)] == k
    ensures forall c :: c in Reads(v, k) ==> c == Read(v)
  {
    if k > 0 {
      ReadsOfOne(v, k - 1);
      assert Reads(v, k) == Reads(v, k - 1) + [Read(v)];
    }
  }

  lemma AwaitRuns(client: bool, n: nat, w: World, v: Wait, b: nat)
    requires ItemsFrom(client, n, [Await(v)], b)
    ensures Runs(client, n, w, b, b + 1, RunItem(Await(v), w, RefPoll()))
  {
    assert [Await(v)][0] == Await(v);
    assert Belongs(client, n, Read(v)) && Number(client, n, Read(v)) == b;
    var r := RunItem(Await(v), w, RefPoll());
    ReadsOfOne(v, ReadCount(w.queue(v)));
    assert r.trace == Reads(v, ReadCount(w.queue(v)));
  }

  lemma SameRuns(client: bool, n: nat, w: World, b: nat, e: nat, r: Result, r': Result)
    requires Runs(client, n, w, b, e, r) && r == r'
    ensures Runs(client, n, w, b, e, r')
  {
  }

  lemma FirstRuns(client: bool, n: nat, w: World, items: seq<Item>, b: nat, does: Item -> Result)
    requires items != [] && ItemsFrom(client, n, items, b) && does == RefDoes(w)
    ensures Runs(client, n, w, b, b + 1, does(items[0]))
    ensures ItemsFrom(client, n, items[1..], b + 1)
  {
    var first := items[0];
    assert [first][0] == first;
    if first.Do? {
      DoRuns(client, n, w, first.call, b);
    } else {
      AwaitRuns(client, n, w, first.wait, b);
    }
    SameRuns(client, n, w, b, b + 1, RunItem(first, w, RefPoll()), does(first));
  }

  lemma NothingRuns(client: bool, n: nat, w: World, b: nat)
    ensures Runs(client, n, w, b, b, Ended([], 0))
  {
  }

  lemma ItemThenRest(client: bool, n: nat, w: World, items: seq<Item>, b: nat, e: nat, does: Item -> Result, rest: Result)
    requires items != [] && ItemsFrom(client, n, items, b) && does == RefDoes(w)
    requires Runs(client, n, w, b + 1, e, rest)
    ensures Runs(client, n, w, b, e, AndThen(does(items[0]), rest))
  {
    FirstRuns(client, n, w, items, b, does);
    RunsThen(client, n, w, b, b + 1, e, does(items[0]), rest);
  }

  lemma {:induction false} ItemsRun(client: bool, n: nat, w: World, items: seq<Item>, b: nat, does: Item -> Result)
    returns (r: Result)
    requires ItemsFrom(client, n, items, b) && does == RefDoes(w)
    ensures r == RunItems(items, does) && Runs(client, n, w, b, b + |items|, r)
  {
    if items == [] {
      NothingRuns(client, n, w, b);
      r := Ended([], 0);
    } else {
      r := ItemsRun(client, n, w, items[1..], b + 1, does);
      ItemThenRest(client, n, w, items, b, b + |items|, does, r);
      r := AndThen(does(items[0]), r);
    }
  }

  lemma {:induction false} TestLength(client: bool, m: nat)
    ensures |TestItems(client, m)| == if client then 2 * m else m
  {
    if m > 0 {
      TestLength(client, m - 1);
    }
  }

  lemma RoundFrom(client: bool, n: nat, i: nat)
    requires i < n
    ensures ItemsFrom(client, n, TestRound(client, i), FirstOfTest(client, n) + if client then 2 * i else i)
  {
  }

  lemma {:induction false} TestFrom(client: bool, n: nat, m: nat)
    requires m <= n
    ensures ItemsFrom(client, n, TestItems(client, m), FirstOfTest(client, n))
  {
    if m > 0 {
      TestLength(client, m - 1);
      TestFrom(client, n, m - 1);
      RoundFrom(client, n, m - 1);
      ItemsAppend(client, n, TestItems(client, m - 1), TestRound(client, m - 1), FirstOfTest(client, n));
    }
  }

  lemma RestFrom(client: bool, n: nat)
    ensures var items := ExchangeItems(client) + RepostItems() + TestItems(client, n);
            ItemsFrom(client, n, items, 8 + 9 * n) && 8 + 9 * n + |items| == Total(client, n)
  {
    TestLength(client, n);
    TestFrom(client, n, n);
    ItemsAppend(client, n, ExchangeItems(client), RepostItems(), 8 + 9 * n);
    ItemsAppend(client, n, ExchangeItems(client) + RepostItems(), TestItems(client, n), 8 + 9 * n);
  }

  // ------------------------------------------------------------ the theorems

  /** init_av and run_test of the reference, in full: which calls, in which order,
      how often each queue is read, and what stops it with which code. */
  lemma RestRuns(client: bool, n: nat, w: World)
    ensures Runs(client, n, w, 8 + 9 * n, Total(client, n), RefRest(client, n, w))
  {
    RestFrom(client, n);
    var _ := ItemsRun(client, n, w, ExchangeItems(client) + RepostItems() + TestItems(client, n), 8 + 9 * n, RefDoes(w));
  }

  lemma TestRuns(client: bool, n: nat, w: World)
    ensures Runs(client, n, w, FirstOfTest(client, n), Total(client, n), RunItems(TestItems(client, n), RefDoes(w)))
  {
    TestLength(client, n);
    TestFrom(client, n, n);
    var _ := ItemsRun(client, n, w, TestItems(client, n), FirstOfTest(client, n), RefDoes(w));
  }

  lemma SetupRuns(client: bool, n: nat, w: World, memory: bool, f: Outcome<Op>)
    requires IsSetup(n, memory, w.setup, f) && f.code == 0
    ensures Runs(client, n, w, 0, 8 + 9 * n, Ended(Setups(f.trace), 0))
  {
    var t := Setups(f.trace);
    forall k | 0 <= k < |t|
      ensures Belongs(client, n, t[k]) && Number(client, n, t[k]) == k && !t[k].Read? && CodeOf(w, t[k]) == 0
    {
      assert t[k] == During(f.trace[k]);
    }
  }

  /** A whole run of the reference: init_fabric as in IsSetup, and if it gives 0, all
      calls from number 0 on as in Runs. */
  lemma ProcessRuns(client: bool, requested: nat, txLimit: nat, rxLimit: nat, memory: bool, w: World)
    ensures var n := Negotiated(requested, txLimit, rxLimit);
            var f := RefInit(requested, txLimit, rxLimit, memory, w.setup);
            var r := RefProcess(client, requested, txLimit, rxLimit, memory, w);
            && IsSetup(n, memory, w.setup, f)
            && (f.code != 0 ==> r == Ended(Setups(f.trace), f.code))
            && (f.code == 0 ==> Runs(client, n, w, 0, Total(client, n), r))
  {
    var n := Negotiated(requested, txLimit, rxLimit);
    var f := RefInit(requested, txLimit, rxLimit, memory, w.setup);
    RefRunIsSetup(n, memory, w.setup);
    if f.code == 0 {
      SetupRuns(client, n, w, memory, f);
      RestRuns(client, n, w);
      RunsThen(client, n, w, 0, 8 + 9 * n, Total(client, n), Ended(Setups(f.trace), 0), RefRest(client, n, w));
    }
  }

  /** In a run as described by Runs, the client's wait for a send stands after the
      send. */
  lemma WaitAfterSend(client: bool, n: nat, w: World, b: nat, e: nat, r: Result, i: nat, j: nat, k: nat)
    requires Runs(client, n, w, b, e, r) && j < |r.trace| && k < |r.trace|
    requires r.trace[j] == SendData(i) && r.trace[k] == Read(ForSent(i))
    ensures j < k
  {
    if k < j {
      Sorted(client, n, r.trace, b, k, j);
    }
  }

  lemma LaterRound(client: bool, n: nat, i: nat, m: nat, c: Call, d: Call)
    requires i < m && c in Transfers(client, i) && d in Transfers(client, m)
    ensures Number(client, n, c) < Number(client, n, d)
  {
  }

  /** All of context i stands before all of context m, for i < m. */
  lemma RoundAfterRound(client: bool, n: nat, w: World, b: nat, e: nat, r: Result, i: nat, m: nat, j: nat, k: nat)
    requires Runs(client, n, w, b, e, r) && j < |r.trace| && k < |r.trace| && i < m
    requires r.trace[j] in Transfers(client, i) && r.trace[k] in Transfers(client, m)
    ensures j < k
  {
    LaterRound(client, n, i, m, r.trace[j], r.trace[k]);
    if k < j {
      Sorted(client, n, r.trace, b, k, j);
    }
  }

  /** A failing send is the last call and gives its code. */
  lemma SendFailureEnds(client: bool, n: nat, w: World, b: nat, e: nat, r: Result, j: nat)
    requires Runs(client, n, w, b, e, r) && j < |r.trace| && r.trace[j].SendData? && w.codes(r.trace[j]) != 0
    ensures j == |r.trace| - 1 && r == Ended(r.trace, w.codes(r.trace[j]))
  {
    if j + 1 < |r.trace| {
      Sorted(client, n, r.trace, b, j, j + 1);
    }
  }

  /** No context from n on takes part, nor does a program in the other's calls. */
  lemma TransfersBelow(client: bool, n: nat, w: World, b: nat, e: nat, r: Result, side: bool, i: nat, j: nat)
    requires Runs(client, n, w, b, e, r) && j < |r.trace| && r.trace[j] in Transfers(side, i)
    ensures side == client && i < n
  {
    assert Belongs(client, n, r.trace[j]);
  }
}
