/** The statements of init_av and run_test in the reference. */
module Program {
  import opened Polling
  import opened Process
  import opened Order

  method PollQueue(v: Wait, w: World) returns (r: Result)
    ensures r == RunItem(Await(v), w, RefPoll())
  {
    var p := WaitForComp(w.queue(v));
    match p
    case StillPolling(k) => r := Waiting(Reads(v, k), v);
    case Returned(k, code) => r := Ended(Reads(v, k), code);
  }

  /** The first part of init_av. */
  method Exchange(client: bool, w: World) returns (r: Result)
    ensures r == RunItems(ExchangeItems(client), RefDoes(w))
  {
    if client {
      ClientExchangeRuns(RefDoes(w));
      var ret := w.codes(InsertPeer);
      if ret != 0 {
        return Ended([InsertPeer], ret);
      }
      ret := w.codes(GetName);
      if ret != 0 {
        return Ended([InsertPeer, GetName], ret);
      }
      ret := w.codes(SendFirst);
      if ret != 0 {
        return Ended([InsertPeer, GetName, SendFirst], ret);
      }
      r := PollQueue(ForPeer, w);
      assert [InsertPeer, GetName, SendFirst] + r.trace == [InsertPeer] + ([GetName] + ([SendFirst] + r.trace));
      r := Continue([InsertPeer, GetName, SendFirst], r);
    } else {
      ServerExchangeRuns(RefDoes(w));
      r := PollQueue(ForPeer, w);
      if r.Waiting? || r.code != 0 {
        return;
      }
      var ret := w.codes(InsertPeer);
      if ret != 0 {
        return Ended(r.trace + [InsertPeer], ret);
      }
      assert r.trace + [InsertPeer, SendFirst] == r.trace + ([InsertPeer] + [SendFirst]);
      r := Ended(r.trace + [InsertPeer, SendFirst], w.codes(SendFirst));
    }
  }

  /** The last part of init_av. */
  method Repost(w: World) returns (r: Result)
    ensures r == RunItems(RepostItems(), RefDoes(w))
  {
    assert RepostItems()[1..] == [Await(ForFirstSend)];
    RunOne(Await(ForFirstSend), RefDoes(w));
    var ret := w.codes(PostAgain);
    if ret != 0 {
      return Ended([PostAgain], ret);
    }
    r := PollQueue(ForFirstSend, w);
    r := Continue([PostAgain], r);
  }

  function RoundRun(client: bool, i: nat, does: Item -> Result): Result {
    if client then AndThen(does(Do(SendData(i))), does(Await(ForSent(i)))) else does(Await(ForData(i)))
  }

  lemma RoundIsItems(client: bool, i: nat, does: Item -> Result)
    ensures RunItems(TestRound(client, i), does) == RoundRun(client, i, does)
  {
    if client {
      assert TestRound(client, i)[1..] == [Await(ForSent(i))];
      RunOne(Await(ForSent(i)), does);
    } else {
      RunOne(Await(ForData(i)), does);
    }
  }

  /** n rounds, each after the one before it. */
  function Rounds(client: bool, n: nat, does: Item -> Result): Result {
    if n == 0 then Ended([], 0) else AndThen(Rounds(client, n - 1, does), RoundRun(client, n - 1, does))
  }

  lemma {:induction false} RoundsAreItems(client: bool, n: nat, does: Item -> Result)
    ensures Rounds(client, n, does) == RunItems(TestItems(client, n), does)
  {
    if n > 0 {
      RoundsAreItems(client, n - 1, does);
      RoundIsItems(client, n - 1, does);
      RunAppend(TestItems(client, n - 1), TestRound(client, n - 1), does);
    }
  }

  /** Once a round does not give 0, the others are not made. */
  lemma {:induction false} RoundsStop(client: bool, i: nat, n: nat, does: Item -> Result)
    requires i <= n && (Rounds(client, i, does).Waiting? || Rounds(client, i, does).code != 0)
    ensures Rounds(client, n, does) == Rounds(client, i, does)
    decreases n - i
  {
    if i < n {
      RoundsStop(client, i, n - 1, does);
    }
  }

  method Round(client: bool, i: nat, w: World) returns (r: Result)
    ensures r == RoundRun(client, i, RefDoes(w))
  {
    if client {
      var ret := w.codes(SendData(i));
      if ret != 0 {
        return Ended([SendData(i)], ret);
      }
      r := PollQueue(ForSent(i), w);
      r := Continue([SendData(i)], r);
    } else {
      r := PollQueue(ForData(i), w);
    }
  }

  lemma RoundsNext(client: bool, i: nat, does: Item -> Result, r: Result, round: Result)
    requires r == Rounds(client, i, does) && r.Ended? && r.code == 0 && round == RoundRun(client, i, does)
    ensures Continue(r.trace, round) == Rounds(client, i + 1, does)
  {
  }

  /** The loop of run_test: either side goes on while the code is 0. */
  method RunRounds(client: bool, n: nat, w: World) returns (r: Result)
    ensures r == Rounds(client, n, RefDoes(w))
  {
    ghost var does := RefDoes(w);
    r := Ended([], 0);
    var i := 0;
    while i < n
      invariant 0 <= i <= n && r == Rounds(client, i, does)
    {
      if r.Waiting? || r.code != 0 {
        RoundsStop(client, i, n, does);
        return;
      }
      var round := Round(client, i, w);
      RoundsNext(client, i, does, r, round);
      r := Continue(r.trace, round);
      i := i + 1;
    }
  }

  /** run_test, and what its calls are. */
  method RunTest(client: bool, n: nat, w: World) returns (r: Result)
    ensures r == RunItems(TestItems(client, n), RefDoes(w))
    ensures Runs(client, n, w, FirstOfTest(client, n), Total(client, n), r)
  {
    TestRuns(client, n, w);
    RoundsAreItems(client, n, RefDoes(w));
    r := RunRounds(client, n, w);
    SameRuns(client, n, w, FirstOfTest(client, n), Total(client, n), RunItems(TestItems(client, n), RefDoes(w)), r);
  }
}
