/** wait_for_comp: reading a completion queue until it has something to say. */
module Polling {

  const EAGAIN: int := 11

  /** What fi_cq_read gives for one entry: a count or a negated error number. */
  type CqResult = x: int | -0x8000_0000 <= x < 0x8000_0000

  /** The wait has returned a code, or has used up the given results without
      returning yet. */
  datatype Poll = StillPolling(polls: nat) | Returned(polls: nat, code: int)

  /** The number of leading results that satisfy p. */
  function Leading(results: seq<CqResult>, p: CqResult -> bool): (k: nat)
    ensures k <= |results|
    ensures forall i :: 0 <= i < k ==> p(results[i])
    ensures k < |results| ==> !p(results[k])
  {
    if results == [] || !p(results[0]) then 0
    else
      var k := Leading(results[1..], p);
      assert forall i :: 0 < i < k + 1 ==> results[i] == results[1..][i - 1];
      k + 1
  }

  lemma LeadingIs(results: seq<CqResult>, p: CqResult -> bool, k: nat)
    requires k <= |results|
    requires forall i :: 0 <= i < k ==> p(results[i])
    requires k < |results| ==> !p(results[k])
    ensures k == Leading(results, p)
  {
  }

  function Again(): CqResult -> bool {
    x => x < 0 && x == -EAGAIN
  }

  function Negative(): CqResult -> bool {
    x => x < 0
  }

  function Finish(results: seq<CqResult>, k: nat): Poll
    requires k <= |results|
  {
    if k == |results| then StillPolling(k)
    else Returned(k + 1, if results[k] == 1 then 0 else results[k])
  }

  /** The reference loop on a stream of results: it passes over -EAGAIN and
      nothing else, and returns 0 for a result of 0 or 1 and nothing else. */
  method WaitForComp(results: seq<CqResult>) returns (p: Poll)
    ensures p.StillPolling? ==> p.polls == |results| && forall i :: 0 <= i < |results| ==> results[i] == -EAGAIN
    ensures p.Returned? ==>
              && 1 <= p.polls <= |results|
              && (forall i :: 0 <= i < p.polls - 1 ==> results[i] == -EAGAIN)
              && var last := results[p.polls - 1];
                 && last != -EAGAIN
                 && (p.code == 0 <==> last == 0 || last == 1)
                 && (p.code != 0 ==> p.code == last)
    ensures p == Finish(results, Leading(results, Again()))
  {
    var polls := 0;
    while polls < |results|
      invariant 0 <= polls <= |results|
      invariant forall i :: 0 <= i < polls ==> Again()(results[i])
    {
      var ret := results[polls];
      polls := polls + 1;
      if !(ret < 0 && ret == -EAGAIN) {
        LeadingIs(results, Again(), polls - 1);
        if ret == 1 {
          ret := 0;
        }
        return Returned(polls, ret);
      }
    }
    LeadingIs(results, Again(), polls);
    return StillPolling(polls);
  }

  /** The port's doWhile: it pairs every result with the constant -EAGAIN and
      tests the constant, so it reads on after any negative result. */
  function DoWhile(results: seq<CqResult>, polls: nat): Poll {
    if results == [] then StillPolling(polls)
    else
      var (x, ret) := (results[0], -11);
      if x < 0 && ret == -11 then DoWhile(results[1..], polls + 1)
      else Returned(polls + 1, if x != 1 then x else 0)
  }

  lemma {:induction false} DoWhileStops(results: seq<CqResult>, polls: nat)
    ensures var k := Leading(results, Negative());
            DoWhile(results, polls) ==
            match Finish(results, k)
            case StillPolling(r) => StillPolling(polls + r)
            case Returned(r, code) => Returned(polls + r, code)
  {
    if results != [] && results[0] < 0 {
      DoWhileStops(results[1..], polls + 1);
      var k := Leading(results[1..], Negative());
      assert k < |results[1..]| ==> results[1..][k] == results[k + 1];
    }
  }

  /** Port and reference agree, on the code and on the number of reads, exactly
      when the first result other than -EAGAIN, if there is one, is not an
      error. */
  lemma PortAgreesIff(results: seq<CqResult>)
    ensures var k := Leading(results, Again());
            DoWhile(results, 0) == Finish(results, k) <==> (k < |results| ==> results[k] >= 0)
  {
    var k, j := Leading(results, Again()), Leading(results, Negative());
    DoWhileStops(results, 0);
    if k == |results| || results[k] >= 0 {
      LeadingIs(results, Negative(), k);
    } else {
      assert forall i :: 0 <= i <= k ==> results[i] < 0;
      assert j > k;
    }
  }

  /** The port never stops earlier than the reference, and never reports an
      error. */
  lemma PortReadsOn(results: seq<CqResult>)
    ensures DoWhile(results, 0).polls >= Finish(results, Leading(results, Again())).polls
    ensures DoWhile(results, 0).Returned? ==> DoWhile(results, 0).code >= 0
  {
    DoWhileStops(results, 0);
    var k := Leading(results, Again());
    assert forall i :: 0 <= i < k ==> results[i] < 0;
  }

  function Delayed(k: nat): seq<CqResult> {
    seq(k, _ => -11) + [1]
  }

  /** A completion that comes after k empty reads: both programs read k + 1 times and
      give 0. */
  lemma CompletionIsAwaited(k: nat)
    ensures Finish(Delayed(k), Leading(Delayed(k), Again())) == Returned(k + 1, 0)
    ensures DoWhile(Delayed(k), 0) == Returned(k + 1, 0)
  {
    LeadingIs(Delayed(k), Again(), k);
    PortAgreesIff(Delayed(k));
  }
}
