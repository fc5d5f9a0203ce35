/** The record of provider calls, and what it says about which handles are open. */
module Resources {
  import opened Chain
  import opened Setup

  datatype Kind = TxEp | RxEp | TxCq | RxCq

  /** A provider object, named by its kind and context index. */
  datatype Fid = Ctx(kind: Kind, i: nat) | Sep

  predicate IsQueue(k: Kind) {
    k == TxCq || k == RxCq
  }

  predicate IsEndpoint(f: Fid) {
    f.Ctx? && !IsQueue(f.kind)
  }

  function OpenOp(kind: Kind, i: nat): Op {
    match kind
    case TxEp => OpenTx(i)
    case RxEp => OpenRx(i)
    case TxCq => OpenTxCq(i)
    case RxCq => OpenRxCq(i)
  }

  datatype Event = Call(op: Op, code: int) | Close(fid: Fid, code: int)

  /** The handle that a successful call creates. */
  function Creates(op: Op): set<Fid> {
    match op
    case OpenTx(i) => {Ctx(TxEp, i)}
    case OpenRx(i) => {Ctx(RxEp, i)}
    case OpenTxCq(i) => {Ctx(TxCq, i)}
    case OpenRxCq(i) => {Ctx(RxCq, i)}
    case OpenSep => {Sep}
    case _ => {}
  }

  function After(open: set<Fid>, e: Event): set<Fid> {
    match e
    case Call(op, code) => if code == 0 then open + Creates(op) else open
    case Close(fid, _) => open - {fid}
  }

  /** The handles open at the end of a record. */
  function OpenSet(log: seq<Event>): set<Fid> {
    if log == [] then {} else After(OpenSet(log[..|log| - 1]), log[|log| - 1])
  }

  lemma OpenSetSnoc(log: seq<Event>, e: Event)
    ensures OpenSet(log + [e]) == After(OpenSet(log), e)
  {
    var l := log + [e];
    assert l[..|l| - 1] == log;
  }

  /** The handle may be closed: it is open, and nothing that uses it is. A
      completion queue is used by endpoints, the scalable endpoint by its
      contexts. */
  ghost predicate MayClose(open: set<Fid>, f: Fid) {
    && f in open
    && ((f == Sep || IsQueue(f.kind)) ==> forall g :: g in open ==> !IsEndpoint(g))
  }

  /** Every close in the record was allowed when it was made. */
  ghost predicate SafeLog(log: seq<Event>) {
    forall k :: 0 <= k < |log| && log[k].Close? ==> MayClose(OpenSet(log[..k]), log[k].fid)
  }

  lemma SafeLogSnoc(log: seq<Event>, e: Event)
    requires SafeLog(log)
    requires e.Close? ==> MayClose(OpenSet(log), e.fid)
    ensures SafeLog(log + [e])
  {
    var l := log + [e];
    forall k | 0 <= k < |l| && l[k].Close? ensures MayClose(OpenSet(l[..k]), l[k].fid) {
      if k < |log| {
        assert l[..k] == log[..k];
      } else {
        assert l[..k] == log;
      }
    }
  }

  function Calls(t: seq<Op>, rc: Codes): (s: seq<Event>)
    ensures |s| == |t|
  {
    seq(|t|, k requires 0 <= k < |t| => Call(t[k], rc(t[k])))
  }

  lemma CallsAppend(t: seq<Op>, u: seq<Op>, rc: Codes)
    ensures Calls(t + u, rc) == Calls(t, rc) + Calls(u, rc)
  {
  }

  /** What is open after some calls: what was open, and what the successful
      ones created. */
  lemma {:induction false} OpenSetOfCalls(log: seq<Event>, t: seq<Op>, rc: Codes, f: Fid)
    ensures f in OpenSet(log + Calls(t, rc)) <==>
            f in OpenSet(log) || exists op :: op in t && rc(op) == 0 && f in Creates(op)
  {
    if t == [] {
      assert log + Calls(t, rc) == log;
    } else {
      var u, op := t[..|t| - 1], t[|t| - 1];
      assert t == u + [op];
      OpenSetOfCalls(log, u, rc, f);
      CallsAppend(u, [op], rc);
      assert log + Calls(t, rc) == log + Calls(u, rc) + [Call(op, rc(op))];
      OpenSetSnoc(log + Calls(u, rc), Call(op, rc(op)));
    }
  }

  function Closes(fids: seq<Fid>, rc: Fid -> int): (s: seq<Event>)
    ensures |s| == |fids|
  {
    seq(|fids|, k requires 0 <= k < |fids| => Close(fids[k], rc(fids[k])))
  }

  lemma ClosesAppend(s: seq<Fid>, t: seq<Fid>, rc: Fid -> int)
    ensures Closes(s + t, rc) == Closes(s, rc) + Closes(t, rc)
  {
  }
}
