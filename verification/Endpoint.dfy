/** The globals of the reference program and the functions that set them up and
    tear them down. Every provider call may fail; rc and closeRc give the codes. */
module Endpoint {
  import opened Chain
  import opened Setup
  import opened Numbers
  import opened Resources
  import opened Teardown
  import Address
  import opened Process
  import opened Program

  /** Which of the message buffer and the five callocs are there. */
  datatype Memory = Memory(buf: bool, txCq: bool, rxCq: bool, txEp: bool, rxEp: bool, addrs: bool) {
    predicate All() {
      buf && txCq && rxCq && txEp && rxEp && addrs
    }
  }

  /** Where an open stands among the four of its context. */
  function Position(kind: Kind): nat {
    match kind
    case TxEp => 0
    case TxCq => 1
    case RxEp => 2
    case RxCq => 3
  }

  /** What follows the calls of context i. */
  lemma {:induction false} OpenOpsFrom(n: nat, i: nat) returns (rest: seq<Op>)
    requires i < n
    ensures OpenOps(n) == OpenOps(i) + OpenCtx(i) + rest
  {
    if i == n - 1 {
      rest := [];
      assert OpenOps(n) == OpenOps(i) + OpenCtx(i) + [];
    } else {
      rest := OpenOpsFrom(n - 1, i);
      assert OpenOps(n) == OpenOps(i) + OpenCtx(i) + (rest + OpenCtx(n - 1));
      rest := rest + OpenCtx(n - 1);
    }
  }

  /** The calls of alloc_ep_res when context i fails at its call j: those before
      it succeeded. */
  lemma StoppedAt(n: nat, i: nat, j: nat, rc: Codes)
    requires i < n && j < 4
    requires AllZero(OpenOps(i), rc) && AllZero(OpenCtx(i)[..j], rc) && rc(OpenCtx(i)[j]) != 0
    ensures Cut(OpenOps(n), rc) == OpenOps(i) + OpenCtx(i)[..j + 1]
    ensures FirstCode(OpenOps(n), rc) == rc(OpenCtx(i)[j])
  {
    var rest := OpenOpsFrom(n, i);
    CutAt(OpenOps(i), OpenCtx(i), rest, j, rc);
  }

  /** Then exactly the handles before that call are there. */
  lemma GotBefore(i: nat, j: nat, rc: Codes, k: Kind, m: nat)
    requires j < 4
    requires AllZero(OpenOps(i), rc) && AllZero(OpenCtx(i)[..j], rc) && rc(OpenCtx(i)[j]) != 0
    ensures Got(OpenOps(i) + OpenCtx(i)[..j + 1], rc, OpenOp(k, m)) <==> m < i || (m == i && Position(k) < j)
  {
    var c, op := OpenCtx(i), OpenOp(k, m);
    InOpenOps(i, op);
    assert c[..j + 1] == c[..j] + [c[j]];
    if m == i {
      assert c[Position(k)] == op;
      if Position(k) < j {
        assert c[..j][Position(k)] == op;
      }
    }
  }

  /** The calls of one context, one by one. */
  lemma FirstCalls(i: nat, rc: Codes)
    ensures var c := OpenCtx(i);
            var pair := Calls([OpenTx(i), OpenTxCq(i)], rc);
            && Calls(c[..1], rc) == Calls([OpenTx(i)], rc)
            && Calls(c[..2], rc) == pair
            && Calls(c[..3], rc) == pair + Calls([OpenRx(i)], rc)
            && Calls(c, rc) == Calls(c[..4], rc) == pair + Calls([OpenRx(i), OpenRxCq(i)], rc)
  {
  }

  ghost predicate AllNull(s: seq<Handle>) {
    forall i :: 0 <= i < |s| ==> s[i] == Null
  }

  /** No cell holds a handle. */
  ghost predicate NothingHeld(v: View) {
    AllNull(v.txEp) && AllNull(v.rxEp) && AllNull(v.txCq) && AllNull(v.rxCq)
  }

  ghost predicate HasCells(v: View, n: nat) {
    |v.txEp| == n && |v.rxEp| == n && |v.txCq| == n && |v.rxCq| == n
  }

  /** Cells before i are filled. */
  ghost predicate Prefix(kind: Kind, s: seq<Handle>, i: nat) {
    forall k: nat :: k < |s| ==> s[k] == if k < i then To(Ctx(kind, k)) else Null
  }

  ghost predicate PrefixAll(v: View, n: nat, i: nat) {
    && HasCells(v, n)
    && Prefix(TxEp, v.txEp, i) && Prefix(RxEp, v.rxEp, i) && Prefix(TxCq, v.txCq, i) && Prefix(RxCq, v.rxCq, i)
  }

  /** The array of one kind after the first j opens of context i. */
  function Advance(kind: Kind, s: seq<Handle>, i: nat, j: nat): seq<Handle> {
    if i < |s| && Position(kind) < j then s[i := To(Ctx(kind, i))] else s
  }

  function AdvanceAll(v: View, i: nat, j: nat): View {
    v.(txEp := Advance(TxEp, v.txEp, i, j), rxEp := Advance(RxEp, v.rxEp, i, j),
       txCq := Advance(TxCq, v.txCq, i, j), rxCq := Advance(RxCq, v.rxCq, i, j))
  }

  /** The arrays after the calls t of the loop. */
  function FilledAll(v: View, n: nat, t: seq<Op>, rc: Codes): View {
    v.(txEp := Filled(TxEp, n, t, rc), rxEp := Filled(RxEp, n, t, rc),
       txCq := Filled(TxCq, n, t, rc), rxCq := Filled(RxCq, n, t, rc))
  }

  lemma AdvanceIsFilled(kind: Kind, s: seq<Handle>, i: nat, j: nat, rc: Codes)
    requires i < |s| && Prefix(kind, s, i) && j < 4
    requires AllZero(OpenOps(i), rc) && AllZero(OpenCtx(i)[..j], rc) && rc(OpenCtx(i)[j]) != 0
    ensures Advance(kind, s, i, j) == Filled(kind, |s|, OpenOps(i) + OpenCtx(i)[..j + 1], rc)
  {
    var t := OpenOps(i) + OpenCtx(i)[..j + 1];
    forall m: nat | m < |s| ensures Advance(kind, s, i, j)[m] == Filled(kind, |s|, t, rc)[m] {
      GotBefore(i, j, rc, kind, m);
    }
  }

  lemma AllOpened(n: nat, rc: Codes)
    requires AllZero(OpenOps(n), rc)
    ensures Cut(OpenOps(n), rc) == OpenOps(n) && FirstCode(OpenOps(n), rc) == 0
    ensures forall k, m: nat :: Got(OpenOps(n), rc, OpenOp(k, m)) <==> m < n
  {
    CutOfZeros(OpenOps(n), rc);
    forall k, m: nat ensures Got(OpenOps(n), rc, OpenOp(k, m)) <==> m < n {
      InOpenOps(n, OpenOp(k, m));
    }
  }

  lemma PrefixIsFilled(kind: Kind, s: seq<Handle>, rc: Codes)
    requires Prefix(kind, s, |s|) && AllZero(OpenOps(|s|), rc)
    ensures s == Filled(kind, |s|, OpenOps(|s|), rc)
  {
    AllOpened(|s|, rc);
  }

  lemma StoppedIsFilled(v: View, w: View, n: nat, i: nat, j: nat, rc: Codes)
    requires i < n && PrefixAll(v, n, i) && j < 4
    requires AllZero(OpenOps(i), rc) && AllZero(OpenCtx(i)[..j], rc) && rc(OpenCtx(i)[j]) != 0
    requires w == AdvanceAll(v, i, j).(log := w.log)
    ensures w == FilledAll(w, n, Cut(OpenOps(n), rc), rc)
  {
    StoppedAt(n, i, j, rc);
    AdvanceIsFilled(TxEp, v.txEp, i, j, rc);
    AdvanceIsFilled(RxEp, v.rxEp, i, j, rc);
    AdvanceIsFilled(TxCq, v.txCq, i, j, rc);
    AdvanceIsFilled(RxCq, v.rxCq, i, j, rc);
  }

  lemma FinishedIsFilled(v: View, n: nat, rc: Codes)
    requires PrefixAll(v, n, n) && AllZero(OpenOps(n), rc)
    ensures v == FilledAll(v, n, OpenOps(n), rc)
  {
    PrefixIsFilled(TxEp, v.txEp, rc);
    PrefixIsFilled(RxEp, v.rxEp, rc);
    PrefixIsFilled(TxCq, v.txCq, rc);
    PrefixIsFilled(RxCq, v.rxCq, rc);
  }

  lemma PrefixNext(v: View, w: View, n: nat, i: nat)
    requires i < n && PrefixAll(v, n, i)
    requires w == AdvanceAll(v, i, 4).(log := w.log)
    ensures PrefixAll(w, n, i + 1)
  {
  }

  /** Every open below context i has succeeded, in a record that began with base. */
  ghost predicate OpenedBelow(v: View, base: seq<Event>, n: nat, i: nat, rc: Codes) {
    AllZero(OpenOps(i), rc) && v.log == base + Calls(OpenOps(i), rc) && PrefixAll(v, n, i)
  }

  /** The loop of alloc_ep_res has run: ret is the first error, the record goes
      on with the calls up to it, and the cells hold what they opened. */
  ghost predicate OpenedUntil(v: View, base: seq<Event>, n: nat, ret: int, rc: Codes) {
    var t := Cut(OpenOps(n), rc);
    ret == FirstCode(OpenOps(n), rc) && v.log == base + Calls(t, rc) && v == FilledAll(v, n, t, rc)
  }

  lemma NothingOpenedYet(v: View, n: nat, rc: Codes)
    requires HasCells(v, n) && NothingHeld(v)
    ensures OpenedBelow(v, v.log, n, 0, rc)
  {
    assert v.log + Calls([], rc) == v.log;
  }

  lemma RoundSucceeds(v: View, w: View, base: seq<Event>, n: nat, i: nat, rc: Codes)
    requires i < n && OpenedBelow(v, base, n, i, rc) && AllZero(OpenCtx(i), rc)
    requires w == AdvanceAll(v, i, 4).(log := v.log + Calls(OpenCtx(i), rc))
    ensures OpenedBelow(w, base, n, i + 1, rc)
  {
    CallsAppend(OpenOps(i), OpenCtx(i), rc);
    PrefixNext(v, w, n, i);
  }

  lemma RoundFails(v: View, w: View, base: seq<Event>, n: nat, i: nat, j: nat, rc: Codes)
    requires i < n && OpenedBelow(v, base, n, i, rc)
    requires j < 4 && AllZero(OpenCtx(i)[..j], rc) && rc(OpenCtx(i)[j]) != 0
    requires w == AdvanceAll(v, i, j).(log := v.log + Calls(OpenCtx(i)[..j + 1], rc))
    ensures OpenedUntil(w, base, n, rc(OpenCtx(i)[j]), rc)
  {
    StoppedAt(n, i, j, rc);
    CallsAppend(OpenOps(i), OpenCtx(i)[..j + 1], rc);
    StoppedIsFilled(v, w, n, i, j, rc);
  }

  // ------------------------------------------------------------- the bind loops

  /** Two blocks of checked calls, one after the other. */
  lemma TwoParts(a: seq<Op>, b: seq<Op>, rc: Codes)
    ensures FirstCode(a, rc) != 0 ==>
              Cut(a + b, rc) == Cut(a, rc) && FirstCode(a + b, rc) == FirstCode(a, rc)
    ensures FirstCode(a, rc) == 0 ==>
              && Calls(Cut(a + b, rc), rc) == Calls(Cut(a, rc), rc) + Calls(Cut(b, rc), rc)
              && FirstCode(a + b, rc) == FirstCode(b, rc)
  {
    CutAppend(a, b, rc);
    if FirstCode(a, rc) == 0 {
      FirstCodeZero(a, rc);
      CutOfZeros(a, rc);
      CallsAppend(a, Cut(b, rc), rc);
    }
  }

  lemma CutPair(a: Op, b: Op, rc: Codes)
    ensures Cut([a, b], rc) == if rc(a) != 0 then [a] else [a, b]
    ensures FirstCode([a, b], rc) == if rc(a) != 0 then rc(a) else rc(b)
  {
    CutOne(a, rc);
    CutOne(b, rc);
    CutAppend([a], [b], rc);
    assert [a] + [b] == [a, b];
  }

  lemma {:induction false} TxOpsFrom(n: nat, i: nat) returns (rest: seq<Op>)
    requires i < n
    ensures TxOps(n) == TxOps(i) + TxCtx(i) + rest
  {
    rest := [];
    if i < n - 1 {
      rest := TxOpsFrom(n - 1, i);
      assert TxOps(n) == TxOps(i) + TxCtx(i) + (rest + TxCtx(n - 1));
      rest := rest + TxCtx(n - 1);
    } else {
      assert TxOps(n) == TxOps(i) + TxCtx(i) + [];
    }
  }

  lemma {:induction false} RxOpsFrom(n: nat, i: nat) returns (rest: seq<Op>)
    requires i < n
    ensures RxOps(n) == RxOps(i) + RxCtx(i) + rest
  {
    rest := [];
    if i < n - 1 {
      rest := RxOpsFrom(n - 1, i);
      assert RxOps(n) == RxOps(i) + RxCtx(i) + (rest + RxCtx(n - 1));
      rest := rest + RxCtx(n - 1);
    } else {
      assert RxOps(n) == RxOps(i) + RxCtx(i) + [];
    }
  }

  // --------------------------------------------------- the view after init_fabric

  /** What was opened in the loops is what was opened in the whole run. */
  lemma SameGot(head: seq<Op>, n: nat, rc: Codes, k: Kind, i: nat)
    requires forall op :: op in head ==> !HasCtx(op)
    ensures Got(head + Cut(LoopOps(n), rc), rc, OpenOp(k, i)) <==> Got(Cut(OpenOps(n), rc), rc, OpenOp(k, i))
  {
    var op := OpenOp(k, i);
    CutAppend(OpenOps(n), BindOps(n), rc);
    assert HasCtx(op);
    if FirstCode(OpenOps(n), rc) == 0 {
      FirstCodeZero(OpenOps(n), rc);
      CutOfZeros(OpenOps(n), rc);
      InBindOps(n, op);
      assert op !in Cut(BindOps(n), rc);
    }
  }

  lemma FilledSame(head: seq<Op>, n: nat, rc: Codes, k: Kind)
    requires forall op :: op in head ==> !HasCtx(op)
    ensures Filled(k, n, head + Cut(LoopOps(n), rc), rc) == Filled(k, n, Cut(OpenOps(n), rc), rc)
  {
    forall i: nat | i < n
      ensures Filled(k, n, head + Cut(LoopOps(n), rc), rc)[i] == Filled(k, n, Cut(OpenOps(n), rc), rc)[i]
    {
      SameGot(head, n, rc, k, i);
    }
  }

  // -------------------------------------------------------------- after a setup

  /** After init_fabric with the count n: the code and the calls are those of
      RefRun, and the cells agree with the record. */
  ghost predicate SetUpDone(v: View, n: nat, memory: bool, ret: int, rc: Codes) {
    var run := RefRun(n, memory, rc);
    ret == run.code && v.log == Calls(run.trace, rc) && Consistent(v)
  }

  lemma HeadIsConsistent(v: View, n: nat, rc: Codes)
    requires v.log == Calls(InitHead(n, rc).trace, rc) && NothingHeld(v)
    requires v.sep == if Got(InitHead(n, rc).trace, rc, OpenSep) then To(Sep) else Null
    ensures Consistent(v)
  {
    var t := InitHead(n, rc).trace;
    assert IndicesBelow(t, 0) by {
      forall op | op in t ensures !HasCtx(op) {
        HeadHasNoCtx(n, rc, op);
      }
    }
    EmptySetupIsConsistent(v, t, rc);
  }

  lemma EarlyFailed(v: View, n: nat, memory: bool, ret: int, rc: Codes)
    requires v.log == Calls([GetInfo], rc) && NothingHeld(v) && v.sep == Null
    requires if rc(GetInfo) != 0 then ret == rc(GetInfo) else n == 0 && ret == 1
    ensures SetUpDone(v, n, memory, ret, rc)
  {
    HeadIsConsistent(v, n, rc);
  }

  lemma FabricFailed(v: View, n: nat, memory: bool, ret: int, rc: Codes)
    requires n > 0 && rc(GetInfo) == 0
    requires ret == FirstCode(FourOps(), rc) != 0
    requires v.log == Calls([GetInfo], rc) + Calls(Cut(FourOps(), rc), rc) && NothingHeld(v) && v.sep == Null
    ensures SetUpDone(v, n, memory, ret, rc)
  {
    FabricParts(rc);
    CallsAppend([GetInfo], Cut(FourOps(), rc), rc);
    var t := Cut(FourOps(), rc);
    LastCode(FourOps(), rc);
    CutStops(FourOps(), rc);
    assert !Got(t, rc, OpenSep) by {
      if OpenSep in t {
        var k :| 0 <= k < |t| && t[k] == OpenSep;
        assert k == |t| - 1;
      }
    }
    HeadIsConsistent(v, n, rc);
  }

  lemma PrologueCalls(four: seq<Op>, rc: Codes)
    ensures Calls([GetInfo], rc) + Calls(four, rc) + Calls([AllocRes], rc) == Calls([GetInfo] + (four + [AllocRes]), rc)
  {
    CallsAppend(four, [AllocRes], rc);
    CallsAppend([GetInfo], four + [AllocRes], rc);
  }

  lemma PrologueShape()
    ensures OpenSep in Prologue()
    ensures forall op :: op in Prologue() ==> !HasCtx(op)
  {
    assert Prologue()[4] == OpenSep;
  }

  lemma PrologueDone(n: nat, rc: Codes)
    requires n > 0 && rc(GetInfo) == 0 && FirstCode(FourOps(), rc) == 0
    ensures Calls([GetInfo], rc) + Calls(Cut(FourOps(), rc), rc) + Calls([AllocRes], rc) == Calls(Prologue(), rc)
    ensures InitHead(n, rc) == Outcome(Prologue(), rc(AllocRes))
    ensures FailsEarly(n, rc) <==> rc(AllocRes) != 0
    ensures rc(OpenSep) == 0
  {
    FabricParts(rc);
    PrologueCalls(FourOps(), rc);
  }

  lemma AllocFailed(v: View, n: nat, memory: bool, ret: int, rc: Codes)
    requires n > 0 && rc(GetInfo) == 0 && FirstCode(FourOps(), rc) == 0
    requires if rc(AllocRes) != 0 then ret == rc(AllocRes) else !memory && ret == -1
    requires v.log == Calls([GetInfo], rc) + Calls(Cut(FourOps(), rc), rc) + Calls([AllocRes], rc)
    requires NothingHeld(v) && v.sep == To(Sep)
    ensures SetUpDone(v, n, memory, ret, rc)
  {
    PrologueDone(n, rc);
    PrologueShape();
    HeadIsConsistent(v, n, rc);
  }

  lemma LoopsAreConsistent(v: View, head: seq<Op>, n: nat, rc: Codes)
    requires (forall op :: op in head ==> !HasCtx(op)) && OpenSep in head && rc(OpenSep) == 0
    requires v.log == Calls(head, rc) + Calls(Cut(LoopOps(n), rc), rc) && v.sep == To(Sep)
    requires v == FilledAll(v, n, Cut(OpenOps(n), rc), rc)
    ensures v.log == Calls(head + Cut(LoopOps(n), rc), rc)
    ensures Consistent(v)
  {
    CallsAppend(head, Cut(LoopOps(n), rc), rc);
    var t := head + Cut(LoopOps(n), rc);
    forall op | op in t && HasCtx(op) ensures op.ctx < n {
      assert op in LoopOps(n);
      InOpenOps(n, op);
      InBindOps(n, op);
    }
    SetupIsConsistent(n, t, rc);
    FilledSame(head, n, rc, TxEp);
    FilledSame(head, n, rc, RxEp);
    FilledSame(head, n, rc, TxCq);
    FilledSame(head, n, rc, RxCq);
  }

  lemma OpenFailed(v: View, n: nat, ret: int, rc: Codes)
    requires n > 0 && rc(GetInfo) == 0 && FirstCode(FourOps(), rc) == 0 && rc(AllocRes) == 0
    requires OpenedUntil(v, Calls([GetInfo], rc) + Calls(Cut(FourOps(), rc), rc) + Calls([AllocRes], rc), n, ret, rc)
    requires ret != 0 && v.sep == To(Sep)
    ensures SetUpDone(v, n, true, ret, rc)
  {
    PrologueDone(n, rc);
    CutAppend(OpenOps(n), BindOps(n), rc);
    PrologueShape();
    LoopsAreConsistent(v, Prologue(), n, rc);
  }

  lemma BindDone(v: View, w: View, n: nat, ret: int, rc: Codes)
    requires n > 0 && rc(GetInfo) == 0 && FirstCode(FourOps(), rc) == 0 && rc(AllocRes) == 0
    requires OpenedUntil(v, Calls([GetInfo], rc) + Calls(Cut(FourOps(), rc), rc) + Calls([AllocRes], rc), n, 0, rc)
    requires v.sep == To(Sep)
    requires w == v.(log := v.log + Calls(Cut(BindOps(n), rc), rc)) && ret == FirstCode(BindOps(n), rc)
    ensures SetUpDone(w, n, true, ret, rc)
  {
    PrologueDone(n, rc);
    TwoParts(OpenOps(n), BindOps(n), rc);
    Associate(Calls(Prologue(), rc), Calls(Cut(OpenOps(n), rc), rc), Calls(Cut(BindOps(n), rc), rc));
    PrologueShape();
    LoopsAreConsistent(w, Prologue(), n, rc);
  }

  lemma SessionRecord(v: View, closeRc: Fid -> int)
    ensures v.log + Closes(Closing(v), closeRc) + Closes(if v.sep.To? then [v.sep.fid] else [], closeRc)
            == v.log + Closes(AllClosing(v), closeRc)
  {
    ClosesAppend(Closing(v), if v.sep.To? then [v.sep.fid] else [], closeRc);
  }

  class ScalableEndpoint {
    const rc: Codes
    const closeRc: Fid -> int

    var ctxCnt: nat
    var rxCtxBits: nat
    var txAttr: nat
    var rxAttr: nat
    var sep: Handle
    var txEp: array?<Handle>
    var rxEp: array?<Handle>
    var txCq: array?<Handle>
    var rxCq: array?<Handle>
    var remoteRxAddr: array?<nat>
    var log: seq<Event>

    /** fi->ep_attr. */
    function Attr(): EpAttr
      reads this`txAttr, this`rxAttr
    {
      EpAttr(txAttr, rxAttr)
    }

    function Contents(a: array?<Handle>): seq<Handle>
      reads a
    {
      if a == null then [] else a[..]
    }

    function Snapshot(): View
      reads this, txEp, rxEp, txCq, rxCq
    {
      View(Contents(txEp), Contents(rxEp), Contents(txCq), Contents(rxCq), sep, log)
    }

    /** calloc never gives the same memory twice. */
    predicate Separate()
      reads this
    {
      && (txEp != null ==> txEp != rxEp && txEp != txCq && txEp != rxCq)
      && (rxEp != null ==> rxEp != txCq && rxEp != rxCq)
      && (txCq != null ==> txCq != rxCq)
    }

    predicate NoArrays()
      reads this
    {
      txEp == null && rxEp == null && txCq == null && rxCq == null
    }

    predicate HasArrays(n: nat)
      reads this
    {
      && Separate()
      && txEp != null && rxEp != null && txCq != null && rxCq != null
      && txEp.Length == rxEp.Length == txCq.Length == rxCq.Length == n
    }

    /** What init_av needs of a setup. */
    ghost predicate Ready()
      reads this`remoteRxAddr, this`ctxCnt, this`rxCtxBits
    {
      && remoteRxAddr != null && remoteRxAddr.Length == ctxCnt
      && Address.IsBitCount(ctxCnt, rxCtxBits) && rxCtxBits <= 31
    }

    /** The program starts with all its globals zero. */
    constructor (ctxCnt: nat, rc: Codes, closeRc: Fid -> int)
      ensures NoArrays() && log == [] && sep == Null && remoteRxAddr == null && rxCtxBits == 0
      ensures Attr() == EpAttr(0, 0)
      ensures this.ctxCnt == ctxCnt && this.rc == rc && this.closeRc == closeRc
    {
      this.ctxCnt, this.rc, this.closeRc := ctxCnt, rc, closeRc;
      rxCtxBits, txAttr, rxAttr, sep, log := 0, 0, 0, Null, [];
      txEp, rxEp, txCq, rxCq, remoteRxAddr := null, null, null, null, null;
    }

    // ------------------------------------------------------------------ setup

    method Do(op: Op) returns (ret: int)
      modifies this`log
      ensures ret == rc(op) && log == old(log) + Calls([op], rc)
    {
      ret := rc(op);
      log := log + [Call(op, ret)];
    }

    /** fi_tx_context, fi_rx_context or fi_cq_open into cell i. */
    method Open(kind: Kind, a: array<Handle>, i: nat) returns (ret: int)
      requires i < a.Length
      modifies this`log, a
      ensures ret == rc(OpenOp(kind, i)) && log == old(log) + Calls([OpenOp(kind, i)], rc)
      ensures a[..] == old(a[..])[i := if ret == 0 then To(Ctx(kind, i)) else old(a[i])]
    {
      ret := Do(OpenOp(kind, i));
      if ret == 0 {
        a[i] := To(Ctx(kind, i));
      }
    }

    /** An endpoint and its queue; j of the two opens succeed. */
    method OpenPair(ep: Kind, a: array<Handle>, cq: Kind, b: array<Handle>, i: nat) returns (ret: int, ghost j: nat)
      requires a != b && i < a.Length && i < b.Length
      modifies this`log, a, b
      ensures j <= 2 && (ret == 0 <==> j == 2)
      ensures j > 0 <==> rc(OpenOp(ep, i)) == 0
      ensures j > 1 <==> rc(OpenOp(ep, i)) == 0 && rc(OpenOp(cq, i)) == 0
      ensures j < 2 ==> ret == rc(OpenOp(if j == 0 then ep else cq, i))
      ensures log == old(log) + Calls(if j == 0 then [OpenOp(ep, i)] else [OpenOp(ep, i), OpenOp(cq, i)], rc)
      ensures a[..] == if j > 0 then old(a[..])[i := To(Ctx(ep, i))] else old(a[..])
      ensures b[..] == if j > 1 then old(b[..])[i := To(Ctx(cq, i))] else old(b[..])
    {
      j := 0;
      ret := Open(ep, a, i);
      if ret != 0 { return; }
      j := 1;
      ret := Open(cq, b, i);
      if ret != 0 { return; }
      j := 2;
    }

    /** The four opens of one context. */
    method OpenFour(i: nat) returns (ret: int, ghost j: nat)
      requires HasArrays(ctxCnt) && i < ctxCnt
      modifies this`log, txEp, rxEp, txCq, rxCq
      ensures j <= 4 && AllZero(OpenCtx(i)[..j], rc)
      ensures ret == 0 <==> j == 4
      ensures j < 4 ==> ret == rc(OpenCtx(i)[j])
      ensures j == 4 ==> AllZero(OpenCtx(i), rc)
      ensures Snapshot() == AdvanceAll(old(Snapshot()), i, j).(
        log := old(log) + Calls(if j < 4 then OpenCtx(i)[..j + 1] else OpenCtx(i), rc))
    {
      FirstCalls(i, rc);
      ret, j := OpenPair(TxEp, txEp, TxCq, txCq, i);
      if ret == 0 {
        ret, j := OpenPair(RxEp, rxEp, RxCq, rxCq, i);
        j := 2 + j;
      }
    }

    /** One round of the loop in alloc_ep_res, in a record that began with base. */
    method OpenContext(i: nat, ghost base: seq<Event>) returns (ret: int)
      requires HasArrays(ctxCnt) && i < ctxCnt && OpenedBelow(Snapshot(), base, ctxCnt, i, rc)
      modifies this`log, txEp, rxEp, txCq, rxCq
      ensures ret == 0 ==> OpenedBelow(Snapshot(), base, ctxCnt, i + 1, rc)
      ensures ret != 0 ==> OpenedUntil(Snapshot(), base, ctxCnt, ret, rc)
    {
      ghost var v := Snapshot();
      ghost var j;
      ret, j := OpenFour(i);
      if ret == 0 {
        RoundSucceeds(v, Snapshot(), base, ctxCnt, i, rc);
      } else {
        RoundFails(v, Snapshot(), base, ctxCnt, i, j, rc);
      }
    }

    /** The loop of alloc_ep_res: it stops at the first error. */
    method OpenContexts() returns (ret: int)
      requires HasArrays(ctxCnt) && NothingHeld(Snapshot())
      modifies this`log, txEp, rxEp, txCq, rxCq
      ensures OpenedUntil(Snapshot(), old(log), ctxCnt, ret, rc)
    {
      NothingOpenedYet(Snapshot(), ctxCnt, rc);
      var i := 0;
      while i < ctxCnt
        invariant 0 <= i <= ctxCnt && OpenedBelow(Snapshot(), old(log), ctxCnt, i, rc)
      {
        ret := OpenContext(i, old(log));
        if ret != 0 {
          return;
        }
        i := i + 1;
      }
      AllOpened(ctxCnt, rc);
      FinishedIsFilled(Snapshot(), ctxCnt, rc);
      ret := 0;
    }

    method Calloc(present: bool) returns (a: array?<Handle>)
      ensures present <==> a != null
      ensures a != null ==> fresh(a) && a.Length == ctxCnt && forall i :: 0 <= i < ctxCnt ==> a[i] == Null
    {
      a := null;
      if present {
        a := new Handle[ctxCnt](_ => Null);
      }
    }

    twostate predicate FreshArrays()
      reads this
    {
      && (txEp != null ==> fresh(txEp)) && (rxEp != null ==> fresh(rxEp))
      && (txCq != null ==> fresh(txCq)) && (rxCq != null ==> fresh(rxCq))
    }

    /** The first four callocs. */
    method AllocHandles(mem: Memory)
      modifies this`txEp, this`rxEp, this`txCq, this`rxCq
      ensures Separate() && FreshArrays() && NothingHeld(Snapshot())
      ensures mem.All() ==> HasArrays(ctxCnt)
    {
      txCq := Calloc(mem.txCq);
      rxCq := Calloc(mem.rxCq);
      txEp := Calloc(mem.txEp);
      rxEp := Calloc(mem.rxEp);
    }

    /** All five. */
    method AllocArrays(mem: Memory)
      modifies this`txEp, this`rxEp, this`txCq, this`rxCq, this`remoteRxAddr
      ensures Separate() && FreshArrays() && NothingHeld(Snapshot())
      ensures mem.All() ==> HasArrays(ctxCnt)
      ensures mem.addrs ==> remoteRxAddr != null && fresh(remoteRxAddr) && remoteRxAddr.Length == ctxCnt
    {
      AllocHandles(mem);
      if mem.addrs {
        remoteRxAddr := new nat[ctxCnt](_ => 0);
      }
    }

    /** alloc_ep_res. Nothing is undone when it fails. */
    method AllocEpRes(mem: Memory) returns (ret: int)
      requires NoArrays() && ctxCnt < Address.INT_LIMIT
      modifies this`log, this`rxCtxBits, this`txEp, this`rxEp, this`txCq, this`rxCq, this`remoteRxAddr
      ensures Address.IsBitCount(ctxCnt, rxCtxBits)
      ensures Separate() && FreshArrays()
      ensures ret == 0 ==> Ready() && fresh(remoteRxAddr)
      ensures rc(AllocRes) != 0 ==>
        ret == rc(AllocRes) && NoArrays() && log == old(log) + Calls([AllocRes], rc)
      ensures rc(AllocRes) == 0 && !mem.All() ==>
        ret == -1 && log == old(log) + Calls([AllocRes], rc) && NothingHeld(Snapshot())
      ensures rc(AllocRes) == 0 && mem.All() ==>
        HasArrays(ctxCnt) && OpenedUntil(Snapshot(), old(log) + Calls([AllocRes], rc), ctxCnt, ret, rc)
    {
      rxCtxBits := Address.CountContextBits(ctxCnt);
      ret := Do(AllocRes);
      if ret != 0 {
        return;
      }
      AllocArrays(mem);
      if !mem.All() {
        return -1;
      }
      ret := OpenContexts();
    }

    /** One round of the first loop of bind_ep_res. */
    method BindTxContext(i: nat) returns (ret: int)
      modifies this`log
      ensures ret == FirstCode(TxCtx(i), rc) && log == old(log) + Calls(Cut(TxCtx(i), rc), rc)
    {
      CutPair(BindTx(i), EnableTx(i), rc);
      ret := Do(BindTx(i));
      if ret != 0 {
        return;
      }
      ret := Do(EnableTx(i));
    }

    method BindTxContexts() returns (ret: int)
      modifies this`log
      ensures ret == FirstCode(TxOps(ctxCnt), rc) && log == old(log) + Calls(Cut(TxOps(ctxCnt), rc), rc)
    {
      var i := 0;
      while i < ctxCnt
        invariant 0 <= i <= ctxCnt && AllZero(TxOps(i), rc) && log == old(log) + Calls(TxOps(i), rc)
      {
        FirstCodeZero(TxCtx(i), rc);
        ret := BindTxContext(i);
        CallsAppend(TxOps(i), Cut(TxCtx(i), rc), rc);
        if ret != 0 {
          ghost var rest := TxOpsFrom(ctxCnt, i);
          CutInside(TxOps(i), TxCtx(i), rest, rc);
          return;
        }
        CutOfZeros(TxCtx(i), rc);
        i := i + 1;
      }
      CutOfZeros(TxOps(ctxCnt), rc);
      ret := 0;
    }

    /** One round of the second loop: bind, enable and post a receive. */
    method BindRxContext(i: nat) returns (ret: int)
      modifies this`log
      ensures ret == FirstCode(RxCtx(i), rc) && log == old(log) + Calls(Cut(RxCtx(i), rc), rc)
    {
      CutPair(BindRx(i), EnableRx(i), rc);
      CutOne(PostRecv(i), rc);
      CutAppend([BindRx(i), EnableRx(i)], [PostRecv(i)], rc);
      assert RxCtx(i) == [BindRx(i), EnableRx(i)] + [PostRecv(i)];
      ret := Do(BindRx(i));
      if ret != 0 {
        return;
      }
      ret := Do(EnableRx(i));
      if ret != 0 {
        return;
      }
      ret := Do(PostRecv(i));
    }

    method BindRxContexts() returns (ret: int)
      modifies this`log
      ensures ret == FirstCode(RxOps(ctxCnt), rc) && log == old(log) + Calls(Cut(RxOps(ctxCnt), rc), rc)
    {
      var i := 0;
      while i < ctxCnt
        invariant 0 <= i <= ctxCnt && AllZero(RxOps(i), rc) && log == old(log) + Calls(RxOps(i), rc)
      {
        FirstCodeZero(RxCtx(i), rc);
        ret := BindRxContext(i);
        CallsAppend(RxOps(i), Cut(RxCtx(i), rc), rc);
        if ret != 0 {
          ghost var rest := RxOpsFrom(ctxCnt, i);
          CutInside(RxOps(i), RxCtx(i), rest, rc);
          return;
        }
        CutOfZeros(RxCtx(i), rc);
        i := i + 1;
      }
      CutOfZeros(RxOps(ctxCnt), rc);
      ret := 0;
    }

    /** Both loops of bind_ep_res. */
    method BindContexts() returns (ret: int)
      modifies this`log
      ensures var ops := TxOps(ctxCnt) + RxOps(ctxCnt);
              ret == FirstCode(ops, rc) && log == old(log) + Calls(Cut(ops, rc), rc)
    {
      TwoParts(TxOps(ctxCnt), RxOps(ctxCnt), rc);
      ret := BindTxContexts();
      if ret != 0 {
        return;
      }
      ret := BindRxContexts();
    }

    method BindAndEnable() returns (ret: int)
      modifies this`log
      ensures var ops := TxOps(ctxCnt) + RxOps(ctxCnt) + [EnableSep];
              ret == FirstCode(ops, rc) && log == old(log) + Calls(Cut(ops, rc), rc)
    {
      TwoParts(TxOps(ctxCnt) + RxOps(ctxCnt), [EnableSep], rc);
      CutOne(EnableSep, rc);
      ret := BindContexts();
      if ret != 0 {
        return;
      }
      ret := Do(EnableSep);
    }

    /** bind_ep_res: every call is checked, so the first error ends it. */
    method BindEpRes() returns (ret: int)
      modifies this`log
      ensures ret == FirstCode(BindOps(ctxCnt), rc) && log == old(log) + Calls(Cut(BindOps(ctxCnt), rc), rc)
    {
      ghost var rest := TxOps(ctxCnt) + RxOps(ctxCnt) + [EnableSep];
      assert BindOps(ctxCnt) == [BindAv] + rest;
      TwoParts([BindAv], rest, rc);
      CutOne(BindAv, rc);
      ret := Do(BindAv);
      if ret != 0 {
        return;
      }
      ret := BindAndEnable();
    }

    // ------------------------------------------------------------- init_fabric

    /** ft_open_fabric_res. */
    method OpenFabricRes() returns (ret: int)
      modifies this`log
      ensures var ops := [OpenFabric, OpenEq, OpenDomain];
              ret == FirstCode(ops, rc) && log == old(log) + Calls(Cut(ops, rc), rc)
    {
      CutPair(OpenFabric, OpenEq, rc);
      CutOne(OpenDomain, rc);
      CutAppend([OpenFabric, OpenEq], [OpenDomain], rc);
      assert [OpenFabric, OpenEq, OpenDomain] == [OpenFabric, OpenEq] + [OpenDomain];
      ret := Do(OpenFabric);
      if ret != 0 {
        return;
      }
      ret := Do(OpenEq);
      if ret != 0 {
        return;
      }
      ret := Do(OpenDomain);
    }

    /** ft_open_fabric_res and fi_scalable_ep. */
    method OpenFabricAndSep() returns (ret: int)
      requires sep == Null
      modifies this`log, this`sep
      ensures ret == FirstCode(FourOps(), rc) && log == old(log) + Calls(Cut(FourOps(), rc), rc)
      ensures sep == if ret == 0 then To(Sep) else Null
    {
      CutOne(OpenSep, rc);
      TwoParts([OpenFabric, OpenEq, OpenDomain], [OpenSep], rc);
      assert FourOps() == [OpenFabric, OpenEq, OpenDomain] + [OpenSep];
      ret := OpenFabricRes();
      if ret != 0 {
        return;
      }
      ret := Do(OpenSep);
      if ret == 0 {
        sep := To(Sep);
      }
    }

    /** alloc_ep_res and bind_ep_res, once fabric, domain and endpoint are open. */
    method SetUpContexts(mem: Memory) returns (ret: int)
      requires NoArrays() && sep == To(Sep) && 0 < ctxCnt < Address.INT_LIMIT
      requires rc(GetInfo) == 0 && FirstCode(FourOps(), rc) == 0
      requires log == Calls([GetInfo], rc) + Calls(Cut(FourOps(), rc), rc)
      modifies this`log, this`rxCtxBits, this`txEp, this`rxEp, this`txCq, this`rxCq, this`remoteRxAddr
      ensures SetUpDone(Snapshot(), ctxCnt, mem.All(), ret, rc)
      ensures Separate() && FreshArrays()
      ensures ret == 0 ==> Ready() && fresh(remoteRxAddr)
    {
      ret := AllocEpRes(mem);
      if rc(AllocRes) != 0 || !mem.All() {
        AllocFailed(Snapshot(), ctxCnt, mem.All(), ret, rc);
        return;
      }
      if ret != 0 {
        OpenFailed(Snapshot(), ctxCnt, ret, rc);
        return;
      }
      ghost var v := Snapshot();
      ret := BindEpRes();
      BindDone(v, Snapshot(), ctxCnt, ret, rc);
    }

    /** init_fabric once the count is known: open, allocate and bind. */
    method SetUp(mem: Memory) returns (ret: int)
      requires NoArrays() && sep == Null && 0 < ctxCnt < Address.INT_LIMIT
      requires rc(GetInfo) == 0 && log == Calls([GetInfo], rc)
      modifies this`log, this`sep, this`rxCtxBits, this`txEp, this`rxEp, this`txCq, this`rxCq, this`remoteRxAddr
      ensures SetUpDone(Snapshot(), ctxCnt, mem.All(), ret, rc)
      ensures Separate() && FreshArrays()
      ensures ret == 0 ==> Ready() && fresh(remoteRxAddr)
    {
      ret := OpenFabricAndSep();
      if ret != 0 {
        FabricFailed(Snapshot(), ctxCnt, mem.All(), ret, rc);
        return;
      }
      ret := SetUpContexts(mem);
    }

    /** ft_getinfo, which may end init_fabric whatever the count n would be. */
    method GetInfoFirst(ghost n: nat, ghost memory: bool) returns (ret: int)
      requires NoArrays() && log == [] && sep == Null
      modifies this`log
      ensures ret == rc(GetInfo) && log == Calls([GetInfo], rc)
      ensures ret != 0 ==> SetUpDone(Snapshot(), n, memory, ret, rc)
    {
      ret := Do(GetInfo);
      if ret != 0 {
        EarlyFailed(Snapshot(), n, memory, ret, rc);
      }
    }

    /** The smallest of the count asked for and the provider's two limits. */
    method Negotiate(txLimit: nat, rxLimit: nat)
      modifies this`ctxCnt
      ensures ctxCnt == Negotiated(old(ctxCnt), txLimit, rxLimit)
    {
      ctxCnt := Min(ctxCnt, txLimit);
      ctxCnt := Min(ctxCnt, rxLimit);
    }

    /** The rest of init_fabric, with ep_attr. */
    method SetUpNegotiated(mem: Memory) returns (ret: int)
      requires NoArrays() && sep == Null && ctxCnt < Address.INT_LIMIT
      requires rc(GetInfo) == 0 && log == Calls([GetInfo], rc)
      modifies this`log, this`sep, this`rxCtxBits, this`txAttr, this`rxAttr
      modifies this`txEp, this`rxEp, this`txCq, this`rxCq, this`remoteRxAddr
      ensures SetUpDone(Snapshot(), ctxCnt, mem.All(), ret, rc)
      ensures Separate() && FreshArrays()
      ensures ret == 0 ==> Ready() && fresh(remoteRxAddr)
      ensures Attr() == if ctxCnt > 0 then EpAttr(ctxCnt, ctxCnt) else old(Attr())
    {
      if ctxCnt == 0 {
        EarlyFailed(Snapshot(), 0, mem.All(), 1, rc);
        return 1;
      }
      txAttr := ctxCnt;
      rxAttr := ctxCnt;
      ret := SetUp(mem);
    }

    /** init_fabric: negotiate the count, then set up that many contexts. The
        code and the calls are those of RefInit; the cells agree with the record. */
    method InitFabric(txLimit: nat, rxLimit: nat, mem: Memory) returns (ret: int)
      requires NoArrays() && log == [] && sep == Null && ctxCnt < Address.INT_LIMIT
      modifies this
      ensures SetUpDone(Snapshot(), Negotiated(old(ctxCnt), txLimit, rxLimit), mem.All(), ret, rc)
      ensures Separate() && FreshArrays()
      ensures ret == 0 ==> Ready() && fresh(remoteRxAddr)
      ensures rc(GetInfo) == 0 ==> ctxCnt == Negotiated(old(ctxCnt), txLimit, rxLimit)
      ensures Attr() == RefAttr(old(Attr()), old(ctxCnt), txLimit, rxLimit, rc)
      ensures rc(GetInfo) == 0 ==>
                && Greatest(ctxCnt, old(ctxCnt), txLimit, rxLimit)
                && (ctxCnt > 0 ==> txAttr == rxAttr == ctxCnt)
    {
      ret := GetInfoFirst(Negotiated(ctxCnt, txLimit, rxLimit), mem.All());
      if ret != 0 {
        return;
      }
      NegotiatedIsGreatest(ctxCnt, txLimit, rxLimit, Negotiated(ctxCnt, txLimit, rxLimit));
      Negotiate(txLimit, rxLimit);
      ret := SetUpNegotiated(mem);
    }

    // ------------------------------------------------------------------ init_av

    /** The exchange, then the addresses of the peer's contexts, then a further
        receive. The exchange gives remote, the peer's address-vector handle. */
    method InitAv(client: bool, remote: nat, w: World) returns (r: Result)
      requires Ready()
      modifies remoteRxAddr
      ensures r == RunItems(ExchangeItems(client) + RepostItems(), RefDoes(w))
      ensures var e := RunItems(ExchangeItems(client), RefDoes(w));
              remoteRxAddr[..] == if e.Ended? && e.code == 0 then Address.RxAddrs(remote, ctxCnt, rxCtxBits)
                                  else old(remoteRxAddr[..])
    {
      RunAppend(ExchangeItems(client), RepostItems(), RefDoes(w));
      r := Exchange(client, w);
      if r.Waiting? || r.code != 0 {
        return;
      }
      Address.FillRxAddrs(remoteRxAddr, remote, rxCtxBits);
      var again := Repost(w);
      r := Continue(r.trace, again);
    }

    /** What run does after init_fabric. */
    method RunRest(client: bool, remote: nat, w: World) returns (r: Result)
      requires Ready()
      modifies remoteRxAddr
      ensures r == RefRest(client, ctxCnt, w)
    {
      RunAppend(ExchangeItems(client) + RepostItems(), TestItems(client, ctxCnt), RefDoes(w));
      r := InitAv(client, remote, w);
      if r.Waiting? || r.code != 0 {
        return;
      }
      var test := RunTest(client, ctxCnt, w);
      r := Continue(r.trace, test);
    }

    /** run: init_fabric, init_av and run_test. r is what happens after the calls of
        init_fabric. */
    method Run(client: bool, txLimit: nat, rxLimit: nat, mem: Memory, remote: nat, w: World) returns (r: Result)
      requires NoArrays() && log == [] && sep == Null && ctxCnt < Address.INT_LIMIT && rc == w.setup
      modifies this
      ensures Separate() && FreshArrays()
      ensures Consistent(Snapshot())
      ensures log == Calls(RefInit(old(ctxCnt), txLimit, rxLimit, mem.All(), rc).trace, rc)
      ensures RefProcess(client, old(ctxCnt), txLimit, rxLimit, mem.All(), w)
              == Continue(Setups(RefInit(old(ctxCnt), txLimit, rxLimit, mem.All(), rc).trace), r)
    {
      ghost var f := RefInit(ctxCnt, txLimit, rxLimit, mem.All(), rc);
      var ret := InitFabric(txLimit, rxLimit, mem);
      r := Ended([], ret);
      if ret == 0 {
        ghost var v := Snapshot();
        r := RunRest(client, remote, w);
        assert Snapshot() == v;
      } else {
        assert Setups(f.trace) + [] == Setups(f.trace);
      }
    }

    // ------------------------------------------------------------------ teardown

    /** FT_CLOSEV_FID: close and clear every cell, whatever a close returns. */
    method CloseCells(a: array?<Handle>)
      modifies this`log, a
      ensures a != null ==> forall i :: 0 <= i < a.Length ==> a[i] == Null
      ensures log == old(log) + Closes(NonNull(old(Contents(a))), closeRc)
    {
      if a == null {
        return;
      }
      ghost var s := a[..];
      var i := 0;
      while i < a.Length
        invariant 0 <= i <= a.Length
        invariant forall j :: 0 <= j < i ==> a[j] == Null
        invariant forall j :: i <= j < a.Length ==> a[j] == s[j]
        invariant log == old(log) + Closes(NonNull(s[..i]), closeRc)
      {
        assert s[..i + 1][..i] == s[..i];
        if a[i] != Null {
          var f := a[i].fid;
          ClosesAppend(NonNull(s[..i]), [f], closeRc);
          log := log + [Close(f, closeRc(f))];
          a[i] := Null;
        }
        i := i + 1;
      }
      assert s[..a.Length] == s;
    }

    method FreeEndpoints()
      requires Separate()
      modifies this`log, this`txEp, this`rxEp, txEp, rxEp
      ensures rxEp == null && txEp == null
      ensures log == old(log) + Closes(Endpoints(old(Snapshot())), closeRc)
    {
      ClosesAppend(NonNull(Contents(rxEp)), NonNull(Contents(txEp)), closeRc);
      CloseCells(rxEp);
      rxEp := null;
      CloseCells(txEp);
      txEp := null;
    }

    method FreeQueues()
      requires Separate()
      modifies this`log, this`txCq, this`rxCq, txCq, rxCq
      ensures rxCq == null && txCq == null
      ensures log == old(log) + Closes(Queues(old(Snapshot())), closeRc)
    {
      ClosesAppend(NonNull(Contents(rxCq)), NonNull(Contents(txCq)), closeRc);
      CloseCells(rxCq);
      rxCq := null;
      CloseCells(txCq);
      txCq := null;
    }

    /** free_res. It forgets remote_rx_addr, which stays allocated. */
    method FreeRes()
      requires Separate()
      modifies this`log, this`txEp, this`rxEp, this`txCq, this`rxCq, txEp, rxEp, txCq, rxCq
      ensures NoArrays()
      ensures log == old(log) + Closes(Closing(old(Snapshot())), closeRc)
      ensures old(NoArrays()) ==> log == old(log)
    {
      ghost var v := Snapshot();
      ClosesAppend(Endpoints(v), Queues(v), closeRc);
      assert NoArrays() ==> Closing(v) == [];
      FreeEndpoints();
      assert Contents(rxCq) == v.rxCq && Contents(txCq) == v.txCq;
      FreeQueues();
    }

    /** FT_CLOSE_FID on the scalable endpoint, at the end of main. */
    method CloseSep()
      modifies this`log, this`sep
      ensures sep == Null
      ensures log == old(log) + Closes(if old(sep).To? then [old(sep).fid] else [], closeRc)
    {
      if sep != Null {
        log := log + [Close(sep.fid, closeRc(sep.fid))];
        sep := Null;
      }
    }

    /** What main does after run. */
    method TearDown()
      requires Separate()
      modifies this`log, this`sep, this`txEp, this`rxEp, this`txCq, this`rxCq, txEp, rxEp, txCq, rxCq
      ensures NoArrays() && sep == Null
      ensures log == old(log) + Closes(AllClosing(old(Snapshot())), closeRc)
    {
      SessionRecord(Snapshot(), closeRc);
      FreeRes();
      CloseSep();
    }
  }

  lemma SessionOpened(t: seq<Op>, rc: Codes)
    ensures forall k, i: nat :: Ctx(k, i) in OpenSet(Calls(t, rc)) <==> Got(t, rc, OpenOp(k, i))
    ensures Sep in OpenSet(Calls(t, rc)) <==> Got(t, rc, OpenSep)
  {
    forall k, i: nat ensures Ctx(k, i) in OpenSet(Calls(t, rc)) <==> Got(t, rc, OpenOp(k, i)) {
      OpenAfterCalls(t, rc, k, i);
    }
    OpenAfterCalls(t, rc, TxEp, 0);
  }

  /** A whole process: init_fabric, init_av and run_test, then the teardown; but a
      process that waits for ever does not come to it. r is what happens after the
      calls of init_fabric; closing lists the handles that were closed. */
  method Session(client: bool, requested: nat, txLimit: nat, rxLimit: nat, mem: Memory, remote: nat, w: World,
                 closeRc: Fid -> int)
    returns (r: Result, log: seq<Event>, ghost closing: seq<Fid>)
    requires requested < Address.INT_LIMIT
    ensures RefProcess(client, requested, txLimit, rxLimit, mem.All(), w)
            == Continue(Setups(RefInit(requested, txLimit, rxLimit, mem.All(), w.setup).trace), r)
    ensures log == Calls(RefInit(requested, txLimit, rxLimit, mem.All(), w.setup).trace, w.setup)
                   + Closes(closing, closeRc)
    ensures InCloseOrder(closing) && SafeLog(log)
    ensures r.Waiting? ==> closing == []
    ensures r.Ended? ==>
              var t := RefInit(requested, txLimit, rxLimit, mem.All(), w.setup).trace;
              && (Sep in closing <==> Got(t, w.setup, OpenSep))
              && (forall k, i: nat :: Ctx(k, i) in closing <==> Got(t, w.setup, OpenOp(k, i)))
              && OpenSet(log) == {}
  {
    var ep := new ScalableEndpoint(requested, w.setup, closeRc);
    r := ep.Run(client, txLimit, rxLimit, mem, remote, w);
    ghost var v := ep.Snapshot();
    if r.Waiting? {
      log, closing := ep.log, [];
      assert log + Closes([], closeRc) == log;
      return;
    }
    ep.TearDown();
    log, closing := ep.log, AllClosing(v);
    TeardownIsSafe(v, closeRc);
    AllClosingInOrder(v);
    SessionOpened(RefInit(requested, txLimit, rxLimit, mem.All(), w.setup).trace, w.setup);
  }
}
