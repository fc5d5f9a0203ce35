/** The calls made while an endpoint is set up: init_fabric, alloc_ep_res and
    bind_ep_res, in the reference C program and in the port. A call is named by
    its operation and its context index; rc gives the code each call returns. */
module Setup {
  import opened Chain

  datatype Op =
    | GetInfo | OpenFabric | OpenEq | OpenDomain | OpenSep | AllocRes
    | OpenTx(ctx: nat) | OpenTxCq(ctx: nat) | OpenRx(ctx: nat) | OpenRxCq(ctx: nat)
    | BindAv
    | BindTx(ctx: nat) | EnableTx(ctx: nat)
    | BindRx(ctx: nat) | EnableRx(ctx: nat) | PostRecv(ctx: nat)
    | EnableSep

  predicate HasCtx(op: Op) {
    || op.OpenTx? || op.OpenTxCq? || op.OpenRx? || op.OpenRxCq?
    || op.BindTx? || op.EnableTx? || op.BindRx? || op.EnableRx? || op.PostRecv?
  }

  type Codes = Op -> int

  // --------------------------------------------------- calls in program order

  function OpenCtx(i: nat): seq<Op> {
    [OpenTx(i), OpenTxCq(i), OpenRx(i), OpenRxCq(i)]
  }

  function OpenOps(n: nat): (s: seq<Op>)
    ensures |s| == 4 * n
  {
    if n == 0 then [] else OpenOps(n - 1) + OpenCtx(n - 1)
  }

  function TxCtx(i: nat): seq<Op> {
    [BindTx(i), EnableTx(i)]
  }

  function RxCtx(i: nat): seq<Op> {
    [BindRx(i), EnableRx(i), PostRecv(i)]
  }

  function TxOps(n: nat): seq<Op> {
    if n == 0 then [] else TxOps(n - 1) + TxCtx(n - 1)
  }

  function RxOps(n: nat): seq<Op> {
    if n == 0 then [] else RxOps(n - 1) + RxCtx(n - 1)
  }

  function BindOps(n: nat): seq<Op> {
    [BindAv] + TxOps(n) + RxOps(n) + [EnableSep]
  }

  function FourOps(): seq<Op> {
    [OpenFabric, OpenEq, OpenDomain, OpenSep]
  }

  function FabricOps(): seq<Op> {
    FourOps() + [AllocRes]
  }

  // ------------------------------------------------ membership and distinctness

  lemma {:induction false} InOpenOps(n: nat, op: Op)
    ensures op in OpenOps(n) <==> (op.OpenTx? || op.OpenTxCq? || op.OpenRx? || op.OpenRxCq?) && op.ctx < n
  {
    if n > 0 {
      InOpenOps(n - 1, op);
      assert op in OpenOps(n) <==> op in OpenOps(n - 1) || op in OpenCtx(n - 1);
    }
  }

  lemma {:induction false} InTxOps(n: nat, op: Op)
    ensures op in TxOps(n) <==> (op.BindTx? || op.EnableTx?) && op.ctx < n
  {
    if n > 0 {
      InTxOps(n - 1, op);
      assert op in TxOps(n) <==> op in TxOps(n - 1) || op in TxCtx(n - 1);
    }
  }

  lemma {:induction false} InRxOps(n: nat, op: Op)
    ensures op in RxOps(n) <==> (op.BindRx? || op.EnableRx? || op.PostRecv?) && op.ctx < n
  {
    if n > 0 {
      InRxOps(n - 1, op);
      assert op in RxOps(n) <==> op in RxOps(n - 1) || op in RxCtx(n - 1);
    }
  }

  lemma InBindOps(n: nat, op: Op)
    ensures op in BindOps(n) <==>
            || op == BindAv || op == EnableSep
            || ((op.BindTx? || op.EnableTx? || op.BindRx? || op.EnableRx? || op.PostRecv?) && op.ctx < n)
  {
    InTxOps(n, op);
    InRxOps(n, op);
  }

  // ---------------------------------------------------------- the port's loops

  /** mapM_ over the contexts: no code is looked at, so every open is made. */
  function PortAlloc(n: nat): seq<Op> {
    OpenOps(n)
  }

  /** mapM_ over chains: an error cuts only the chain of its own context. */
  function PortTx(n: nat, rc: Codes): seq<Op> {
    if n == 0 then [] else PortTx(n - 1, rc) + Cut(TxCtx(n - 1), rc)
  }

  function PortRx(n: nat, rc: Codes): seq<Op> {
    if n == 0 then [] else PortRx(n - 1, rc) + Cut(RxCtx(n - 1), rc)
  }

  function PortBind(n: nat, rc: Codes): seq<Op> {
    if rc(BindAv) != 0 then [BindAv]
    else [BindAv] + PortTx(n, rc) + PortRx(n, rc) + [EnableSep]
  }

  lemma InCutTx(i: nat, rc: Codes, op: Op)
    ensures op in Cut(TxCtx(i), rc) <==> op == BindTx(i) || (op == EnableTx(i) && rc(BindTx(i)) == 0)
  {
    var s := TxCtx(i);
    assert s[1..] == [EnableTx(i)] && s[1..][1..] == [];
    assert Cut(s[1..], rc) == [EnableTx(i)];
  }

  lemma InCutRx(i: nat, rc: Codes, op: Op)
    ensures op in Cut(RxCtx(i), rc) <==>
            || op == BindRx(i)
            || (op == EnableRx(i) && rc(BindRx(i)) == 0)
            || (op == PostRecv(i) && rc(BindRx(i)) == 0 && rc(EnableRx(i)) == 0)
  {
    var s := RxCtx(i);
    var s1 := s[1..];
    var s2 := s1[1..];
    assert s1 == [EnableRx(i), PostRecv(i)] && s2 == [PostRecv(i)] && s2[1..] == [];
    assert Cut(s2, rc) == [PostRecv(i)];
    assert Cut(s1, rc) == if rc(EnableRx(i)) != 0 then [EnableRx(i)] else [EnableRx(i)] + [PostRecv(i)];
  }

  lemma {:induction false} InPortTx(n: nat, rc: Codes, op: Op)
    ensures op in PortTx(n, rc) <==>
            (op.BindTx? || (op.EnableTx? && rc(BindTx(op.ctx)) == 0)) && op.ctx < n
  {
    if n > 0 {
      InPortTx(n - 1, rc, op);
      InCutTx(n - 1, rc, op);
      assert op in PortTx(n, rc) <==> op in PortTx(n - 1, rc) || op in Cut(TxCtx(n - 1), rc);
    }
  }

  lemma {:induction false} InPortRx(n: nat, rc: Codes, op: Op)
    ensures op in PortRx(n, rc) <==>
            && (|| op.BindRx?
                || (op.EnableRx? && rc(BindRx(op.ctx)) == 0)
                || (op.PostRecv? && rc(BindRx(op.ctx)) == 0 && rc(EnableRx(op.ctx)) == 0))
            && op.ctx < n
  {
    if n > 0 {
      InPortRx(n - 1, rc, op);
      InCutRx(n - 1, rc, op);
      assert op in PortRx(n, rc) <==> op in PortRx(n - 1, rc) || op in Cut(RxCtx(n - 1), rc);
    }
  }

  /** Exactly which calls the port's bind_ep_res makes. */
  lemma PortBindCalls(n: nat, rc: Codes, op: Op)
    ensures op in PortBind(n, rc) <==>
            || op == BindAv
            || (rc(BindAv) == 0 &&
                 (|| op == EnableSep
                  || (HasCtx(op) && op.ctx < n &&
                       (|| op.BindTx? || op.BindRx?
                        || (op.EnableTx? && rc(BindTx(op.ctx)) == 0)
                        || (op.EnableRx? && rc(BindRx(op.ctx)) == 0)
                        || (op.PostRecv? && rc(BindRx(op.ctx)) == 0 && rc(EnableRx(op.ctx)) == 0)))))
  {
    InPortTx(n, rc, op);
    InPortRx(n, rc, op);
  }

  // -------------------------------------------------------- port and reference

  lemma CutWhole(ops: seq<Op>, rc: Codes)
    ensures Cut(ops, rc) == ops <==> forall k :: 0 <= k < |ops| - 1 ==> rc(ops[k]) == 0
  {
    CutIsStop(ops, ops, rc);
  }

  lemma LastOpenOnce(n: nat)
    requires n > 0
    ensures forall k :: 0 <= k < 4 * n - 1 ==> OpenOps(n)[k] != OpenRxCq(n - 1)
  {
    var s := OpenOps(n);
    forall k | 0 <= k < 4 * n - 1 ensures s[k] != OpenRxCq(n - 1) {
      if k < 4 * (n - 1) {
        InOpenOps(n - 1, s[k]);
        assert s[k] == OpenOps(n - 1)[k];
      } else {
        assert s[k] == OpenCtx(n - 1)[k - 4 * (n - 1)];
      }
    }
  }

  /** alloc_ep_res: the port makes the calls of the reference exactly when
      nothing before the very last open fails. */
  lemma AllocAgrees(n: nat, rc: Codes)
    ensures Cut(OpenOps(n), rc) == PortAlloc(n) <==>
            forall op :: op in OpenOps(n) && op != OpenRxCq(n - 1) ==> rc(op) == 0
  {
    var s := OpenOps(n);
    CutWhole(s, rc);
    if n > 0 {
      var last := OpenRxCq(n - 1);
      assert s[|s| - 1] == last;
      LastOpenOnce(n);
      if forall k :: 0 <= k < |s| - 1 ==> rc(s[k]) == 0 {
        forall op | op in s && op != last ensures rc(op) == 0 {
          var k :| 0 <= k < |s| && s[k] == op;
        }
      }
    }
  }

  lemma {:induction false} PortTxWhole(n: nat, rc: Codes)
    requires AllZero(TxOps(n), rc)
    ensures PortTx(n, rc) == TxOps(n)
  {
    if n > 0 {
      assert forall op :: op in TxOps(n - 1) ==> op in TxOps(n);
      assert forall op :: op in TxCtx(n - 1) ==> op in TxOps(n);
      PortTxWhole(n - 1, rc);
      CutOfZeros(TxCtx(n - 1), rc);
    }
  }

  lemma {:induction false} PortRxWhole(n: nat, rc: Codes)
    requires AllZero(RxOps(n), rc)
    ensures PortRx(n, rc) == RxOps(n)
  {
    if n > 0 {
      assert forall op :: op in RxOps(n - 1) ==> op in RxOps(n);
      assert forall op :: op in RxCtx(n - 1) ==> op in RxOps(n);
      PortRxWhole(n - 1, rc);
      CutOfZeros(RxCtx(n - 1), rc);
    }
  }

  lemma AllZeroParts(a: seq<Op>, b: seq<Op>, rc: Codes)
    ensures AllZero(a + b, rc) <==> AllZero(a, rc) && AllZero(b, rc)
  {
    if AllZero(a + b, rc) {
      assert forall op :: op in a ==> op in a + b;
      assert forall op :: op in b ==> op in a + b;
    }
  }

  lemma ReachesEnd(mid: seq<Op>, rc: Codes)
    requires EnableSep !in mid && EnableSep in Cut([BindAv] + mid + [EnableSep], rc)
    ensures AllZero(mid, rc)
  {
    var a := [BindAv] + mid;
    CutAppend(a, [EnableSep], rc);
    assert EnableSep !in a;
    FirstCodeZero(a, rc);
    AllZeroParts([BindAv], mid, rc);
  }

  lemma BindShape(n: nat)
    ensures BindOps(n) == [BindAv] + (TxOps(n) + RxOps(n)) + [EnableSep]
    ensures EnableSep !in TxOps(n) + RxOps(n)
  {
    InTxOps(n, EnableSep);
    InRxOps(n, EnableSep);
  }

  /** The reference gets to EnableSep only if all before it succeeds. */
  lemma ReachesEnableSep(n: nat, rc: Codes)
    requires EnableSep in Cut(BindOps(n), rc)
    ensures AllZero(TxOps(n), rc) && AllZero(RxOps(n), rc)
  {
    BindShape(n);
    ReachesEnd(TxOps(n) + RxOps(n), rc);
    AllZeroParts(TxOps(n), RxOps(n), rc);
  }

  /** bind_ep_res: the same, except that both stop when binding the address
      vector fails. */
  lemma BindAgrees(n: nat, rc: Codes)
    ensures Cut(BindOps(n), rc) == PortBind(n, rc) <==>
            rc(BindAv) != 0 || (AllZero(TxOps(n), rc) && AllZero(RxOps(n), rc))
  {
    var s := BindOps(n);
    assert s[0] == BindAv;
    if rc(BindAv) == 0 {
      var mid := TxOps(n) + RxOps(n);
      assert s == [BindAv] + mid + [EnableSep];
      if AllZero(TxOps(n), rc) && AllZero(RxOps(n), rc) {
        PortTxWhole(n, rc);
        PortRxWhole(n, rc);
        forall k | 0 <= k < |s| - 1 ensures rc(s[k]) == 0 {
          if k > 0 {
            assert s[k] == mid[k - 1];
            assert mid[k - 1] in TxOps(n) || mid[k - 1] in RxOps(n);
          }
        }
        CutWhole(s, rc);
      } else if Cut(s, rc) == PortBind(n, rc) {
        PortBindCalls(n, rc, EnableSep);
        ReachesEnableSep(n, rc);
      }
    }
  }

  // ------------------------------------------------------ negotiating the count

  function Min(a: nat, b: nat): nat {
    if a < b then a else b
  }

  function Negotiated(requested: nat, txLimit: nat, rxLimit: nat): nat {
    Min(Min(requested, txLimit), rxLimit)
  }

  predicate WithinAll(m: nat, requested: nat, txLimit: nat, rxLimit: nat) {
    m <= requested && m <= txLimit && m <= rxLimit
  }

  /** n is the greatest count within all three. */
  ghost predicate Greatest(n: nat, requested: nat, txLimit: nat, rxLimit: nat) {
    && WithinAll(n, requested, txLimit, rxLimit)
    && (forall m: nat :: WithinAll(m, requested, txLimit, rxLimit) ==> m <= n)
  }

  lemma NegotiatedIsGreatest(requested: nat, txLimit: nat, rxLimit: nat, n: nat)
    ensures Greatest(n, requested, txLimit, rxLimit) <==> n == Negotiated(requested, txLimit, rxLimit)
  {
    assert WithinAll(Negotiated(requested, txLimit, rxLimit), requested, txLimit, rxLimit);
  }

  function LoopOps(n: nat): seq<Op> {
    OpenOps(n) + BindOps(n)
  }

  /** What init_fabric writes to fi->ep_attr. */
  datatype EpAttr = EpAttr(txCtxCnt: nat, rxCtxCnt: nat)

  /** The calls of init_fabric, its code and ep_attr when it returns. */
  datatype Fabric = Fabric(run: Outcome<Op>, attr: EpAttr)

  predicate FailsEarly(n: nat, rc: Codes) {
    rc(GetInfo) != 0 || n == 0 || FirstCode(FabricOps(), rc) != 0
  }

  /** init_fabric of the reference up to the loops. */
  function InitHead(n: nat, rc: Codes): Outcome<Op> {
    if rc(GetInfo) != 0 then Outcome([GetInfo], rc(GetInfo))
    else if n == 0 then Outcome([GetInfo], 1)
    else Outcome([GetInfo] + Cut(FabricOps(), rc), FirstCode(FabricOps(), rc))
  }

  /** init_fabric of the reference once the count is n. The flag memory says
      whether every calloc succeeded. */
  function RefRun(n: nat, memory: bool, rc: Codes): Outcome<Op> {
    var head := InitHead(n, rc);
    if FailsEarly(n, rc) then head
    else if !memory then Outcome(head.trace, -1)
    else Outcome(head.trace + Cut(LoopOps(n), rc), FirstCode(LoopOps(n), rc))
  }

  /** init_fabric of the reference: its loops run to the negotiated count. */
  function RefInit(requested: nat, txLimit: nat, rxLimit: nat, memory: bool, rc: Codes): Outcome<Op> {
    RefRun(Negotiated(requested, txLimit, rxLimit), memory, rc)
  }

  /** What ep_attr holds after init_fabric of the reference, when it held attr. */
  function RefAttr(attr: EpAttr, requested: nat, txLimit: nat, rxLimit: nat, rc: Codes): EpAttr {
    var n := Negotiated(requested, txLimit, rxLimit);
    if rc(GetInfo) == 0 && n > 0 then EpAttr(n, n) else attr
  }

  function RefFabric(attr: EpAttr, requested: nat, txLimit: nat, rxLimit: nat, memory: bool, rc: Codes): Fabric {
    Fabric(RefInit(requested, txLimit, rxLimit, memory, rc), RefAttr(attr, requested, txLimit, rxLimit, rc))
  }

  predicate PortFailsEarly(n: nat, rc: Codes) {
    n == 0 || FirstCode(FourOps(), rc) != 0
  }

  /** init_fabric of the port up to the loops. ft_getinfo and ft_alloc_ep_res make
      their calls and then give 0, whatever those returned. */
  function PortHead(n: nat, rc: Codes): Outcome<Op> {
    if n == 0 then Outcome([GetInfo], 1)
    else if FirstCode(FourOps(), rc) != 0 then Outcome([GetInfo] + Cut(FourOps(), rc), FirstCode(FourOps(), rc))
    else Outcome([GetInfo] + FabricOps(), 0)
  }

  /** init_fabric of the port: the negotiated count reaches ep_attr, but the
      loops keep the requested one, allocate nothing and give 0. */
  function PortInit(requested: nat, txLimit: nat, rxLimit: nat, rc: Codes): Outcome<Op> {
    var n := Negotiated(requested, txLimit, rxLimit);
    var head := PortHead(n, rc);
    if PortFailsEarly(n, rc) then head
    else Outcome(head.trace + PortAlloc(requested) + PortBind(requested, rc), 0)
  }

  /** The limits are those the port finds behind fi, also when fi_getinfo failed. */
  function PortFabric(attr: EpAttr, requested: nat, txLimit: nat, rxLimit: nat, rc: Codes): Fabric {
    var n := Negotiated(requested, txLimit, rxLimit);
    Fabric(PortInit(requested, txLimit, rxLimit, rc), if n > 0 then EpAttr(n, n) else attr)
  }

  /** Both programs ask for the greatest count within request and limits, for
      transmit and receive contexts alike, or leave ep_attr as it is: the reference
      after a failing ft_getinfo, and both when that count is 0. */
  lemma AttrIsGreatest(attr: EpAttr, requested: nat, txLimit: nat, rxLimit: nat, rc: Codes, n: nat)
    requires Greatest(n, requested, txLimit, rxLimit)
    ensures RefAttr(attr, requested, txLimit, rxLimit, rc) == if rc(GetInfo) == 0 && n > 0 then EpAttr(n, n) else attr
    ensures PortFabric(attr, requested, txLimit, rxLimit, rc).attr == if n > 0 then EpAttr(n, n) else attr
  {
    NegotiatedIsGreatest(requested, txLimit, rxLimit, n);
  }

  // ------------------------------------------- contexts used and contexts asked for

  ghost predicate IndicesBelow(t: seq<Op>, n: nat) {
    forall op :: op in t && HasCtx(op) ==> op.ctx < n
  }

  /** No call names a context that the endpoint was not asked to have. */
  ghost predicate WithinAttr(f: Fabric) {
    IndicesBelow(f.run.trace, f.attr.txCtxCnt) && IndicesBelow(f.run.trace, f.attr.rxCtxCnt)
  }

  /** The transmit and receive contexts opened are just those asked for. */
  ghost predicate OpensAttr(f: Fabric) {
    && (forall i: nat :: OpenTx(i) in f.run.trace <==> i < f.attr.txCtxCnt)
    && (forall i: nat :: OpenRx(i) in f.run.trace <==> i < f.attr.rxCtxCnt)
  }

  lemma FabricHasNoCtx(op: Op)
    requires op in FabricOps() || op in FourOps()
    ensures !HasCtx(op)
  {
    assert FabricOps() == [OpenFabric, OpenEq, OpenDomain, OpenSep, AllocRes];
  }

  lemma HeadHasNoCtx(n: nat, rc: Codes, op: Op)
    requires op in InitHead(n, rc).trace || op in PortHead(n, rc).trace
    ensures !HasCtx(op)
  {
    var fabric, four := Cut(FabricOps(), rc), Cut(FourOps(), rc);
    if op in fabric {
      var k :| 0 <= k < |fabric| && fabric[k] == op;
      assert FabricOps()[k] == op;
    } else if op in four {
      var k :| 0 <= k < |four| && four[k] == op;
      assert FourOps()[k] == op;
    }
    if op != GetInfo {
      FabricHasNoCtx(op);
    }
  }

  lemma RefIndices(requested: nat, txLimit: nat, rxLimit: nat, memory: bool, rc: Codes)
    ensures IndicesBelow(RefInit(requested, txLimit, rxLimit, memory, rc).trace,
                         Negotiated(requested, txLimit, rxLimit))
  {
    var n := Negotiated(requested, txLimit, rxLimit);
    var t := RefInit(requested, txLimit, rxLimit, memory, rc).trace;
    forall op | op in t && HasCtx(op) ensures op.ctx < n {
      if op in InitHead(n, rc).trace {
        HeadHasNoCtx(n, rc, op);
      } else {
        assert op in Cut(LoopOps(n), rc);
        assert op in LoopOps(n);
        InOpenOps(n, op);
        InBindOps(n, op);
      }
    }
  }

  lemma RefOpens(n: nat, memory: bool, rc: Codes, i: nat)
    requires n > 0 && RefRun(n, memory, rc).code == 0
    ensures var t := RefRun(n, memory, rc).trace;
            (OpenTx(i) in t <==> i < n) && (OpenRx(i) in t <==> i < n) && (PostRecv(i) in t <==> i < n)
  {
    FirstCodeZero(LoopOps(n), rc);
    CutOfZeros(LoopOps(n), rc);
    forall op | HasCtx(op) && op in InitHead(n, rc).trace ensures false {
      HeadHasNoCtx(n, rc, op);
    }
    assert HasCtx(OpenTx(i)) && HasCtx(OpenRx(i)) && HasCtx(PostRecv(i));
    forall op ensures op in LoopOps(n) <==> op in OpenOps(n) || op in BindOps(n) {
    }
    InOpenOps(n, OpenTx(i));
    InOpenOps(n, OpenRx(i));
    InOpenOps(n, PostRecv(i));
    InBindOps(n, OpenTx(i));
    InBindOps(n, OpenRx(i));
    InBindOps(n, PostRecv(i));
  }

  lemma RefOpensAttr(attr: EpAttr, requested: nat, txLimit: nat, rxLimit: nat, memory: bool, rc: Codes)
    requires RefInit(requested, txLimit, rxLimit, memory, rc).code == 0
    ensures OpensAttr(RefFabric(attr, requested, txLimit, rxLimit, memory, rc))
  {
    var n := Negotiated(requested, txLimit, rxLimit);
    assert rc(GetInfo) == 0 && n > 0;
    forall i: nat
      ensures var t := RefRun(n, memory, rc).trace;
              (OpenTx(i) in t <==> i < n) && (OpenRx(i) in t <==> i < n)
    {
      RefOpens(n, memory, rc, i);
    }
  }

  /** The reference stays within the counts it wrote to ep_attr, which neither
      the request nor the provider's limits exceed; if init_fabric succeeds, the
      contexts opened are just those. */
  lemma RefStaysBelow(attr: EpAttr, requested: nat, txLimit: nat, rxLimit: nat, memory: bool, rc: Codes)
    ensures var f := RefFabric(attr, requested, txLimit, rxLimit, memory, rc);
            && WithinAttr(f)
            && (f.attr == attr || (f.attr.txCtxCnt == f.attr.rxCtxCnt <= requested
                                   && f.attr.txCtxCnt <= txLimit && f.attr.rxCtxCnt <= rxLimit))
            && (f.run.code == 0 ==> OpensAttr(f))
  {
    RefIndices(requested, txLimit, rxLimit, memory, rc);
    if rc(GetInfo) != 0 || Negotiated(requested, txLimit, rxLimit) == 0 {
      assert RefInit(requested, txLimit, rxLimit, memory, rc).trace == [GetInfo];
    }
    if RefInit(requested, txLimit, rxLimit, memory, rc).code == 0 {
      RefOpensAttr(attr, requested, txLimit, rxLimit, memory, rc);
    }
  }

  lemma PortIndices(requested: nat, txLimit: nat, rxLimit: nat, rc: Codes)
    ensures var n := Negotiated(requested, txLimit, rxLimit);
            IndicesBelow(PortInit(requested, txLimit, rxLimit, rc).trace, n) <==>
            requested == n || PortFailsEarly(n, rc)
  {
    var n := Negotiated(requested, txLimit, rxLimit);
    var t := PortInit(requested, txLimit, rxLimit, rc).trace;
    if requested == n || PortFailsEarly(n, rc) {
      forall op | op in t && HasCtx(op) ensures op.ctx < n {
        if op in PortHead(n, rc).trace {
          HeadHasNoCtx(n, rc, op);
        } else {
          InOpenOps(n, op);
          PortBindCalls(n, rc, op);
        }
      }
    } else {
      InOpenOps(requested, OpenTx(n));
      assert OpenTx(n) in PortAlloc(requested);
      assert OpenTx(n) in t && HasCtx(OpenTx(n));
    }
  }

  lemma PortOpens(requested: nat, txLimit: nat, rxLimit: nat, rc: Codes, i: nat)
    requires !PortFailsEarly(Negotiated(requested, txLimit, rxLimit), rc)
    ensures var t := PortInit(requested, txLimit, rxLimit, rc).trace;
            (OpenTx(i) in t <==> i < requested) && (OpenRx(i) in t <==> i < requested)
  {
    var n := Negotiated(requested, txLimit, rxLimit);
    forall op | HasCtx(op) && op in PortHead(n, rc).trace ensures false {
      HeadHasNoCtx(n, rc, op);
    }
    assert HasCtx(OpenTx(i)) && HasCtx(OpenRx(i));
    InOpenOps(requested, OpenTx(i));
    InOpenOps(requested, OpenRx(i));
    PortBindCalls(requested, rc, OpenTx(i));
    PortBindCalls(requested, rc, OpenRx(i));
  }

  lemma PortOpensAttrIff(attr: EpAttr, requested: nat, txLimit: nat, rxLimit: nat, rc: Codes)
    requires !PortFailsEarly(Negotiated(requested, txLimit, rxLimit), rc)
    ensures OpensAttr(PortFabric(attr, requested, txLimit, rxLimit, rc)) <==>
            requested == Negotiated(requested, txLimit, rxLimit)
  {
    var n := Negotiated(requested, txLimit, rxLimit);
    var t := PortInit(requested, txLimit, rxLimit, rc).trace;
    forall i: nat ensures (OpenTx(i) in t <==> i < requested) && (OpenRx(i) in t <==> i < requested) {
      PortOpens(requested, txLimit, rxLimit, rc, i);
    }
    assert requested != n ==> OpenTx(n) in t;
  }

  /** The port stays within ep_attr exactly when the provider supports what was
      asked for, or when it fails before the loops; once it is in the loops, it
      opens what it wrote to ep_attr exactly in the first case. */
  lemma PortStaysBelowIff(attr: EpAttr, requested: nat, txLimit: nat, rxLimit: nat, rc: Codes)
    ensures var n := Negotiated(requested, txLimit, rxLimit);
            var f := PortFabric(attr, requested, txLimit, rxLimit, rc);
            && (WithinAttr(f) <==> requested == n || PortFailsEarly(n, rc))
            && (!PortFailsEarly(n, rc) ==> (OpensAttr(f) <==> requested == n))
  {
    var n := Negotiated(requested, txLimit, rxLimit);
    PortIndices(requested, txLimit, rxLimit, rc);
    if n == 0 {
      assert PortInit(requested, txLimit, rxLimit, rc).trace == [GetInfo];
    }
    if !PortFailsEarly(n, rc) {
      PortOpensAttrIff(attr, requested, txLimit, rxLimit, rc);
    }
  }

  // ------------------------------------------------ init_fabric in both programs

  lemma WholeLoops(n: nat, rc: Codes)
    requires AllZero(LoopOps(n), rc)
    ensures PortBind(n, rc) == BindOps(n)
    ensures Cut(LoopOps(n), rc) == PortAlloc(n) + PortBind(n, rc) && FirstCode(LoopOps(n), rc) == 0
  {
    var open, bind := OpenOps(n), BindOps(n);
    assert forall op :: op in bind ==> op in LoopOps(n);
    CutOfZeros(LoopOps(n), rc);
    CutOfZeros(bind, rc);
    InBindOps(n, BindAv);
    assert AllZero(TxOps(n), rc) && AllZero(RxOps(n), rc) by {
      assert forall op :: op in TxOps(n) || op in RxOps(n) ==> op in bind;
    }
    BindAgrees(n, rc);
  }

  /** The four calls of FabricOps before AllocRes. */
  lemma FabricParts(rc: Codes)
    ensures FirstCode(FourOps(), rc) != 0 ==>
              Cut(FabricOps(), rc) == Cut(FourOps(), rc) && FirstCode(FabricOps(), rc) == FirstCode(FourOps(), rc)
    ensures FirstCode(FourOps(), rc) == 0 ==>
              Cut(FabricOps(), rc) == FabricOps() && FirstCode(FabricOps(), rc) == rc(AllocRes)
    ensures FirstCode(FourOps(), rc) == 0 ==> Cut(FourOps(), rc) == FourOps() && rc(OpenSep) == 0
  {
    CutAppend(FourOps(), [AllocRes], rc);
    CutOne(AllocRes, rc);
    FirstCodeZero(FourOps(), rc);
    if FirstCode(FourOps(), rc) == 0 {
      CutOfZeros(FourOps(), rc);
      assert OpenSep in FourOps();
    }
  }

  /** Every call and allocation of init_fabric succeeds, for the requested count. */
  ghost predicate AllSucceeds(requested: nat, n: nat, memory: bool, rc: Codes) {
    && requested == n && memory
    && rc(AllocRes) == 0 && AllZero(LoopOps(requested), rc)
  }

  lemma InitAgreesIf(requested: nat, txLimit: nat, rxLimit: nat, rc: Codes)
    requires var n := Negotiated(requested, txLimit, rxLimit);
             n > 0 && rc(GetInfo) == 0 && FirstCode(FourOps(), rc) == 0 && AllSucceeds(requested, n, true, rc)
    ensures PortInit(requested, txLimit, rxLimit, rc) == RefInit(requested, txLimit, rxLimit, true, rc)
  {
    FabricParts(rc);
    WholeLoops(requested, rc);
    Associate(InitHead(requested, rc).trace, PortAlloc(requested), PortBind(requested, rc));
  }

  /** When the port is in its loops, it has left the reference behind unless
      everything succeeds. */
  lemma InitAgreesOnlyIf(requested: nat, txLimit: nat, rxLimit: nat, memory: bool, rc: Codes)
    requires var n := Negotiated(requested, txLimit, rxLimit);
             n > 0 && rc(GetInfo) == 0 && FirstCode(FourOps(), rc) == 0
    requires PortInit(requested, txLimit, rxLimit, rc) == RefInit(requested, txLimit, rxLimit, memory, rc)
    ensures AllSucceeds(requested, Negotiated(requested, txLimit, rxLimit), memory, rc)
  {
    var n := Negotiated(requested, txLimit, rxLimit);
    FabricParts(rc);
    RefIndices(requested, txLimit, rxLimit, memory, rc);
    PortIndices(requested, txLimit, rxLimit, rc);
    FirstCodeZero(LoopOps(n), rc);
  }

  /** A failing ft_getinfo ends the reference; the port goes on to fi_fabric, if
      the limits it finds let it. */
  lemma GetInfoIgnored(requested: nat, txLimit: nat, rxLimit: nat, memory: bool, rc: Codes)
    requires rc(GetInfo) != 0 && Negotiated(requested, txLimit, rxLimit) > 0
    ensures RefInit(requested, txLimit, rxLimit, memory, rc) == Outcome([GetInfo], rc(GetInfo))
    ensures [GetInfo, OpenFabric] <= PortInit(requested, txLimit, rxLimit, rc).trace
  {
    var t := Cut(FourOps(), rc);
    assert t[0] == OpenFabric;
    var u := PortInit(requested, txLimit, rxLimit, rc).trace;
    assert [GetInfo] + t <= u || [GetInfo] + FabricOps() <= u;
    assert u[0] == GetInfo && u[1] == OpenFabric;
  }

  /** A failing ft_alloc_ep_res ends the reference too; the port makes all its
      opens after it and gives 0. */
  lemma AllocResIgnored(requested: nat, txLimit: nat, rxLimit: nat, memory: bool, rc: Codes)
    requires Negotiated(requested, txLimit, rxLimit) > 0
    requires rc(GetInfo) == 0 && FirstCode(FourOps(), rc) == 0 && rc(AllocRes) != 0
    ensures RefInit(requested, txLimit, rxLimit, memory, rc) == Outcome([GetInfo] + FabricOps(), rc(AllocRes))
    ensures PortInit(requested, txLimit, rxLimit, rc).code == 0
    ensures [GetInfo] + FabricOps() + OpenOps(requested) + [BindAv] <= PortInit(requested, txLimit, rxLimit, rc).trace
  {
    FabricParts(rc);
    assert PortBind(requested, rc)[0] == BindAv;
    var b := PortBind(requested, rc);
    assert b == [BindAv] + b[1..];
  }

  /** Only fi_getinfo fails, with -FI_ENODATA. */
  function NoProvider(): Codes {
    op => if op == GetInfo then -61 else 0
  }

  lemma NoProviderLoops()
    ensures AllZero(LoopOps(1), NoProvider()) && FirstCode(FourOps(), NoProvider()) == 0
  {
    InOpenOps(1, GetInfo);
    InBindOps(1, GetInfo);
    FirstCodeZero(FourOps(), NoProvider());
  }

  /** Asked for one context, the reference gives up and the port sets it up. */
  lemma NoProviderIsIgnored()
    ensures RefInit(1, 1, 1, true, NoProvider()) == Outcome([GetInfo], -61)
    ensures PortInit(1, 1, 1, NoProvider()) == Outcome([GetInfo] + FabricOps() + OpenOps(1) + BindOps(1), 0)
  {
    NoProviderLoops();
    WholeLoops(1, NoProvider());
  }

  /** Port and reference make the same calls with the same result exactly when
      the count is 0 and ft_getinfo gave 0, or 1 like the test of the count; or
      ft_getinfo succeeded and then one of the next four calls fails, or memory is
      there, the provider supports the requested count and nothing fails. */
  lemma InitAgreesIff(requested: nat, txLimit: nat, rxLimit: nat, memory: bool, rc: Codes)
    ensures var n := Negotiated(requested, txLimit, rxLimit);
            PortInit(requested, txLimit, rxLimit, rc) == RefInit(requested, txLimit, rxLimit, memory, rc) <==>
            if n == 0 then rc(GetInfo) == 0 || rc(GetInfo) == 1
            else rc(GetInfo) == 0 && (FirstCode(FourOps(), rc) != 0 || AllSucceeds(requested, n, memory, rc))
  {
    var n := Negotiated(requested, txLimit, rxLimit);
    if n > 0 && rc(GetInfo) != 0 {
      GetInfoIgnored(requested, txLimit, rxLimit, memory, rc);
    } else if n > 0 && FirstCode(FourOps(), rc) != 0 {
      FabricParts(rc);
    } else if n > 0 && AllSucceeds(requested, n, memory, rc) {
      InitAgreesIf(requested, txLimit, rxLimit, rc);
    } else if n > 0 && PortInit(requested, txLimit, rxLimit, rc) == RefInit(requested, txLimit, rxLimit, memory, rc) {
      InitAgreesOnlyIf(requested, txLimit, rxLimit, memory, rc);
    }
  }
}
