/** The order of the calls in init_fabric, by a number for each call that does not
    depend on the lists of calls in Setup. */
module Numbers {
  import opened Chain
  import opened Setup

  /** The place of each call in the program text, when there are n contexts. */
  function OpNumber(n: nat, op: Op): nat {
    match op
    case GetInfo => 0
    case OpenFabric => 1
    case OpenEq => 2
    case OpenDomain => 3
    case OpenSep => 4
    case AllocRes => 5
    case OpenTx(i) => 6 + 4 * i
    case OpenTxCq(i) => 7 + 4 * i
    case OpenRx(i) => 8 + 4 * i
    case OpenRxCq(i) => 9 + 4 * i
    case BindAv => 6 + 4 * n
    case BindTx(i) => 7 + 4 * n + 2 * i
    case EnableTx(i) => 8 + 4 * n + 2 * i
    case BindRx(i) => 7 + 6 * n + 3 * i
    case EnableRx(i) => 8 + 6 * n + 3 * i
    case PostRecv(i) => 9 + 6 * n + 3 * i
    case EnableSep => 7 + 9 * n
  }

  /** s holds the calls from number b on, each with a context below n. */
  ghost predicate NumberedFrom(n: nat, s: seq<Op>, b: nat) {
    forall k :: 0 <= k < |s| ==> OpNumber(n, s[k]) == b + k && (HasCtx(s[k]) ==> s[k].ctx < n)
  }

  lemma NumberedAppend(n: nat, s: seq<Op>, t: seq<Op>, b: nat)
    requires NumberedFrom(n, s, b) && NumberedFrom(n, t, b + |s|)
    ensures NumberedFrom(n, s + t, b)
  {
    forall k | 0 <= k < |s + t|
      ensures OpNumber(n, (s + t)[k]) == b + k && (HasCtx((s + t)[k]) ==> (s + t)[k].ctx < n)
    {
      if k >= |s| {
        assert (s + t)[k] == t[k - |s|];
      }
    }
  }

  lemma {:induction false} LoopNumbers(n: nat, m: nat)
    requires m <= n
    ensures NumberedFrom(n, OpenOps(m), 6)
    ensures |TxOps(m)| == 2 * m && NumberedFrom(n, TxOps(m), 7 + 4 * n)
    ensures |RxOps(m)| == 3 * m && NumberedFrom(n, RxOps(m), 7 + 6 * n)
  {
    if m > 0 {
      LoopNumbers(n, m - 1);
      NumberedAppend(n, OpenOps(m - 1), OpenCtx(m - 1), 6);
      NumberedAppend(n, TxOps(m - 1), TxCtx(m - 1), 7 + 4 * n);
      NumberedAppend(n, RxOps(m - 1), RxCtx(m - 1), 7 + 6 * n);
    }
  }

  lemma BindNumbers(n: nat)
    ensures |BindOps(n)| == 2 + 5 * n && NumberedFrom(n, BindOps(n), 6 + 4 * n)
  {
    LoopNumbers(n, n);
    NumberedAppend(n, [BindAv], TxOps(n), 6 + 4 * n);
    NumberedAppend(n, [BindAv] + TxOps(n), RxOps(n), 6 + 4 * n);
    NumberedAppend(n, [BindAv] + TxOps(n) + RxOps(n), [EnableSep], 6 + 4 * n);
  }

  function Prologue(): seq<Op> {
    [GetInfo] + FabricOps()
  }

  lemma ProgramNumbers(n: nat)
    ensures |Prologue() + LoopOps(n)| == 8 + 9 * n
    ensures NumberedFrom(n, Prologue(), 0) && NumberedFrom(n, LoopOps(n), 6)
    ensures NumberedFrom(n, Prologue() + LoopOps(n), 0)
  {
    LoopNumbers(n, n);
    BindNumbers(n);
    assert Prologue() == [GetInfo, OpenFabric, OpenEq, OpenDomain, OpenSep, AllocRes];
    NumberedAppend(n, OpenOps(n), BindOps(n), 6);
    NumberedAppend(n, Prologue(), LoopOps(n), 0);
  }

  /** What init_fabric does, without the lists above: its kth call is number k, and
      all before the last gave 0; it ends with the code of the last call, if that
      is not 0, with 1 if there are no contexts, with -1 after ft_alloc_ep_res if
      memory is missing, and otherwise with 0 after all 9n + 8 calls. */
  ghost predicate IsSetup(n: nat, memory: bool, rc: Codes, r: Outcome<Op>) {
    && r.trace != [] && NumberedFrom(n, r.trace, 0)
    && (forall k :: 0 <= k < |r.trace| - 1 ==> rc(r.trace[k]) == 0)
    && var last := r.trace[|r.trace| - 1];
       if rc(last) != 0 then r.code == rc(last)
       else if n == 0 then last == GetInfo && r.code == 1
       else if !memory then last == AllocRes && r.code == -1
       else |r.trace| == 8 + 9 * n && r.code == 0
  }

  /** The calls of a run that has passed head, which all gave 0. */
  lemma PassedHead(head: seq<Op>, ops: seq<Op>, rc: Codes)
    requires AllZero(head, rc) && ops != []
    ensures var t := head + Cut(ops, rc);
            && t != [] && t <= head + ops
            && (forall k :: 0 <= k < |t| - 1 ==> rc(t[k]) == 0)
            && FirstCode(ops, rc) == rc(t[|t| - 1])
            && (FirstCode(ops, rc) == 0 ==> t == head + ops)
  {
    CutStops(ops, rc);
    LastCode(ops, rc);
    FirstCodeZero(ops, rc);
    if FirstCode(ops, rc) == 0 {
      CutOfZeros(ops, rc);
    }
    var u := Cut(ops, rc);
    var t := head + u;
    forall k | 0 <= k < |t| - 1 ensures rc(t[k]) == 0 {
      if k < |head| {
        assert t[k] in head;
      } else {
        assert t[k] == u[k - |head|];
      }
    }
  }

  lemma RefRunIsSetup(n: nat, memory: bool, rc: Codes)
    ensures IsSetup(n, memory, rc, RefRun(n, memory, rc))
  {
    ProgramNumbers(n);
    if rc(GetInfo) == 0 && n > 0 {
      PassedHead([GetInfo], FabricOps(), rc);
      FirstCodeZero(FabricOps(), rc);
      if FirstCode(FabricOps(), rc) == 0 && memory {
        assert AllZero(Prologue(), rc);
        PassedHead(Prologue(), LoopOps(n), rc);
      } else if FirstCode(FabricOps(), rc) == 0 {
        assert Prologue()[5] == AllocRes;
      }
    }
  }

  // ------------------------------------------------------------------- the port

  /** The calls of s come in the order of their numbers, which are from lo to hi. */
  ghost predicate Ascending(n: nat, s: seq<Op>, lo: nat, hi: nat) {
    && (forall j, k :: 0 <= j < k < |s| ==> OpNumber(n, s[j]) < OpNumber(n, s[k]))
    && (forall k :: 0 <= k < |s| ==> lo <= OpNumber(n, s[k]) < hi)
  }

  lemma AscendingAppend(n: nat, s: seq<Op>, t: seq<Op>, lo: nat, mid: nat, hi: nat)
    requires Ascending(n, s, lo, mid) && Ascending(n, t, mid, hi) && lo <= mid <= hi
    ensures Ascending(n, s + t, lo, hi)
  {
    var u := s + t;
    forall k | 0 <= k < |u| ensures lo <= OpNumber(n, u[k]) < hi && (k < |s| <==> OpNumber(n, u[k]) < mid) {
      if k >= |s| {
        assert u[k] == t[k - |s|];
      }
    }
    forall j, k | 0 <= j < k < |u| ensures OpNumber(n, u[j]) < OpNumber(n, u[k]) {
      if j >= |s| {
        assert u[j] == t[j - |s|] && u[k] == t[k - |s|];
      }
    }
  }

  lemma NumberedAscends(n: nat, s: seq<Op>, t: seq<Op>, b: nat)
    requires NumberedFrom(n, s, b) && t <= s
    ensures Ascending(n, t, b, b + |s|)
  {
  }

  lemma {:induction false} PortTxAscends(n: nat, m: nat, rc: Codes)
    requires m <= n
    ensures Ascending(n, PortTx(m, rc), 7 + 4 * n, 7 + 4 * n + 2 * m)
  {
    if m > 0 {
      PortTxAscends(n, m - 1, rc);
      var lo, mid := 7 + 4 * n, 7 + 4 * n + 2 * (m - 1);
      NumberedAscends(n, TxCtx(m - 1), Cut(TxCtx(m - 1), rc), mid);
      AscendingAppend(n, PortTx(m - 1, rc), Cut(TxCtx(m - 1), rc), lo, mid, mid + 2);
    }
  }

  lemma {:induction false} PortRxAscends(n: nat, m: nat, rc: Codes)
    requires m <= n
    ensures Ascending(n, PortRx(m, rc), 7 + 6 * n, 7 + 6 * n + 3 * m)
  {
    if m > 0 {
      PortRxAscends(n, m - 1, rc);
      var lo, mid := 7 + 6 * n, 7 + 6 * n + 3 * (m - 1);
      NumberedAscends(n, RxCtx(m - 1), Cut(RxCtx(m - 1), rc), mid);
      AscendingAppend(n, PortRx(m - 1, rc), Cut(RxCtx(m - 1), rc), lo, mid, mid + 3);
    }
  }

  lemma PortBindAscends(n: nat, rc: Codes)
    ensures Ascending(n, PortBind(n, rc), 6 + 4 * n, 8 + 9 * n)
  {
    var b, t, r, e := [BindAv], PortTx(n, rc), PortRx(n, rc), [EnableSep];
    PortTxAscends(n, n, rc);
    PortRxAscends(n, n, rc);
    NumberedAscends(n, b, b, 6 + 4 * n);
    NumberedAscends(n, e, e, 7 + 9 * n);
    AscendingAppend(n, b, t, 6 + 4 * n, 7 + 4 * n, 7 + 6 * n);
    AscendingAppend(n, b + t, r, 6 + 4 * n, 7 + 6 * n, 7 + 9 * n);
    AscendingAppend(n, b + t + r, e, 6 + 4 * n, 7 + 9 * n, 8 + 9 * n);
    if rc(BindAv) != 0 {
      assert Ascending(n, b, 6 + 4 * n, 8 + 9 * n);
    }
  }

  /** The calls that the port's init_fabric makes once it is in its loops; n is the
      count its loops run to. */
  predicate PortMakes(n: nat, rc: Codes, op: Op) {
    match op
    case GetInfo | OpenFabric | OpenEq | OpenDomain | OpenSep | AllocRes | BindAv => true
    case OpenTx(i) => i < n
    case OpenTxCq(i) => i < n
    case OpenRx(i) => i < n
    case OpenRxCq(i) => i < n
    case BindTx(i) => rc(BindAv) == 0 && i < n
    case EnableTx(i) => rc(BindAv) == 0 && i < n && rc(BindTx(i)) == 0
    case BindRx(i) => rc(BindAv) == 0 && i < n
    case EnableRx(i) => rc(BindAv) == 0 && i < n && rc(BindRx(i)) == 0
    case PostRecv(i) => rc(BindAv) == 0 && i < n && rc(BindRx(i)) == 0 && rc(EnableRx(i)) == 0
    case EnableSep => rc(BindAv) == 0
  }

  /** What the port's init_fabric does, without the lists above: once in its loops it
      makes just those calls, in the order of their numbers, and gives 0; before
      that it stops with 1 after ft_getinfo if there are no contexts, or with the
      first error of the four calls that follow. */
  ghost predicate IsPortSetup(requested: nat, n: nat, rc: Codes, r: Outcome<Op>) {
    if n == 0 then r == Outcome([GetInfo], 1)
    else if rc(OpenFabric) != 0 then r == Outcome([GetInfo, OpenFabric], rc(OpenFabric))
    else if rc(OpenEq) != 0 then r == Outcome([GetInfo, OpenFabric, OpenEq], rc(OpenEq))
    else if rc(OpenDomain) != 0 then r == Outcome([GetInfo, OpenFabric, OpenEq, OpenDomain], rc(OpenDomain))
    else if rc(OpenSep) != 0 then r == Outcome([GetInfo, OpenFabric, OpenEq, OpenDomain, OpenSep], rc(OpenSep))
    else
      && r.code == 0 && Ascending(requested, r.trace, 0, 8 + 9 * requested)
      && forall op :: op in r.trace <==> PortMakes(requested, rc, op)
  }

  lemma PortHeadRuns(n: nat, rc: Codes)
    requires n > 0
    ensures PortFailsEarly(n, rc) ==> IsPortSetup(0, n, rc, PortHead(n, rc))
    ensures PortFailsEarly(n, rc) <==>
            rc(OpenFabric) != 0 || rc(OpenEq) != 0 || rc(OpenDomain) != 0 || rc(OpenSep) != 0
  {
    var s := FourOps();
    var s1, s2, s3 := s[1..], s[2..], s[3..];
    assert s1 == [OpenEq, OpenDomain, OpenSep] && s2 == [OpenDomain, OpenSep] && s3 == [OpenSep];
    assert s1[1..] == s2 && s2[1..] == s3;
    CutOne(OpenSep, rc);
    assert Cut(s2, rc) == if rc(OpenDomain) != 0 then [OpenDomain] else [OpenDomain] + Cut(s3, rc);
    assert Cut(s1, rc) == if rc(OpenEq) != 0 then [OpenEq] else [OpenEq] + Cut(s2, rc);
    assert FirstCode(s2, rc) == if rc(OpenDomain) != 0 then rc(OpenDomain) else rc(OpenSep);
    assert FirstCode(s1, rc) == if rc(OpenEq) != 0 then rc(OpenEq) else FirstCode(s2, rc);
  }

  lemma PortLoopsMake(n: nat, rc: Codes, op: Op)
    ensures op in Prologue() + PortAlloc(n) + PortBind(n, rc) <==> PortMakes(n, rc, op)
  {
    InOpenOps(n, op);
    PortBindCalls(n, rc, op);
    assert Prologue() == [GetInfo, OpenFabric, OpenEq, OpenDomain, OpenSep, AllocRes];
  }

  lemma PortInitIsSetup(requested: nat, txLimit: nat, rxLimit: nat, rc: Codes)
    ensures IsPortSetup(requested, Negotiated(requested, txLimit, rxLimit), rc,
                        PortInit(requested, txLimit, rxLimit, rc))
  {
    var n := Negotiated(requested, txLimit, rxLimit);
    if n > 0 {
      PortHeadRuns(n, rc);
      if !PortFailsEarly(n, rc) {
        ProgramNumbers(requested);
        LoopNumbers(requested, requested);
        NumberedAscends(requested, Prologue(), Prologue(), 0);
        NumberedAscends(requested, PortAlloc(requested), PortAlloc(requested), 6);
        PortBindAscends(requested, rc);
        AscendingAppend(requested, Prologue(), PortAlloc(requested), 0, 6, 6 + 4 * requested);
        AscendingAppend(requested, Prologue() + PortAlloc(requested), PortBind(requested, rc),
                        0, 6 + 4 * requested, 8 + 9 * requested);
        forall op ensures op in Prologue() + PortAlloc(requested) + PortBind(requested, rc)
                          <==> PortMakes(requested, rc, op) {
          PortLoopsMake(requested, rc, op);
        }
      }
    }
  }
}
