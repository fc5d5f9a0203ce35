/** Closing what a setup left open, on values: the contents of the handle arrays
    and the record of provider calls. */
module Teardown {
  import opened Chain
  import opened Setup
  import opened Resources

  datatype Handle = Null | To(fid: Fid)

  /** A snapshot of the program: an array that was not allocated is empty. */
  datatype View = View(
    txEp: seq<Handle>, rxEp: seq<Handle>, txCq: seq<Handle>, rxCq: seq<Handle>,
    sep: Handle, log: seq<Event>) {

    function Of(kind: Kind): seq<Handle> {
      match kind
      case TxEp => txEp
      case RxEp => rxEp
      case TxCq => txCq
      case RxCq => rxCq
    }
  }

  /** Every cell is empty or holds the handle of its own place. */
  ghost predicate CellsOk(kind: Kind, s: seq<Handle>) {
    forall i: nat :: i < |s| ==> s[i] == Null || s[i] == To(Ctx(kind, i))
  }

  /** The cells hold exactly the handles that the record says are open, and
      every close so far was allowed. */
  ghost predicate Consistent(v: View) {
    && (forall k :: CellsOk(k, v.Of(k)))
    && (forall k, i: nat :: Ctx(k, i) in OpenSet(v.log) <==> i < |v.Of(k)| && v.Of(k)[i].To?)
    && (v.sep == Null || v.sep == To(Sep))
    && (Sep in OpenSet(v.log) <==> v.sep.To?)
    && SafeLog(v.log)
  }

  /** The handles stored in an array, in order. */
  function NonNull(s: seq<Handle>): seq<Fid> {
    if s == [] then []
    else NonNull(s[..|s| - 1]) + (if s[|s| - 1].To? then [s[|s| - 1].fid] else [])
  }

  lemma {:induction false} NonNullMembers(kind: Kind, s: seq<Handle>)
    requires CellsOk(kind, s)
    ensures forall f :: f in NonNull(s) <==> f.Ctx? && f.kind == kind && f.i < |s| && s[f.i].To?
    ensures Distinct(NonNull(s))
  {
    if s != [] {
      var u := s[..|s| - 1];
      NonNullMembers(kind, u);
      assert forall i: nat :: i < |u| ==> s[i] == u[i];
    }
  }

  lemma DistinctAppend(s: seq<Fid>, t: seq<Fid>)
    requires Distinct(s) && Distinct(t) && forall f :: f in s ==> f !in t
    ensures Distinct(s + t)
  {
    var u := s + t;
    forall i, j | 0 <= i < j < |u| ensures u[i] != u[j] {
      if i < |s| <= j {
        assert u[i] in s && u[j] in t;
      }
    }
  }

  /** The order of free_res. */
  function Endpoints(v: View): seq<Fid> {
    NonNull(v.rxEp) + NonNull(v.txEp)
  }

  function Queues(v: View): seq<Fid> {
    NonNull(v.rxCq) + NonNull(v.txCq)
  }

  function Closing(v: View): seq<Fid> {
    Endpoints(v) + Queues(v)
  }

  lemma EndpointsOf(v: View)
    requires Consistent(v)
    ensures forall f :: f in Endpoints(v) <==> f in OpenSet(v.log) && IsEndpoint(f)
    ensures Distinct(Endpoints(v))
  {
    assert CellsOk(RxEp, v.Of(RxEp)) && CellsOk(TxEp, v.Of(TxEp));
    NonNullMembers(RxEp, v.rxEp);
    NonNullMembers(TxEp, v.txEp);
    DistinctAppend(NonNull(v.rxEp), NonNull(v.txEp));
    forall f ensures f in Endpoints(v) <==> f in OpenSet(v.log) && IsEndpoint(f) {
      if f.Ctx? {
        assert f == Ctx(f.kind, f.i);
      }
    }
  }

  lemma QueuesOf(v: View)
    requires Consistent(v)
    ensures forall f :: f in Queues(v) <==> f in OpenSet(v.log) && f.Ctx? && IsQueue(f.kind)
    ensures Distinct(Queues(v))
  {
    assert CellsOk(RxCq, v.Of(RxCq)) && CellsOk(TxCq, v.Of(TxCq));
    NonNullMembers(RxCq, v.rxCq);
    NonNullMembers(TxCq, v.txCq);
    DistinctAppend(NonNull(v.rxCq), NonNull(v.txCq));
    forall f ensures f in Queues(v) <==> f in OpenSet(v.log) && f.Ctx? && IsQueue(f.kind) {
      if f.Ctx? {
        assert f == Ctx(f.kind, f.i);
      }
    }
  }

  predicate IsQueueFid(f: Fid) {
    f.Ctx? && IsQueue(f.kind)
  }

  /** free_res closes every open context handle and queue, each once, and
      nothing else; the endpoints come first. */
  lemma ClosingOf(v: View)
    requires Consistent(v)
    ensures forall f :: f in Closing(v) <==> f in OpenSet(v.log) && f != Sep
    ensures Distinct(Closing(v))
    ensures forall j, g :: 0 <= j < |Closing(v)| && IsQueueFid(Closing(v)[j]) && g in OpenSet(v.log) && IsEndpoint(g)
              ==> g in Closing(v)[..j]
  {
    var eps, queues := Endpoints(v), Queues(v);
    var all := Closing(v);
    EndpointsOf(v);
    QueuesOf(v);
    DistinctAppend(eps, queues);
    forall j, g | 0 <= j < |all| && IsQueueFid(all[j]) && g in OpenSet(v.log) && IsEndpoint(g)
      ensures g in all[..j]
    {
      assert j >= |eps| by {
        assert forall i :: 0 <= i < |eps| ==> all[i] == eps[i] && eps[i] in eps;
      }
      assert all[..j][..|eps|] == eps;
    }
  }

  function Range(s: seq<Fid>): set<Fid> {
    set f | f in s
  }

  lemma LastIsFresh(u: seq<Fid>, f: Fid)
    requires Distinct(u + [f])
    ensures f !in Range(u) && Range(u + [f]) == Range(u) + {f}
  {
    var w := u + [f];
    assert forall i :: 0 <= i < |u| ==> w[i] == u[i] && w[i] != w[|u|];
  }

  /** Closing a list of open handles in which the endpoints precede the queues. */
  lemma {:induction false} SafeCloses(log: seq<Event>, fids: seq<Fid>, rc: Fid -> int)
    requires SafeLog(log) && Distinct(fids)
    requires forall f :: f in fids ==> f in OpenSet(log) && f != Sep
    requires forall j, g :: 0 <= j < |fids| && IsQueueFid(fids[j]) && g in OpenSet(log) && IsEndpoint(g)
               ==> g in fids[..j]
    ensures SafeLog(log + Closes(fids, rc))
    ensures OpenSet(log + Closes(fids, rc)) == OpenSet(log) - Range(fids)
  {
    if fids == [] {
      assert log + Closes(fids, rc) == log;
    } else {
      var last := |fids| - 1;
      var u, f := fids[..last], fids[last];
      assert fids == u + [f];
      assert Distinct(u) by {
        assert forall i :: 0 <= i < |u| ==> u[i] == fids[i];
      }
      forall g | g in u ensures g in OpenSet(log) && g != Sep {
        assert g in fids;
      }
      forall j, g | 0 <= j < |u| && IsQueueFid(u[j]) && g in OpenSet(log) && IsEndpoint(g)
        ensures g in u[..j]
      {
        assert u[j] == fids[j] && u[..j] == fids[..j];
      }
      SafeCloses(log, u, rc);
      var l := log + Closes(u, rc);
      ClosesAppend(u, [f], rc);
      assert log + Closes(fids, rc) == l + [Close(f, rc(f))];
      LastIsFresh(u, f);
      assert f in fids;
      OpenSetSnoc(l, Close(f, rc(f)));
      SafeLogSnoc(l, Close(f, rc(f)));
    }
  }

  /** After free_res only the scalable endpoint can be open. */
  lemma FreeResIsSafe(v: View, rc: Fid -> int)
    requires Consistent(v)
    ensures SafeLog(v.log + Closes(Closing(v), rc))
    ensures OpenSet(v.log + Closes(Closing(v), rc)) == OpenSet(v.log) * {Sep}
    ensures Consistent(View([], [], [], [], v.sep, v.log + Closes(Closing(v), rc)))
  {
    ClosingOf(v);
    SafeCloses(v.log, Closing(v), rc);
    forall f ensures f in OpenSet(v.log) - Range(Closing(v)) <==> f in OpenSet(v.log) * {Sep} {
    }
    var w := View([], [], [], [], v.sep, v.log + Closes(Closing(v), rc));
    assert forall k :: w.Of(k) == [];
  }

  /** What main closes: the contexts and queues, then the scalable endpoint. */
  function AllClosing(v: View): seq<Fid> {
    Closing(v) + (if v.sep.To? then [v.sep.fid] else [])
  }

  /** The whole teardown closes every open handle once and nothing else, never
      a queue or the scalable endpoint before what uses it, and leaves nothing
      open, whatever the closes return. */
  lemma TeardownIsSafe(v: View, rc: Fid -> int)
    requires Consistent(v)
    ensures Distinct(AllClosing(v)) && forall f :: f in AllClosing(v) <==> f in OpenSet(v.log)
    ensures SafeLog(v.log + Closes(AllClosing(v), rc))
    ensures OpenSet(v.log + Closes(AllClosing(v), rc)) == {}
  {
    FreeResIsSafe(v, rc);
    ClosingOf(v);
    var l := v.log + Closes(Closing(v), rc);
    if v.sep.To? {
      var e := Close(Sep, rc(Sep));
      ClosesAppend(Closing(v), [Sep], rc);
      assert v.log + Closes(AllClosing(v), rc) == l + [e];
      OpenSetSnoc(l, e);
      SafeLogSnoc(l, e);
      DistinctAppend(Closing(v), [Sep]);
    } else {
      assert AllClosing(v) == Closing(v);
    }
  }

  // ------------------------------------------------------------ the order of the closes

  /** The place of each array in free_res. */
  function Turn(kind: Kind): nat {
    match kind
    case RxEp => 0
    case TxEp => 1
    case RxCq => 2
    case TxCq => 3
  }

  /** f is closed before g: the array of its kind comes first, or it has the smaller
      index in the same array; the scalable endpoint comes last. */
  predicate ClosedBefore(f: Fid, g: Fid) {
    f.Ctx? && (g.Ctx? ==> Turn(f.kind) < Turn(g.kind) || (f.kind == g.kind && f.i < g.i))
  }

  ghost predicate InCloseOrder(fids: seq<Fid>) {
    forall j, k :: 0 <= j < |fids| && 0 <= k < |fids| ==> (j < k <==> ClosedBefore(fids[j], fids[k]))
  }

  lemma OrderIsDistinct(fids: seq<Fid>)
    requires InCloseOrder(fids)
    ensures Distinct(fids)
  {
  }

  lemma InOrderAppend(s: seq<Fid>, t: seq<Fid>)
    requires InCloseOrder(s) && InCloseOrder(t)
    requires forall f, g :: f in s && g in t ==> ClosedBefore(f, g)
    ensures InCloseOrder(s + t)
  {
    var u := s + t;
    forall j, k | 0 <= j < |u| && 0 <= k < |u| ensures j < k <==> ClosedBefore(u[j], u[k]) {
      assert u[j] == if j < |s| then s[j] else t[j - |s|];
      assert u[k] == if k < |s| then s[k] else t[k - |s|];
      assert j < |s| <= k ==> u[j] in s && u[k] in t;
      assert k < |s| <= j ==> u[k] in s && u[j] in t;
    }
  }

  lemma {:induction false} CellsInOrder(kind: Kind, s: seq<Handle>)
    requires CellsOk(kind, s)
    ensures InCloseOrder(NonNull(s))
  {
    if s != [] {
      var u := s[..|s| - 1];
      CellsInOrder(kind, u);
      NonNullMembers(kind, u);
      if s[|s| - 1].To? {
        InOrderAppend(NonNull(u), [s[|s| - 1].fid]);
      }
    }
  }

  lemma EndpointsInOrder(v: View)
    requires Consistent(v)
    ensures InCloseOrder(Endpoints(v)) && forall f :: f in Endpoints(v) ==> IsEndpoint(f)
  {
    assert CellsOk(RxEp, v.Of(RxEp)) && CellsOk(TxEp, v.Of(TxEp));
    CellsInOrder(RxEp, v.rxEp);
    CellsInOrder(TxEp, v.txEp);
    NonNullMembers(RxEp, v.rxEp);
    NonNullMembers(TxEp, v.txEp);
    InOrderAppend(NonNull(v.rxEp), NonNull(v.txEp));
  }

  lemma QueuesInOrder(v: View)
    requires Consistent(v)
    ensures InCloseOrder(Queues(v)) && forall f :: f in Queues(v) ==> IsQueueFid(f)
  {
    assert CellsOk(RxCq, v.Of(RxCq)) && CellsOk(TxCq, v.Of(TxCq));
    CellsInOrder(RxCq, v.rxCq);
    CellsInOrder(TxCq, v.txCq);
    NonNullMembers(RxCq, v.rxCq);
    NonNullMembers(TxCq, v.txCq);
    InOrderAppend(NonNull(v.rxCq), NonNull(v.txCq));
  }

  lemma ClosingInOrder(v: View)
    requires Consistent(v)
    ensures InCloseOrder(Closing(v)) && forall f :: f in Closing(v) ==> f.Ctx?
  {
    EndpointsInOrder(v);
    QueuesInOrder(v);
    InOrderAppend(Endpoints(v), Queues(v));
  }

  /** The whole teardown closes the receive contexts, the transmit contexts, the
      receive queues and the transmit queues, each by index, and then the scalable
      endpoint. */
  lemma AllClosingInOrder(v: View)
    requires Consistent(v)
    ensures InCloseOrder(AllClosing(v))
  {
    ClosingInOrder(v);
    if v.sep.To? {
      InOrderAppend(Closing(v), [Sep]);
    } else {
      assert AllClosing(v) == Closing(v);
    }
  }

  // ----------------------------------------------------- what a setup leaves open

  /** The call was made and succeeded. */
  predicate Got(t: seq<Op>, rc: Codes, op: Op) {
    op in t && rc(op) == 0
  }

  /** The array of one kind after the calls t: cell i holds its handle exactly
      when its open was made and succeeded. */
  function Filled(kind: Kind, n: nat, t: seq<Op>, rc: Codes): (s: seq<Handle>)
    ensures |s| == n
  {
    seq(n, i requires 0 <= i < n => if Got(t, rc, OpenOp(kind, i)) then To(Ctx(kind, i)) else Null)
  }

  lemma CreatedBy(op: Op, k: Kind, i: nat)
    ensures Ctx(k, i) in Creates(op) <==> op == OpenOp(k, i)
    ensures Sep in Creates(op) <==> op == OpenSep
  {
  }

  lemma OpenAfterCalls(t: seq<Op>, rc: Codes, k: Kind, i: nat)
    ensures Ctx(k, i) in OpenSet(Calls(t, rc)) <==> Got(t, rc, OpenOp(k, i))
    ensures Sep in OpenSet(Calls(t, rc)) <==> Got(t, rc, OpenSep)
  {
    assert [] + Calls(t, rc) == Calls(t, rc);
    OpenSetOfCalls([], t, rc, Ctx(k, i));
    OpenSetOfCalls([], t, rc, Sep);
    forall op ensures Ctx(k, i) in Creates(op) <==> op == OpenOp(k, i) { CreatedBy(op, k, i); }
    forall op ensures Sep in Creates(op) <==> op == OpenSep { CreatedBy(op, k, i); }
  }

  /** What the program holds after the calls t of a setup with n contexts, when
      the arrays are there. */
  function SetupView(n: nat, t: seq<Op>, rc: Codes): View {
    View(Filled(TxEp, n, t, rc), Filled(RxEp, n, t, rc), Filled(TxCq, n, t, rc), Filled(RxCq, n, t, rc),
         if Got(t, rc, OpenSep) then To(Sep) else Null, Calls(t, rc))
  }

  lemma SetupIsConsistent(n: nat, t: seq<Op>, rc: Codes)
    requires IndicesBelow(t, n)
    ensures Consistent(SetupView(n, t, rc))
  {
    var v := SetupView(n, t, rc);
    forall k, i: nat
      ensures Ctx(k, i) in OpenSet(v.log) <==> i < |v.Of(k)| && v.Of(k)[i].To?
    {
      OpenAfterCalls(t, rc, k, i);
      assert v.Of(k) == Filled(k, n, t, rc);
      assert HasCtx(OpenOp(k, i));
    }
    forall k ensures CellsOk(k, v.Of(k)) {
      assert v.Of(k) == Filled(k, n, t, rc);
    }
    OpenAfterCalls(t, rc, TxEp, 0);
  }

  /** The same when some arrays may be missing, for calls that open no context. */
  lemma EmptySetupIsConsistent(v: View, t: seq<Op>, rc: Codes)
    requires IndicesBelow(t, 0)
    requires v.log == Calls(t, rc) && v.sep == (if Got(t, rc, OpenSep) then To(Sep) else Null)
    requires forall k, i: nat :: i < |v.Of(k)| ==> v.Of(k)[i] == Null
    ensures Consistent(v)
  {
    forall k, i: nat ensures Ctx(k, i) !in OpenSet(v.log) {
      OpenAfterCalls(t, rc, k, i);
      assert HasCtx(OpenOp(k, i));
    }
    OpenAfterCalls(t, rc, TxEp, 0);
  }
}
