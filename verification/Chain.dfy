/** The error chain `a |-> b` of the port: run a, and run b only when a gave 0;
    otherwise convert a's code to b's integer type and give that. */
module Chain {

  // ---------------------------------------------- stopping at the first error

  /** The calls made by a sequence of checked calls: everything up to and
      including the first one that does not return 0. */
  function Cut<A>(ops: seq<A>, rc: A -> int): (t: seq<A>)
    ensures t <= ops
  {
    if ops == [] then []
    else if rc(ops[0]) != 0 then [ops[0]]
    else [ops[0]] + Cut(ops[1..], rc)
  }

  /** The code such a sequence returns. */
  function FirstCode<A>(ops: seq<A>, rc: A -> int): int {
    if ops == [] then 0
    else if rc(ops[0]) != 0 then rc(ops[0])
    else FirstCode(ops[1..], rc)
  }

  ghost predicate AllZero<A>(ops: seq<A>, rc: A -> int) {
    forall a :: a in ops ==> rc(a) == 0
  }

  lemma {:induction false} CutOfZeros<A>(ops: seq<A>, rc: A -> int)
    requires AllZero(ops, rc)
    ensures Cut(ops, rc) == ops && FirstCode(ops, rc) == 0
  {
    if ops != [] {
      assert ops == [ops[0]] + ops[1..];
      CutOfZeros(ops[1..], rc);
    }
  }

  lemma {:induction false} FirstCodeZero<A>(ops: seq<A>, rc: A -> int)
    ensures FirstCode(ops, rc) == 0 <==> AllZero(ops, rc)
  {
    if ops != [] {
      assert ops == [ops[0]] + ops[1..];
      FirstCodeZero(ops[1..], rc);
    }
  }

  lemma {:induction false} CutAppend<A>(a: seq<A>, b: seq<A>, rc: A -> int)
    ensures FirstCode(a, rc) != 0 ==>
              Cut(a + b, rc) == Cut(a, rc) && FirstCode(a + b, rc) == FirstCode(a, rc)
    ensures FirstCode(a, rc) == 0 ==>
              Cut(a + b, rc) == a + Cut(b, rc) && FirstCode(a + b, rc) == FirstCode(b, rc)
  {
    if a == [] {
      assert a + b == b;
    } else {
      assert (a + b)[1..] == a[1..] + b;
      CutAppend(a[1..], b, rc);
    }
  }

  lemma Associate<A>(a: seq<A>, b: seq<A>, c: seq<A>)
    ensures a + b + c == a + (b + c)
  {
  }

  /** The calls of b stop a + b + c when those of a all succeed and b fails. */
  lemma CutInside<A>(a: seq<A>, b: seq<A>, c: seq<A>, rc: A -> int)
    requires AllZero(a, rc) && FirstCode(b, rc) != 0
    ensures Cut(a + b + c, rc) == a + Cut(b, rc) && FirstCode(a + b + c, rc) == FirstCode(b, rc)
  {
    CutOfZeros(a, rc);
    CutAppend(a, b, rc);
    CutAppend(a + b, c, rc);
  }

  lemma CutOne<A>(a: A, rc: A -> int)
    ensures Cut([a], rc) == [a] && FirstCode([a], rc) == rc(a)
  {
    assert [a][1..] == [];
  }

  /** Every call up to the jth of b is made, when that is the first to fail. */
  lemma CutAt<A>(a: seq<A>, b: seq<A>, c: seq<A>, j: nat, rc: A -> int)
    requires j < |b| && AllZero(a, rc) && AllZero(b[..j], rc) && rc(b[j]) != 0
    ensures Cut(a + b + c, rc) == a + b[..j + 1] && FirstCode(a + b + c, rc) == rc(b[j])
  {
    CutOne(b[j], rc);
    CutInside(b[..j], [b[j]], b[j + 1..], rc);
    assert b == b[..j] + [b[j]] + b[j + 1..];
    assert b[..j + 1] == b[..j] + [b[j]];
    CutInside(a, b, c, rc);
  }

  /** What makes a prefix t of ops the one that was run: all codes before its
      end are 0, and it ends with an error or with the last call. */
  ghost predicate StopsAtFirstError<A>(t: seq<A>, ops: seq<A>, rc: A -> int) {
    && t <= ops
    && (forall k :: 0 <= k < |t| - 1 ==> rc(t[k]) == 0)
    && (t == ops || (t != [] && rc(t[|t| - 1]) != 0))
  }

  lemma {:induction false} CutStops<A>(ops: seq<A>, rc: A -> int)
    ensures StopsAtFirstError(Cut(ops, rc), ops, rc)
  {
    if ops != [] && rc(ops[0]) == 0 {
      var u := Cut(ops[1..], rc);
      CutStops(ops[1..], rc);
      assert forall k :: 0 < k < |u| + 1 ==> ([ops[0]] + u)[k] == u[k - 1];
      assert ops == [ops[0]] + ops[1..];
    }
  }

  lemma StopIsUnique<A>(t: seq<A>, u: seq<A>, ops: seq<A>, rc: A -> int)
    requires StopsAtFirstError(t, ops, rc) && StopsAtFirstError(u, ops, rc)
    requires |t| <= |u|
    ensures t == u
  {
    assert t != [] ==> t[|t| - 1] == ops[|t| - 1] == u[|t| - 1];
  }

  /** Cut is that prefix and no other. */
  lemma CutIsStop<A>(t: seq<A>, ops: seq<A>, rc: A -> int)
    ensures t == Cut(ops, rc) <==> StopsAtFirstError(t, ops, rc)
  {
    CutStops(ops, rc);
    if StopsAtFirstError(t, ops, rc) {
      if |t| <= |Cut(ops, rc)| {
        StopIsUnique(t, Cut(ops, rc), ops, rc);
      } else {
        StopIsUnique(Cut(ops, rc), t, ops, rc);
      }
    }
  }

  lemma {:induction false} LastCode<A>(ops: seq<A>, rc: A -> int)
    requires ops != []
    ensures Cut(ops, rc) != []
    ensures var t := Cut(ops, rc); FirstCode(ops, rc) == rc(t[|t| - 1])
  {
    if rc(ops[0]) == 0 && |ops| > 1 {
      LastCode(ops[1..], rc);
    }
  }

  // ------------------------------------------------------- integer conversion

  /** CInt and CLong. */
  datatype Width = Int32 | Int64

  function Modulus(w: Width): int {
    if w == Int32 then 0x1_0000_0000 else 0x1_0000_0000_0000_0000
  }

  predicate InRange(w: Width, x: int) {
    -Modulus(w) / 2 <= x < Modulus(w) / 2
  }

  /** fromIntegral into a signed type: two's complement wrap-around. */
  function Wrap(w: Width, x: int): (y: int)
    ensures InRange(w, y)
    ensures InRange(w, x) ==> y == x
    ensures (x - y) % Modulus(w) == 0
  {
    var m := x % Modulus(w);
    if m < Modulus(w) / 2 then m else m - Modulus(w)
  }

  predicate NoWider(w: Width, w': Width) {
    w == Int32 || w' == Int64
  }

  // ------------------------------------------------------------- chain programs

  datatype Prog<A> = Act(act: A, width: Width) | Then(first: Prog<A>, second: Prog<A>)

  function WidthOf<A>(p: Prog<A>): Width {
    if p.Act? then p.width else WidthOf(p.second)
  }

  function Leaves<A>(p: Prog<A>): (s: seq<A>)
    ensures s != []
  {
    if p.Act? then [p.act] else Leaves(p.first) + Leaves(p.second)
  }

  datatype Outcome<A> = Outcome(trace: seq<A>, code: int)

  function Run<A>(p: Prog<A>, rc: A -> int): Outcome<A> {
    match p
    case Act(a, _) => Outcome([a], rc(a))
    case Then(first, second) =>
      var r := Run(first, rc);
      if r.code == 0 then
        var r' := Run(second, rc);
        Outcome(r.trace + r'.trace, r'.code)
      else
        Outcome(r.trace, Wrap(WidthOf(second), r.code))
  }

  /** Every call returns a value of its own type. */
  ghost predicate Typed<A>(p: Prog<A>, rc: A -> int) {
    match p
    case Act(a, w) => InRange(w, rc(a))
    case Then(first, second) => Typed(first, rc) && Typed(second, rc)
  }

  /** No code is ever converted to a narrower type. */
  predicate Widening<A>(p: Prog<A>) {
    p.Then? ==>
      && Widening(p.first) && Widening(p.second)
      && NoWider(WidthOf(p.first), WidthOf(p.second))
  }

  /** A chain without a narrowing conversion, however it is associated, runs
      exactly up to the first error and returns that error. */
  lemma {:induction false} ChainStopsAtFirstError<A>(p: Prog<A>, rc: A -> int)
    requires Widening(p) && Typed(p, rc)
    ensures Run(p, rc) == Outcome(Cut(Leaves(p), rc), FirstCode(Leaves(p), rc))
    ensures InRange(WidthOf(p), Run(p, rc).code)
  {
    match p
    case Act(a, w) =>
      assert Cut([a][1..], rc) == [];
      assert FirstCode([a][1..], rc) == 0;
    case Then(first, second) =>
      ChainStopsAtFirstError(first, rc);
      ChainStopsAtFirstError(second, rc);
      CutAppend(Leaves(first), Leaves(second), rc);
      FirstCodeZero(Leaves(first), rc);
      if Run(first, rc).code == 0 {
        CutOfZeros(Leaves(first), rc);
      }
  }

  /** Re-association changes neither the calls made nor the result. */
  lemma Reassociate<A>(p: Prog<A>, q: Prog<A>, rc: A -> int)
    requires Leaves(p) == Leaves(q)
    requires Widening(p) && Widening(q) && Typed(p, rc) && Typed(q, rc)
    ensures Run(p, rc) == Run(q, rc)
  {
    ChainStopsAtFirstError(p, rc);
    ChainStopsAtFirstError(q, rc);
  }

  // ---------------------------------------------- what a narrowing conversion does

  ghost predicate Distinct<A>(s: seq<A>) {
    forall i, j :: 0 <= i < j < |s| ==> s[i] != s[j]
  }

  /** All calls succeed, except that one returns 2^32. */
  ghost function Spoil<A>(bad: A): A -> int {
    a => if a == bad then 0x1_0000_0000 else 0
  }

  lemma {:induction false} SpoilMisses<A>(p: Prog<A>, bad: A)
    requires bad !in Leaves(p)
    ensures Run(p, Spoil(bad)).code == 0 && Typed(p, Spoil(bad))
  {
    match p
    case Act(_, _) =>
    case Then(first, second) =>
      SpoilMisses(first, bad);
      SpoilMisses(second, bad);
  }

  function LastLeaf<A>(p: Prog<A>): (a: A)
    ensures a in Leaves(p)
  {
    if p.Act? then p.act else LastLeaf(p.second)
  }

  lemma DistinctParts<A>(s: seq<A>, t: seq<A>)
    requires Distinct(s + t)
    ensures Distinct(s) && Distinct(t)
    ensures forall a :: a in s ==> a !in t
  {
    forall i, j | 0 <= i < j < |s| ensures s[i] != s[j] {
      assert (s + t)[i] == s[i] && (s + t)[j] == s[j];
    }
    forall i, j | 0 <= i < j < |t| ensures t[i] != t[j] {
      assert (s + t)[|s| + i] == t[i] && (s + t)[|s| + j] == t[j];
    }
    forall a | a in s ensures a !in t {
      var i :| 0 <= i < |s| && s[i] == a;
      forall j | 0 <= j < |t| ensures t[j] != a {
        assert (s + t)[i] == a && (s + t)[|s| + j] == t[j];
      }
    }
  }

  lemma {:induction false} SpoilLast<A>(p: Prog<A>)
    requires Distinct(Leaves(p)) && WidthOf(p) == Int64
    ensures Run(p, Spoil(LastLeaf(p))).code == 0x1_0000_0000 && Typed(p, Spoil(LastLeaf(p)))
  {
    match p
    case Act(_, _) =>
    case Then(first, second) =>
      DistinctParts(Leaves(first), Leaves(second));
      SpoilMisses(first, LastLeaf(p));
      SpoilLast(second);
  }

  lemma NarrowingAtTheTop<A>(p: Prog<A>)
    requires p.Then? && Distinct(Leaves(p)) && !NoWider(WidthOf(p.first), WidthOf(p.second))
    ensures var bad := LastLeaf(p.first); Typed(p, Spoil(bad)) && Run(p, Spoil(bad)).code == 0
  {
    DistinctParts(Leaves(p.first), Leaves(p.second));
    var bad := LastLeaf(p.first);
    SpoilLast(p.first);
    SpoilMisses(p.second, bad);
    assert Wrap(Int32, 0x1_0000_0000) == 0;
    assert Run(p.first, Spoil(bad)).code == 0x1_0000_0000;
    assert WidthOf(p.second) == Int32;
  }

  /** Wherever a chain narrows, some error is lost: the chain gives 0 although
      one of its calls failed. */
  lemma {:induction false} NarrowingLosesAnError<A>(p: Prog<A>) returns (bad: A)
    requires !Widening(p) && Distinct(Leaves(p))
    ensures bad in Leaves(p) && Typed(p, Spoil(bad)) && Run(p, Spoil(bad)).code == 0
  {
    var first, second := p.first, p.second;
    DistinctParts(Leaves(first), Leaves(second));
    if !Widening(first) {
      bad := NarrowingLosesAnError(first);
      SpoilMisses(second, bad);
    } else if !Widening(second) {
      bad := NarrowingLosesAnError(second);
      SpoilMisses(first, bad);
    } else {
      bad := LastLeaf(first);
      NarrowingAtTheTop(p);
    }
  }

  ghost predicate Faithful<A(!new)>(p: Prog<A>) {
    forall rc: A -> int :: Typed(p, rc) ==> Run(p, rc).code == FirstCode(Leaves(p), rc)
  }

  /** A chain returns the first error for every behaviour of its calls exactly
      when it never narrows. */
  lemma FaithfulIffWidening<A(!new)>(p: Prog<A>)
    requires Distinct(Leaves(p))
    ensures Faithful(p) <==> Widening(p)
  {
    if Widening(p) {
      forall rc: A -> int | Typed(p, rc)
        ensures Run(p, rc).code == FirstCode(Leaves(p), rc)
      {
        ChainStopsAtFirstError(p, rc);
      }
    } else {
      var bad := NarrowingLosesAnError(p);
      FirstCodeZero(Leaves(p), Spoil(bad));
      assert Typed(p, Spoil(bad));
    }
  }

  /** That no call occurs twice is needed: a call that also stands behind the
      narrowing conversion has to fit the narrow type. */
  lemma RepeatedCallIsSafe<A(!new)>(a: A)
    ensures var p := Then(Act(a, Int64), Act(a, Int32)); Faithful(p) && !Widening(p)
  {
    var p := Then(Act(a, Int64), Act(a, Int32));
    assert Leaves(p) == [a, a] && [a, a][1..] == [a] && [a][1..] == [];
    forall rc: A -> int | Typed(p, rc) ensures Run(p, rc).code == FirstCode(Leaves(p), rc) {
      assert Typed(p.first, rc) && Typed(p.second, rc);
      assert Run(p.first, rc) == Outcome([a], rc(a)) && Run(p.second, rc) == Outcome([a], rc(a));
      assert FirstCode([a], rc) == rc(a);
    }
  }
}
