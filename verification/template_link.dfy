/**
 The second pass as a function of what the first pass says about a template and the programs nested
 in it: the index each program gets in the shared list, its generated function, and the final list.
 */
module TemplateLink {
  import opened JsRuntime
  import opened TemplateAst
  import Opcodes
  import opened FirstPass
  import CodeGen
  import opened SlotMachine

  /** An environment with its instructions still in groups. */
  datatype Unit = Unit(ops: seq<Opcodes.Op>, kids: seq<Unit>, depths: seq<nat>, simple: bool, usePartial: bool)

  ghost function UnitOf(o: Options, p: Program): Unit {
    var qs := Nested(p);
    Unit(OpsOf(o, p),
         seq(|qs|, k requires 0 <= k < |qs| => (NestedSmaller(p, |p.statements|, k); UnitOf(o, qs[k]))),
         Ascending(Needs(o, p)), |p.statements| == 1, UsesPartial(p))
  }

  function EnvOfUnit(u: Unit): Env {
    Env(Opcodes.Encode(u.ops), seq(|u.kids|, k requires 0 <= k < |u.kids| => EnvOfUnit(u.kids[k])), u.depths, u.simple,
        u.usePartial)
  }

  /** No instruction misses an operand, in the program and in all those nested in it. */
  ghost predicate Legible(u: Unit) {
    Opcodes.AllComplete(u.ops) && forall v <- u.kids :: Legible(v)
  }

  lemma {:induction false} EnvOfUnitOf(o: Options, p: Program)
    ensures EnvOfUnit(UnitOf(o, p)) == EnvOf(o, p)
    decreases p
  {
    var qs := Nested(p);
    forall k | 0 <= k < |qs|
      ensures EnvOfUnit(UnitOf(o, qs[k])) == EnvOf(o, qs[k])
    {
      NestedSmaller(p, |p.statements|, k);
      EnvOfUnitOf(o, qs[k]);
    }
    assert EnvOfUnit(UnitOf(o, p)).children == EnvOf(o, p).children;
  }

  /**
   A nested function has the parameters `depth0`, `data` and its depths.  When these are four names
   and the program uses no partial, the last one is dropped.
   */
  predicate DropsLastDepth(depths: seq<nat>, usePartial: bool) {
    2 + |depths| == 4 && !usePartial
  }

  function ChildParams(depths: seq<nat>, usePartial: bool): seq<nat> {
    if DropsLastDepth(depths, usePartial) then depths[..|depths| - 1] else depths
  }

  /** The length of the program list after the first `n` of `us`, starting from length `len`. */
  function LengthUpTo(us: seq<Unit>, n: nat, len: nat): (r: nat)
    requires n <= |us|
    ensures r >= len + 2 * n
    decreases us, n
  {
    if n == 0 then len
    else
      var before := LengthUpTo(us, n - 1, len);
      var kids := us[n - 1].kids;
      if kids == [] then before + 2 else LengthUpTo(kids, |kids|, before + 1)
  }

  /** The index of the k-th program nested in the program with index `index` (0 for the template itself). */
  function IndexOf(us: seq<Unit>, k: nat, index: nat): nat
    requires k < |us|
  {
    LengthUpTo(us, k, index) + 1
  }

  function KidsOf(us: seq<Unit>, index: nat): seq<CodeGen.Kid> {
    seq(|us|, k requires 0 <= k < |us| => CodeGen.Kid(IndexOf(us, k, index), us[k].depths))
  }

  function GenOf(o: Options, u: Unit, index: nat): CodeGen.Gen {
    CodeGen.GenFused(o, KidsOf(u.kids, index), u.ops, CodeGen.START_STATE)
  }

  function FnOf(o: Options, u: Unit, index: nat, params: seq<nat>): Fn {
    Fn(params, u.simple, GenOf(o, u, index).st.vars, GenOf(o, u, index).code)
  }

  function ChildFn(o: Options, u: Unit, index: nat): Fn {
    FnOf(o, u, index, ChildParams(u.depths, u.usePartial))
  }

  /** `programs[index] = fn` */
  function Place(programs: seq<Option<Fn>>, index: nat, fn: Fn): (r: seq<Option<Fn>>)
    requires index <= |programs|
    ensures |r| == (if |programs| == index then index + 1 else |programs|)
  {
    if |programs| == index then programs + [Some(fn)] else programs[index := Some(fn)]
  }

  /** `compileChildren` for the first `n` of `us`. */
  function FillUpTo(o: Options, us: seq<Unit>, n: nat, programs: seq<Option<Fn>>): (r: seq<Option<Fn>>)
    requires n <= |us|
    ensures |r| == LengthUpTo(us, n, |programs|)
    decreases us, n
  {
    if n == 0 then programs
    else
      var u := us[n - 1];
      var before := FillUpTo(o, us, n - 1, programs);
      var inner := FillUpTo(o, u.kids, |u.kids|, before + [None]);
      Place(inner, |before| + 1, ChildFn(o, u, |before| + 1))
  }

  /** The program list in which the functions of a template find each other. */
  function TableOf(o: Options, u: Unit): seq<Option<Fn>> {
    FillUpTo(o, u.kids, |u.kids|, [])
  }

  /** The first `n` of `us`, and everything nested in them, are in the table under their indices. */
  ghost predicate Holds(o: Options, table: seq<Option<Fn>>, us: seq<Unit>, n: nat, index: nat)
    requires n <= |us|
    decreases us, n
  {
    n == 0 ||
    (var u := us[n - 1];
     var i := IndexOf(us, n - 1, index);
     && Holds(o, table, us, n - 1, index)
     && i < |table| && table[i] == Some(ChildFn(o, u, i))
     && Holds(o, table, u.kids, |u.kids|, i))
  }

  /** Entries at or below the index of a program do not matter to the programs nested in it. */
  lemma {:induction false} HoldsAbove(o: Options, t: seq<Option<Fn>>, t': seq<Option<Fn>>, us: seq<Unit>, n: nat,
                                      index: nat)
    requires n <= |us| && Holds(o, t, us, n, index)
    requires |t| <= |t'| && forall i :: index < i < |t| ==> t'[i] == t[i]
    ensures Holds(o, t', us, n, index)
    decreases us, n
  {
    if n > 0 {
      hide ChildFn;
      var u := us[n - 1];
      HoldsAbove(o, t, t', us, n - 1, index);
      HoldsAbove(o, t, t', u.kids, |u.kids|, IndexOf(us, n - 1, index));
    }
  }

  /** Places already filled keep their contents. */
  lemma {:induction false} FillKeeps(o: Options, us: seq<Unit>, n: nat, programs: seq<Option<Fn>>)
    requires n <= |us|
    ensures forall i :: 0 <= i < |programs| ==> FillUpTo(o, us, n, programs)[i] == programs[i]
    decreases us, n
  {
    if n > 0 {
      hide ChildFn;
      var u := us[n - 1];
      var before := FillUpTo(o, us, n - 1, programs);
      FillKeeps(o, us, n - 1, programs);
      FillKeeps(o, u.kids, |u.kids|, before + [None]);
    }
  }

  lemma FillStep(o: Options, us: seq<Unit>, n: nat, programs: seq<Option<Fn>>)
    requires 0 < n <= |us|
    ensures var u := us[n - 1];
            var before := FillUpTo(o, us, n - 1, programs);
            var i := |before| + 1;
            var inner := FillUpTo(o, u.kids, |u.kids|, before + [None]);
            var all := FillUpTo(o, us, n, programs);
            && IndexOf(us, n - 1, |programs|) == i
            && |inner| <= |all| && i < |all| && all[i] == Some(ChildFn(o, u, i))
            && (forall j :: 0 <= j < |before| ==> all[j] == before[j])
            && (forall j :: i < j < |inner| ==> all[j] == inner[j])
  {
    hide ChildFn;
    var u := us[n - 1];
    var before := FillUpTo(o, us, n - 1, programs);
    var inner := FillUpTo(o, u.kids, |u.kids|, before + [None]);
    var all := FillUpTo(o, us, n, programs);
    assert all == Place(inner, |before| + 1, ChildFn(o, u, |before| + 1));
    FillKeeps(o, u.kids, |u.kids|, before + [None]);
    forall j | 0 <= j < |before|
      ensures all[j] == before[j]
    {
      assert inner[j] == (before + [None])[j];
    }
  }

  lemma HoldsJoin(o: Options, table: seq<Option<Fn>>, us: seq<Unit>, n: nat, index: nat)
    requires n <= |us|
    requires n > 0 ==>
      var u, i := us[n - 1], IndexOf(us, n - 1, index);
      && Holds(o, table, us, n - 1, index)
      && i < |table| && table[i] == Some(ChildFn(o, u, i))
      && Holds(o, table, u.kids, |u.kids|, i)
    ensures Holds(o, table, us, n, index)
  {
    hide ChildFn, IndexOf;
  }

  /** No finished program is ever overwritten: at the end all of them are in their places. */
  lemma {:induction false} FillHolds(o: Options, us: seq<Unit>, n: nat, programs: seq<Option<Fn>>)
    requires n <= |us|
    ensures Holds(o, FillUpTo(o, us, n, programs), us, n, |programs|)
    decreases us, n
  {
    hide Holds, ChildFn, FillUpTo, LengthUpTo, IndexOf;
    var all := FillUpTo(o, us, n, programs);
    if n > 0 {
      var u := us[n - 1];
      var before := FillUpTo(o, us, n - 1, programs);
      var inner := FillUpTo(o, u.kids, |u.kids|, before + [None]);
      FillStep(o, us, n, programs);
      FillHolds(o, us, n - 1, programs);
      FillHolds(o, u.kids, |u.kids|, before + [None]);
      HoldsAbove(o, inner, all, u.kids, |u.kids|, |before| + 1);
      HoldsAbove(o, before, all, us, n - 1, |programs|);
    }
    HoldsJoin(o, all, us, n, |programs|);
  }

  /** The indices of the first `n` of `us` and of all programs nested in those. */
  function IndicesUpTo(us: seq<Unit>, n: nat, index: nat): (r: set<nat>)
    requires n <= |us|
    ensures forall i :: i in r ==> index < i < LengthUpTo(us, n, index)
    decreases us, n
  {
    if n == 0 then {}
    else
      var i := IndexOf(us, n - 1, index);
      var kids := us[n - 1].kids;
      IndicesUpTo(us, n - 1, index) + {i} + IndicesUpTo(kids, |kids|, i)
  }

  /** How many programs there are among the first `n` of `us` and nested in those. */
  function CountUpTo(us: seq<Unit>, n: nat): nat
    requires n <= |us|
    decreases us, n
  {
    if n == 0 then 0
    else CountUpTo(us, n - 1) + 1 + CountUpTo(us[n - 1].kids, |us[n - 1].kids|)
  }

  lemma SizeOfUnion(a: set<nat>, i: nat, b: set<nat>)
    requires i !in a && i !in b && a !! b
    ensures |a + {i} + b| == |a| + 1 + |b|
  {
    assert |a + {i}| == |a| + 1;
    assert (a + {i}) !! b;
  }

  lemma IndicesStep(us: seq<Unit>, n: nat, index: nat)
    requires n <= |us|
    ensures n == 0 ==> IndicesUpTo(us, n, index) == {} && CountUpTo(us, n) == 0
    ensures n > 0 ==>
      var kids, i := us[n - 1].kids, IndexOf(us, n - 1, index);
      && IndicesUpTo(us, n, index) == IndicesUpTo(us, n - 1, index) + {i} + IndicesUpTo(kids, |kids|, i)
      && CountUpTo(us, n) == CountUpTo(us, n - 1) + 1 + CountUpTo(kids, |kids|)
      && LengthUpTo(us, n - 1, index) < i
  {
  }

  /** Programs nested at any level get pairwise different indices. */
  lemma {:induction false} IndicesDistinct(us: seq<Unit>, n: nat, index: nat)
    requires n <= |us|
    ensures |IndicesUpTo(us, n, index)| == CountUpTo(us, n)
    decreases us, n
  {
    hide LengthUpTo, IndicesUpTo, IndexOf, CountUpTo;
    IndicesStep(us, n, index);
    if n > 0 {
      var kids := us[n - 1].kids;
      var i := IndexOf(us, n - 1, index);
      IndicesDistinct(us, n - 1, index);
      IndicesDistinct(kids, |kids|, i);
      SizeOfUnion(IndicesUpTo(us, n - 1, index), i, IndicesUpTo(kids, |kids|, i));
    }
  }
}
