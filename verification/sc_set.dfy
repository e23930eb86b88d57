/**
 `SC.Set`: the members stand in numbered slots, and under each object's identity stands its slot number.
 Clearing only sets the length, so that old slots and numbers stay behind.
 */
module SparseSet {
  import opened JsRuntime
  import opened Collections

  /** Objects with their identity; nothing else is ever stored. */
  datatype Obj = Obj(guid: nat)

  function Range(items: seq<Obj>): set<Obj> {
    set o | o in items
  }

  // ----- the set as a value: members in slot order, and what `contains` still believes in

  datatype Abstract = Abstract(items: seq<Obj>, stale: set<Obj>)

  datatype Op =
    | Add(o: Obj)
    | Remove(o: Obj)
    | Pop
    | Clear

  function IndexOf(items: seq<Obj>, o: Obj): (i: nat)
    requires o in items
    ensures i < |items| && items[i] == o
  {
    if items[0] == o then 0 else 1 + IndexOf(items[1..], o)
  }

  /** The last item moves into the gap. */
  function SwapRemove(items: seq<Obj>, o: Obj): seq<Obj> {
    if o in items then items[IndexOf(items, o) := items[|items| - 1]][..|items| - 1] else items
  }

  function Apply(a: Abstract, op: Op): Abstract {
    match op
    case Add(o) => if o in a.items then a else Abstract(a.items + [o], a.stale - {o})
    case Remove(o) => Abstract(SwapRemove(a.items, o), a.stale)
    case Pop => if a.items == [] then a else Abstract(a.items[..|a.items| - 1], a.stale)
    case Clear => Abstract([], a.stale + Range(a.items))
  }

  function ApplyAll(a: Abstract, ops: seq<Op>): Abstract
    decreases |ops|
  {
    if ops == [] then a else Apply(ApplyAll(a, ops[..|ops| - 1]), ops[|ops| - 1])
  }

  /** The mathematical set. */
  function Members(s: set<Obj>, a: Abstract, op: Op): set<Obj> {
    match op
    case Add(o) => s + {o}
    case Remove(o) => s - {o}
    case Pop => if a.items == [] then s else s - {a.items[|a.items| - 1]}
    case Clear => {}
  }

  lemma SwapRemoveRange(items: seq<Obj>, o: Obj)
    requires Distinct(items)
    ensures Distinct(SwapRemove(items, o)) && Range(SwapRemove(items, o)) == Range(items) - {o}
  {
    if o in items {
      var i, n := IndexOf(items, o), |items|;
      var r := SwapRemove(items, o);
      forall x
        ensures x in r <==> x in items && x != o
      {
        if x in items && x != o {
          var k :| 0 <= k < n && items[k] == x;
          assert r[if k == n - 1 then i else k] == x;
        }
        if x in r {
          var k :| 0 <= k < n - 1 && r[k] == x;
          assert x == items[if k == i then n - 1 else k];
        }
      }
    }
  }

  /** Every operation does to the members what it does to a mathematical set, and keeps the slots distinct. */
  lemma Refines(a: Abstract, op: Op)
    requires Distinct(a.items)
    ensures Distinct(Apply(a, op).items) && Range(Apply(a, op).items) == Members(Range(a.items), a, op)
  {
    match op {
      case Remove(o) => SwapRemoveRange(a.items, o);
      case Pop =>
        if a.items != [] {
          assert a.items == a.items[..|a.items| - 1] + [a.items[|a.items| - 1]];
        }
      case Add(o) =>
      case Clear =>
    }
  }

  /** Removing leaves every slot but two as it was: the gap is filled from the last slot, which goes. */
  lemma {:induction false} SwapRemoveAt(a: seq<Obj>, o: Obj, b: seq<Obj>)
    requires o !in a
    ensures SwapRemove(a + [o] + b, o) == if b == [] then a else a + [b[|b| - 1]] + b[..|b| - 1]
  {
    hide IndexOf;
    IndexOfAt(a, o, b);
    var items := a + [o] + b;
    assert o in items;
    if b == [] {
      assert items[|a| := items[|items| - 1]][..|items| - 1] == a;
    } else {
      assert items[|a| := items[|items| - 1]][..|items| - 1] == a + [b[|b| - 1]] + b[..|b| - 1];
    }
  }

  lemma {:induction false} IndexOfAt(a: seq<Obj>, o: Obj, b: seq<Obj>)
    requires o !in a
    ensures o in a + [o] + b && IndexOf(a + [o] + b, o) == |a|
    decreases |a|
  {
    var items := a + [o] + b;
    assert items[|a|] == o;
    if a != [] {
      assert items[1..] == a[1..] + [o] + b && items[0] == a[0];
      IndexOfAt(a[1..], o, b);
    }
  }

  /** The last slot is where objects are added and popped, and the others stay; a clear keeps none. */
  lemma SlotsStay(a: Abstract, o: Obj)
    requires o !in a.items
    ensures Apply(Apply(a, Add(o)), Pop).items == a.items == Apply(Apply(a, Add(o)), Remove(o)).items
    ensures Apply(a, Add(o)).items == a.items + [o] && Apply(a, Remove(o)) == a && Apply(a, Clear).items == []
  {
    SwapRemoveAt(a.items, o, []);
    assert a.items + [o] + [] == a.items + [o];
  }

  lemma {:induction false} RunDistinct(a: Abstract, ops: seq<Op>)
    requires Distinct(a.items)
    ensures Distinct(ApplyAll(a, ops).items)
    decreases |ops|
  {
    if ops != [] {
      RunDistinct(a, ops[..|ops| - 1]);
      Refines(ApplyAll(a, ops[..|ops| - 1]), ops[|ops| - 1]);
    }
  }

  const EMPTY := Abstract([], {})

  /** Operation `i` of the run clears the set while `o` is a member, and no later one adds it again. */
  ghost predicate ClearedAt(ops: seq<Op>, o: Obj, i: nat) {
    i < |ops| && ops[i] == Clear && o in ApplyAll(EMPTY, ops[..i]).items &&
        forall j :: i < j < |ops| ==> ops[j] != Add(o)
  }

  /**
   After any run from the empty set, the objects that are stale are exactly those that a `clear` dropped and
   that were not added again; a run without `clear` has none.
   */
  lemma {:induction false} StaleExactly(ops: seq<Op>, o: Obj)
    ensures o in ApplyAll(EMPTY, ops).stale <==> exists i :: ClearedAt(ops, o, i)
    ensures o in ApplyAll(EMPTY, ops).stale ==> o !in ApplyAll(EMPTY, ops).items
    decreases |ops|
  {
    if ops != [] {
      var rest, op := ops[..|ops| - 1], ops[|ops| - 1];
      StaleExactly(rest, o);
      RunDistinct(EMPTY, rest);
      Refines(ApplyAll(EMPTY, rest), op);
      LastOp(ops, o);
      hide ApplyAll, IndexOf, SwapRemove, ClearedAt;
    }
  }

  lemma LastOp(ops: seq<Op>, o: Obj)
    requires ops != []
    ensures var rest, op := ops[..|ops| - 1], ops[|ops| - 1];
            (exists i :: ClearedAt(ops, o, i)) <==>
            (op == Clear && o in ApplyAll(EMPTY, rest).items) || (op != Add(o) && exists i :: ClearedAt(rest, o, i))
  {
    hide ApplyAll;
    var rest, op := ops[..|ops| - 1], ops[|ops| - 1];
    assert forall i :: 0 <= i < |rest| ==> rest[..i] == ops[..i];
    if op == Clear && o in ApplyAll(EMPTY, rest).items {
      assert ClearedAt(ops, o, |rest|);
    }
    if i: nat :| ClearedAt(rest, o, i) && op != Add(o) {
      assert ClearedAt(ops, o, i);
    }
    if i: nat :| ClearedAt(ops, o, i) && i < |rest| {
      assert ClearedAt(rest, o, i);
    }
  }

  // ----- the object

  class Set {
    var slots: map<nat, Obj>  // this[0], this[1], ...
    var indices: map<nat, nat>  // this[guid]
    var length: nat
    var isFrozen: bool

    ghost var items: seq<Obj>  // the live slots

    /** Every live slot knows its own number; there may be more slots and numbers. */
    ghost predicate Valid()
      reads this
    {
      |items| == length && SlotsHold(slots, indices, items)
    }

    /** The objects with a number left behind. */
    ghost function Stale(): set<Obj>
      reads this
    {
      StaleIn(indices, items)
    }

    ghost function Value(): Abstract
      reads this
    {
      Abstract(items, Stale())
    }

    constructor ()
      ensures Valid() && Value() == EMPTY && !isFrozen && slots == map[] && indices == map[]
    {
      slots, indices, length, isFrozen, items := map[], map[], 0, false, [];
    }

    /** The guarded test that adding and removing use: exact, whatever stale numbers there are. */
    method IsMember(o: Obj) returns (b: bool)
      requires Valid()
      ensures b <==> o in items
      ensures b ==> Distinct(items) && indices[o.guid] == IndexOf(items, o)
    {
      b := o.guid in indices && indices[o.guid] < length && slots[indices[o.guid]] == o;
      ValidDistinct();
    }

    lemma ValidDistinct()
      requires Valid()
      ensures Distinct(items)
    {
    }

    /** `addObject`; `ok` is false where it throws because the set is frozen. */
    method AddObject(obj: Option<Obj>) returns (ok: bool)
      requires Valid()
      modifies `slots, `indices, `length, `items
      ensures Valid() && ok == !isFrozen
      ensures Value() == if ok && obj.Some? then Apply(old(Value()), Add(obj.value)) else old(Value())
    {
      if isFrozen { return false; }
      ok := true;
      if obj.None? { return; }
      var o := obj.value;
      var added := IsMember(o);
      if added { return; }
      AddStale(indices, items, o);
      indices := indices[o.guid := length];
      slots := slots[length := o];
      length := length + 1;
      items := items + [o];
    }

    method RemoveObject(obj: Option<Obj>) returns (ok: bool)
      requires Valid()
      modifies `slots, `indices, `length, `items
      ensures Valid() && ok == !isFrozen
      ensures Value() == if ok && obj.Some? then Apply(old(Value()), Remove(obj.value)) else old(Value())
    {
      if isFrozen { return false; }
      ok := true;
      if obj.None? { return; }
      var o := obj.value;
      var present := IsMember(o);
      if !present { return; }
      var idx := indices[o.guid];
      if idx < length - 1 {
        var last := slots[length - 1];
        slots := slots[idx := last];
        indices := indices[last.guid := idx];
      }
      indices := indices - {o.guid};
      slots := slots - {length - 1};
      length := length - 1;
      Removed(old(slots), old(indices), items, o, slots, indices);
      items := SwapRemove(items, o);
    }

    method Pop() returns (ok: bool, obj: Option<Obj>)
      requires Valid()
      modifies `slots, `indices, `length, `items
      ensures Valid() && ok == !isFrozen
      ensures Value() == if ok then Apply(old(Value()), Op.Pop) else old(Value())
      ensures ok ==> obj == if old(items) == [] then None else Some(old(items)[|old(items)| - 1])
    {
      if isFrozen { return false, None; }
      obj := if length > 0 then Some(slots[length - 1]) else None;
      ValidDistinct();
      if length > 0 { RemoveLast(items); }
      ok := RemoveObject(obj);
    }

    /** Sets the length only. */
    method Clear() returns (ok: bool)
      requires Valid()
      modifies `length, `items
      ensures Valid() && ok == !isFrozen
      ensures Value() == if ok then Apply(old(Value()), Op.Clear) else old(Value())
    {
      if isFrozen { return false; }
      ClearStale(slots, indices, items);
      ok := true;
      length := 0;
      items := [];
    }

    /** The unguarded test: it also answers yes for stale objects. */
    method Contains(o: Obj) returns (b: bool)
      requires Valid()
      ensures b <==> o in items || o in Stale()
      ensures (b <==> o in items) <==> o !in Stale()
    {
      b := o.guid in indices;
    }

    /** A copy has the same members in the same slots, and nothing stale. */
    method Copy() returns (ret: Set)
      requires Valid()
      ensures fresh(ret) && ret.Valid() && ret.Value() == Abstract(items, {}) && !ret.isFrozen
    {
      hide SlotsHold, CopiedFrom, StaleIn;
      assert forall i :: 0 <= i < length ==> i in slots by { SlotsFilled(slots, indices, items); }
      NothingCopied(items);
      ret := new Set();
      ret.length := length;
      var loc := length;
      while loc > 0
        invariant 0 <= loc <= length == ret.length && !ret.isFrozen
        invariant CopiedFrom(ret.slots, ret.indices, items, loc)
      {
        loc := loc - 1;
        CopyOne(slots, indices, ret.slots, ret.indices, items, loc);
        ret.slots := ret.slots[loc := slots[loc]];
        ret.indices := ret.indices[slots[loc].guid := loc];
      }
      ret.items := items;
      CopiedAll(ret.slots, ret.indices, items);
    }

    /** `isEqual`, which asks the other set's `contains`. */
    method IsEqual(other: Set) returns (b: bool)
      requires Valid() && other.Valid()
      ensures b <==> AnswersEqual(items, other.Value())
    {
      var loc := length;
      if other.length != loc { return false; }
      while loc > 0
        invariant 0 <= loc <= length
        invariant forall i :: loc <= i < length ==> items[i] in other.items || items[i] in other.Stale()
      {
        loc := loc - 1;
        var there := other.Contains(slots[loc]);
        if !there {
          assert items[loc] in items;
          return false;
        }
      }
      b := true;
    }
  }

  ghost predicate SlotsHold(slots: map<nat, Obj>, indices: map<nat, nat>, items: seq<Obj>) {
    forall i :: 0 <= i < |items| ==>
      i in slots && slots[i] == items[i] && items[i].guid in indices && indices[items[i].guid] == i
  }

  /** The slots from `loc` on are copied, and there are no other numbers. */
  ghost predicate CopiedFrom(slots: map<nat, Obj>, indices: map<nat, nat>, items: seq<Obj>, loc: nat) {
    && (forall i :: loc <= i < |items| ==>
          i in slots && slots[i] == items[i] && items[i].guid in indices && indices[items[i].guid] == i)
    && (forall g :: g in indices ==> Obj(g) in items)
  }

  lemma SlotsFilled(slots: map<nat, Obj>, indices: map<nat, nat>, items: seq<Obj>)
    requires SlotsHold(slots, indices, items)
    ensures forall i :: 0 <= i < |items| ==> i in slots
  {
  }

  lemma NothingCopied(items: seq<Obj>)
    ensures CopiedFrom(map[], map[], items, |items|)
  {
  }

  lemma CopyOne(from: map<nat, Obj>, fromIndices: map<nat, nat>, slots: map<nat, Obj>, indices: map<nat, nat>,
                items: seq<Obj>, loc: nat)
    requires SlotsHold(from, fromIndices, items) && loc < |items| && CopiedFrom(slots, indices, items, loc + 1)
    ensures CopiedFrom(slots[loc := from[loc]], indices[from[loc].guid := loc], items, loc)
  {
    assert forall i :: loc < i < |items| ==> items[i].guid != items[loc].guid;
    assert Obj(from[loc].guid) == items[loc];
  }

  lemma CopiedAll(slots: map<nat, Obj>, indices: map<nat, nat>, items: seq<Obj>)
    requires CopiedFrom(slots, indices, items, 0)
    ensures SlotsHold(slots, indices, items) && StaleIn(indices, items) == {}
  {
  }

  ghost function StaleIn(indices: map<nat, nat>, items: seq<Obj>): set<Obj> {
    set g | g in indices && Obj(g) !in items :: Obj(g)
  }

  lemma AddStale(indices: map<nat, nat>, items: seq<Obj>, o: Obj)
    ensures StaleIn(indices[o.guid := |items|], items + [o]) == StaleIn(indices, items) - {o}
  {
    forall x
      ensures x in StaleIn(indices[o.guid := |items|], items + [o]) <==> x in StaleIn(indices, items) - {o}
    {
      assert x == Obj(x.guid);
    }
  }

  /** What a swap-remove writes. */
  ghost predicate SwapWritten(slots: map<nat, Obj>, indices: map<nat, nat>, items: seq<Obj>, o: Obj,
                              slots': map<nat, Obj>, indices': map<nat, nat>)
    requires o in items
  {
    var i, n := IndexOf(items, o), |items| - 1;
    && slots' == (if i < n then slots[i := items[n]] else slots) - {n}
    && indices' == (if i < n then indices[items[n].guid := i] else indices) - {o.guid}
  }

  /** The slots and numbers after a swap-remove. */
  lemma Removed(slots: map<nat, Obj>, indices: map<nat, nat>, items: seq<Obj>, o: Obj, slots': map<nat, Obj>,
                indices': map<nat, nat>)
    requires Distinct(items) && o in items && SlotsHold(slots, indices, items) &&
             SwapWritten(slots, indices, items, o, slots', indices')
    ensures SlotsHold(slots', indices', SwapRemove(items, o)) &&
            StaleIn(indices', SwapRemove(items, o)) == StaleIn(indices, items)
  {
    var r := SwapRemove(items, o);
    forall k | 0 <= k < |r|
      ensures k in slots' && slots'[k] == r[k] && r[k].guid in indices' && indices'[r[k].guid] == k
    {
      SlotAfter(slots, indices, items, o, slots', indices', k);
    }
    RemovedStale(slots, indices, items, o, slots', indices');
  }

  lemma SlotAfter(slots: map<nat, Obj>, indices: map<nat, nat>, items: seq<Obj>, o: Obj, slots': map<nat, Obj>,
                  indices': map<nat, nat>, k: nat)
    requires Distinct(items) && o in items && SlotsHold(slots, indices, items) &&
             SwapWritten(slots, indices, items, o, slots', indices')
    requires k < |items| - 1
    ensures var x := SwapRemove(items, o)[k];
            k in slots' && slots'[k] == x && x.guid in indices' && indices'[x.guid] == k
  {
    hide IndexOf;
    var i, n := IndexOf(items, o), |items| - 1;
    var j := if k == i then n else k;
    assert SwapRemove(items, o)[k] == items[j] && items[j] != o && items[j].guid != o.guid;
    if k != i {
      assert items[j].guid != items[n].guid;
    }
  }

  lemma RemovedStale(slots: map<nat, Obj>, indices: map<nat, nat>, items: seq<Obj>, o: Obj, slots': map<nat, Obj>,
                     indices': map<nat, nat>)
    requires Distinct(items) && o in items && SlotsHold(slots, indices, items) &&
             SwapWritten(slots, indices, items, o, slots', indices')
    ensures StaleIn(indices', SwapRemove(items, o)) == StaleIn(indices, items)
  {
    hide IndexOf, SwapRemove;
    var n, r := |items| - 1, SwapRemove(items, o);
    SwapRemoveRange(items, o);
    assert items[n] in items && items[n].guid in indices;
    assert forall x :: x in r <==> x in items && x != o by {
      assert forall x :: x in r <==> x in Range(r);
    }
    forall x
      ensures x in StaleIn(indices', r) <==> x in StaleIn(indices, items)
    {
      assert x == Obj(x.guid);
      assert x.guid in indices' <==> (x.guid in indices && x != o);
    }
  }

  lemma RemoveLast(items: seq<Obj>)
    requires Distinct(items) && items != []
    ensures items[|items| - 1] in items && SwapRemove(items, items[|items| - 1]) == items[..|items| - 1]
  {
    assert IndexOf(items, items[|items| - 1]) == |items| - 1;
  }

  lemma ClearStale(slots: map<nat, Obj>, indices: map<nat, nat>, items: seq<Obj>)
    requires forall i :: 0 <= i < |items| ==> items[i].guid in indices
    ensures StaleIn(indices, []) == StaleIn(indices, items) + Range(items)
  {
    forall x
      ensures x in StaleIn(indices, []) <==> x in StaleIn(indices, items) + Range(items)
    {
      assert x == Obj(x.guid);
    }
  }

  /** What `isEqual` answers for a set with the slots `a` and another one. */
  ghost predicate AnswersEqual(a: seq<Obj>, b: Abstract) {
    |a| == |b.items| && forall o :: o in a ==> o in b.items || o in b.stale
  }

  lemma AnswersRight(a: seq<Obj>, b: Abstract)
    requires Distinct(a) && Distinct(b.items) && (b.stale == {} || b.items == [])
    ensures AnswersEqual(a, b) <==> Range(a) == Range(b.items)
  {
    RangeSize(a);
    RangeSize(b.items);
    assert forall o :: o in a <==> o in Range(a);
    if |a| == |b.items| && Range(a) <= Range(b.items) {
      SubsetOfSameSize(Range(a), Range(b.items));
    }
  }

  /** Comparing with a set is right for every set exactly if the other one has nothing stale, or no members. */
  lemma EqualExactly(b: Abstract)
    requires Distinct(b.items) && b.stale !! Range(b.items)
    ensures (forall a: seq<Obj> :: Distinct(a) ==> (AnswersEqual(a, b) <==> Range(a) == Range(b.items))) <==>
            b.stale == {} || b.items == []
  {
    if b.stale == {} || b.items == [] {
      forall a: seq<Obj> | Distinct(a)
        ensures AnswersEqual(a, b) <==> Range(a) == Range(b.items)
      {
        AnswersRight(a, b);
      }
    } else {
      var o :| o in b.stale;
      var a := b.items[..|b.items| - 1] + [o];
      assert o in Range(a);
      assert forall x :: x in b.items ==> x in Range(b.items);
      assert Distinct(a);
      assert AnswersEqual(a, b) && Range(a) != Range(b.items);
    }
  }

  /**
   After any run from the empty set: comparing with it is right for every set exactly if it has no members or
   every object that a `clear` dropped has been added again since.
   */
  lemma EqualAfterRun(ops: seq<Op>)
    ensures var b := ApplyAll(EMPTY, ops);
            (forall a: seq<Obj> :: Distinct(a) ==> (AnswersEqual(a, b) <==> Range(a) == Range(b.items))) <==>
            b.items == [] || forall o, i :: !ClearedAt(ops, o, i)
  {
    hide AnswersEqual, ApplyAll, ClearedAt;
    var b := ApplyAll(EMPTY, ops);
    RunDistinct(EMPTY, ops);
    forall o
      ensures o in b.stale <==> exists i :: ClearedAt(ops, o, i)
      ensures o in b.stale ==> o !in b.items
    {
      StaleExactly(ops, o);
    }
    if b.stale != {} {
      var o :| o in b.stale;
      var i: nat :| ClearedAt(ops, o, i);
    } else {
      forall o, i: nat
        ensures !ClearedAt(ops, o, i)
      {
        assert o !in b.stale;
      }
    }
    EqualExactly(b);
  }

  lemma {:induction false} RangeSize(items: seq<Obj>)
    requires Distinct(items)
    ensures |Range(items)| == |items|
    decreases |items|
  {
    if items != [] {
      var rest, last := items[..|items| - 1], items[|items| - 1];
      RangeSize(rest);
      assert items == rest + [last];
      assert Range(items) == Range(rest) + {last} && last !in rest;
    }
  }
}
