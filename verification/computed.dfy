/**
 Computed properties of one object: the dependency table, the cache, and the search that clears the
 cache when a stored property changes.
 */
module ComputedProperties {
  import opened JsRuntime
  import Collections

  type Key = nat

  /** The function is given the values of the declared dependencies, in their order. */
  datatype Computed = Computed(cacheable: bool, dependentKeys: seq<Key>, func: seq<Value> -> Value)

  /** `deps[d][k]` counts how often `k` depends on `d`. */
  type Table = map<Key, map<Key, nat>>

  /** The keys that the search goes on to; a count that has gone back to zero is still there. */
  function Dependents(deps: Table, d: Key): set<Key> {
    if d in deps then deps[d].Keys else {}
  }

  function Count(deps: Table, d: Key, k: Key): nat {
    if d in deps && k in deps[d] then deps[d][k] else 0
  }

  // ----- reachability

  ghost predicate IsPath(deps: Table, p: seq<Key>) {
    p != [] && forall i :: 0 <= i < |p| - 1 ==> p[i + 1] in Dependents(deps, p[i])
  }

  ghost predicate Leads(deps: Table, p: seq<Key>, a: Key, b: Key) {
    IsPath(deps, p) && p[0] == a && p[|p| - 1] == b
  }

  /** `b` depends on `a`, directly or not, or is `a`. */
  ghost predicate Reaches(deps: Table, a: Key, b: Key) {
    exists p :: Leads(deps, p, a, b)
  }

  ghost predicate Closed(deps: Table, s: set<Key>) {
    forall x :: x in s ==> Dependents(deps, x) <= s
  }

  lemma ReachesSelf(deps: Table, a: Key)
    ensures Reaches(deps, a, a)
  {
    assert Leads(deps, [a], a, a);
  }

  lemma ReachesOn(deps: Table, a: Key, b: Key, c: Key)
    requires Reaches(deps, a, b) && c in Dependents(deps, b)
    ensures Reaches(deps, a, c)
  {
    var p :| Leads(deps, p, a, b);
    assert Leads(deps, p + [c], a, c);
  }

  lemma ReachesFrom(deps: Table, a: Key, b: Key, c: Key)
    requires b in Dependents(deps, a) && Reaches(deps, b, c)
    ensures Reaches(deps, a, c)
  {
    var p :| Leads(deps, p, b, c);
    assert Leads(deps, [a] + p, a, c);
  }

  lemma {:induction false} PathStays(deps: Table, s: set<Key>, p: seq<Key>)
    requires Closed(deps, s) && IsPath(deps, p) && p[0] in s
    ensures p[|p| - 1] in s
    decreases |p|
  {
    if |p| > 1 {
      assert p[1] in Dependents(deps, p[0]);
      assert IsPath(deps, p[1..]) by {
        forall i | 0 <= i < |p[1..]| - 1
          ensures p[1..][i + 1] in Dependents(deps, p[1..][i])
        {
          assert p[i + 2] in Dependents(deps, p[i + 1]);
        }
      }
      PathStays(deps, s, p[1..]);
    }
  }

  /** A closed set that contains `a`, and nothing out of its reach, is exactly what `a` reaches. */
  lemma ClosureIsReach(deps: Table, a: Key, s: set<Key>)
    requires a in s && Closed(deps, s) && forall x :: x in s ==> Reaches(deps, a, x)
    ensures forall x :: x in s <==> Reaches(deps, a, x)
  {
    forall x | Reaches(deps, a, x)
      ensures x in s
    {
      var p :| Leads(deps, p, a, x);
      PathStays(deps, s, p);
    }
  }

  // ----- what a property is worth

  type Descs = map<Key, Computed>

  /** Dependencies go strictly down in rank, so that no property depends on itself. */
  ghost predicate Ranked(descs: Descs, rank: Key -> nat) {
    forall k, i :: k in descs && 0 <= i < |descs[k].dependentKeys| ==> rank(descs[k].dependentKeys[i]) < rank(k)
  }

  function Stored(values: map<Key, Value>, k: Key): Value {
    if k in values then values[k] else Undefined
  }

  /** Recomputing from the stored values alone. */
  ghost function Fresh(descs: Descs, rank: Key -> nat, values: map<Key, Value>, k: Key): Value
    requires Ranked(descs, rank)
    decreases rank(k), 1
  {
    if k in descs then descs[k].func(FreshAll(descs, rank, values, k, |descs[k].dependentKeys|)) else Stored(values, k)
  }

  /** The values of the first `n` dependencies. */
  ghost function FreshAll(descs: Descs, rank: Key -> nat, values: map<Key, Value>, k: Key, n: nat): seq<Value>
    requires Ranked(descs, rank) && k in descs && n <= |descs[k].dependentKeys|
    decreases rank(k), 0, n
  {
    if n == 0 then [] else FreshAll(descs, rank, values, k,
                                    n - 1) + [Fresh(descs, rank, values, descs[k].dependentKeys[n - 1])]
  }

  /** The function gets one argument for each declared dependency, in their order: what that dependency is worth. */
  lemma {:induction false} FreshAllIs(descs: Descs, rank: Key -> nat, values: map<Key, Value>, k: Key, n: nat)
    requires Ranked(descs, rank) && k in descs && n <= |descs[k].dependentKeys|
    ensures var args := FreshAll(descs, rank, values, k, n);
            |args| == n && forall i :: 0 <= i < n ==> args[i] == Fresh(descs, rank, values, descs[k].dependentKeys[i])
    decreases n
  {
    hide Fresh;
    if n > 0 {
      FreshAllIs(descs, rank, values, k, n - 1);
    }
  }

  /** A stored property is worth its value, undefined if it has none; a computed one what its function makes of them. */
  lemma WorthExactly(descs: Descs, rank: Key -> nat, values: map<Key, Value>, k: Key, args: seq<Value>)
    requires Ranked(descs, rank)
    ensures k !in descs ==> Fresh(descs, rank, values, k) == if k in values then values[k] else Undefined
    ensures k in descs && |args| == |descs[k].dependentKeys| &&
            (forall i :: 0 <= i < |args| ==> args[i] == Fresh(descs, rank, values, descs[k].dependentKeys[i])) ==>
              Fresh(descs, rank, values, k) == descs[k].func(args)
  {
    hide FreshAll;
    if k in descs {
      var n := |descs[k].dependentKeys|;
      FreshAllIs(descs, rank, values, k, n);
      var all := FreshAll(descs, rank, values, k, n);
      if |args| == n && forall i :: 0 <= i < n ==> args[i] == Fresh(descs, rank, values, descs[k].dependentKeys[i]) {
        assert forall i :: 0 <= i < n ==> args[i] == all[i];
        assert args == all;
      }
    }
  }

  /** The table knows every dependency. */
  ghost predicate Recorded(descs: Descs, deps: Table) {
    forall k, i :: k in descs && 0 <= i < |descs[k].dependentKeys| ==> k in Dependents(deps, descs[k].dependentKeys[i])
  }

  /** Two descriptions of the object that differ at most in one property. */
  ghost predicate SameBut(descs: Descs, descs': Descs, values: map<Key, Value>, values': map<Key, Value>, c: Key) {
    forall k :: k != c ==>
      && (k in descs <==> k in descs') && (k in descs ==> descs[k] == descs'[k])
      && Stored(values, k) == Stored(values', k)
  }

  /** The value of `x` is computed from that of `c`, directly or not, or is that value. */
  ghost predicate Depends(descs: Descs, rank: Key -> nat, x: Key, c: Key)
    requires Ranked(descs, rank)
    decreases rank(x)
  {
    x == c || (x in descs && exists i ::
                 0 <= i < |descs[x].dependentKeys| && Depends(descs, rank, descs[x].dependentKeys[i], c))
  }

  /** No function gives the same result for different arguments. */
  ghost predicate Tells(descs: Descs) {
    forall k, a: seq<Value>, b: seq<Value> ::
      k in descs && |a| == |descs[k].dependentKeys| == |b| && a != b ==> descs[k].func(a) != descs[k].func(b)
  }

  /** What is computed from a property is among what it reaches. */
  lemma {:induction false} DependsReached(descs: Descs, rank: Key -> nat, deps: Table, x: Key, c: Key)
    requires Ranked(descs, rank) && Recorded(descs, deps) && Depends(descs, rank, x, c)
    ensures Reaches(deps, c, x)
    decreases rank(x)
  {
    hide Reaches;
    ReachesSelf(deps, c);
    if x != c {
      var i :| 0 <= i < |descs[x].dependentKeys| && Depends(descs, rank, descs[x].dependentKeys[i], c);
      DependsReached(descs, rank, deps, descs[x].dependentKeys[i], c);
      ReachesOn(deps, c, descs[x].dependentKeys[i], x);
    }
  }

  /**
   What is not computed from a changed property is worth what it was, and so is everything if its value is the
   same.
   */
  lemma {:induction false} Independent(descs: Descs, descs': Descs, rank: Key -> nat, values: map<Key, Value>,
                                       values': map<Key, Value>, c: Key, x: Key)
    requires Ranked(descs, rank) && Ranked(descs', rank) && SameBut(descs, descs', values, values', c)
    requires !Depends(descs, rank, x, c) || Fresh(descs, rank, values, c) == Fresh(descs', rank, values', c)
    ensures Fresh(descs, rank, values, x) == Fresh(descs', rank, values', x)
    decreases rank(x), 1
  {
    if x != c && x in descs {
      IndependentAll(descs, descs', rank, values, values', c, x, |descs[x].dependentKeys|);
    }
  }

  lemma {:induction false} IndependentAll(descs: Descs, descs': Descs, rank: Key -> nat, values: map<Key, Value>,
                                          values': map<Key, Value>, c: Key, x: Key, n: nat)
    requires Ranked(descs, rank) && Ranked(descs', rank) && SameBut(descs, descs', values, values', c)
    requires x != c && x in descs && n <= |descs[x].dependentKeys|
    requires !Depends(descs, rank, x, c) || Fresh(descs, rank, values, c) == Fresh(descs', rank, values', c)
    ensures x in descs' && descs'[x] == descs[x] &&
            FreshAll(descs, rank, values, x, n) == FreshAll(descs', rank, values', x, n)
    decreases rank(x), 0, n
  {
    assert descs'[x] == descs[x] by { SameAt(descs, descs', values, values', c, x); }
    if n > 0 {
      IndependentAll(descs, descs', rank, values, values', c, x, n - 1);
      Independent(descs, descs', rank, values, values', c, descs[x].dependentKeys[n - 1]);
    }
  }

  /** Where functions tell arguments apart, a new value shows in exactly what is computed from it. */
  lemma {:induction false} ChangeShows(descs: Descs, descs': Descs, rank: Key -> nat, values: map<Key, Value>,
                                       values': map<Key, Value>, c: Key, x: Key)
    requires Ranked(descs, rank) && Ranked(descs', rank) && SameBut(descs, descs', values, values', c) && Tells(descs)
    requires Fresh(descs, rank, values, c) != Fresh(descs', rank, values', c)
    ensures Fresh(descs, rank, values, x) != Fresh(descs', rank, values', x) <==> Depends(descs, rank, x, c)
    decreases rank(x), 1
  {
    if x != c && x in descs {
      var n := |descs[x].dependentKeys|;
      ChangeShowsAll(descs, descs', rank, values, values', c, x, n);
      ArgumentsTell(descs, x, FreshAll(descs, rank, values, x, n), FreshAll(descs', rank, values', x, n));
    }
  }

  lemma ArgumentsTell(descs: Descs, x: Key, a: seq<Value>, b: seq<Value>)
    requires Tells(descs) && x in descs && |a| == |descs[x].dependentKeys| == |b|
    ensures a == b <==> descs[x].func(a) == descs[x].func(b)
  {
  }

  lemma {:induction false} ChangeShowsAll(descs: Descs, descs': Descs, rank: Key -> nat, values: map<Key, Value>,
                                          values': map<Key, Value>, c: Key, x: Key, n: nat)
    requires Ranked(descs, rank) && Ranked(descs', rank) && SameBut(descs, descs', values, values', c) && Tells(descs)
    requires Fresh(descs, rank, values, c) != Fresh(descs', rank, values', c) && x != c && x in descs &&
             n <= |descs[x].dependentKeys|
    ensures x in descs' && descs'[x] == descs[x]
    ensures |FreshAll(descs, rank, values, x, n)| == n == |FreshAll(descs', rank, values', x, n)|
    ensures FreshAll(descs, rank, values, x, n) != FreshAll(descs', rank, values', x, n) <==>
            exists i :: 0 <= i < n && Depends(descs, rank, descs[x].dependentKeys[i], c)
    decreases rank(x), 0, n
  {
    hide Tells;
    assert descs'[x] == descs[x] by { SameAt(descs, descs', values, values', c, x); }
    hide SameBut;
    if n > 0 {
      var d := descs[x].dependentKeys[n - 1];
      ChangeShowsAll(descs, descs', rank, values, values', c, x, n - 1);
      ChangeShows(descs, descs', rank, values, values', c, d);
      SnocDiffers(FreshAll(descs, rank, values, x, n - 1), FreshAll(descs', rank, values', x, n - 1),
                  Fresh(descs, rank, values, d), Fresh(descs', rank, values', d));
    }
  }

  lemma SnocDiffers(a: seq<Value>, b: seq<Value>, u: Value, v: Value)
    requires |a| == |b|
    ensures a + [u] != b + [v] <==> a != b || u != v
  {
    assert (a + [u])[..|a|] == a && (b + [v])[..|b|] == b;
    assert (a + [u])[|a|] == u && (b + [v])[|b|] == v;
  }

  /** A change of one property matters only to what it reaches. */
  lemma Unreached(descs: Descs, descs': Descs, rank: Key -> nat, deps: Table, values: map<Key, Value>,
                  values': map<Key, Value>, c: Key, k: Key)
    requires Ranked(descs, rank) && Ranked(descs', rank) && Recorded(descs, deps) &&
             SameBut(descs, descs', values, values', c)
    requires !Reaches(deps, c, k)
    ensures Fresh(descs, rank, values, k) == Fresh(descs', rank, values', k)
  {
    if Depends(descs, rank, k, c) {
      DependsReached(descs, rank, deps, k, c);
    }
    Independent(descs, descs', rank, values, values', c, k);
  }

  lemma SameAt(descs: Descs, descs': Descs, values: map<Key, Value>, values': map<Key, Value>, c: Key, k: Key)
    requires SameBut(descs, descs', values, values', c) && k != c && k in descs
    ensures k in descs' && descs[k] == descs'[k]
  {
  }

  /** Every cached value is what recomputing would give. */
  ghost predicate Coherent(descs: Descs, rank: Key -> nat, values: map<Key, Value>, cache: map<Key, Value>)
    requires Ranked(descs, rank)
  {
    forall k :: k in cache ==> k in descs && descs[k].cacheable && cache[k] == Fresh(descs, rank, values, k)
  }

  /** Clearing what a change reaches is enough. */
  lemma ClearingKeeps(descs: Descs, descs': Descs, rank: Key -> nat, deps: Table, values: map<Key, Value>,
                      values': map<Key, Value>,
                      cache: map<Key, Value>, cleared: map<Key, Value>, c: Key)
    requires Ranked(descs, rank) && Ranked(descs', rank) && Recorded(descs, deps) &&
             Coherent(descs, rank, values, cache)
    requires SameBut(descs, descs', values, values', c)
    requires forall k :: k in cleared ==> k in cache && cleared[k] == cache[k] && !Reaches(deps, c, k)
    ensures Coherent(descs', rank, values', cleared)
  {
    hide Reaches, SameBut;
    ReachesSelf(deps, c);
    forall k | k in cleared
      ensures k in descs' && descs'[k].cacheable && cleared[k] == Fresh(descs', rank, values', k)
    {
      Unreached(descs, descs', rank, deps, values, values', c, k);
      assert descs'[k] == descs[k] by { SameAt(descs, descs', values, values', c, k); }
    }
  }

  /**
   A change after which only the property's own cached value is cleared.  The cache stays right if the value is
   the same or nothing in the cache is computed from it; and in no other case, where functions tell arguments
   apart.
   */
  lemma StaysRightExactly(descs: Descs, descs': Descs, rank: Key -> nat, values: map<Key, Value>,
                          values': map<Key, Value>, cache: map<Key, Value>, c: Key)
    requires Ranked(descs, rank) && Ranked(descs', rank) && SameBut(descs, descs', values, values', c)
    requires Coherent(descs, rank, values, cache - {c})
    ensures var harmless := Fresh(descs, rank, values, c) == Fresh(descs', rank, values', c) ||
                            forall x :: x in cache - {c} ==> !Depends(descs, rank, x, c);
            && (harmless ==> Coherent(descs', rank, values', cache - {c}))
            && (Tells(descs) ==> (Coherent(descs', rank, values', cache - {c}) <==> harmless))
  {
    hide Tells, SameBut, Depends;
    forall x | x in cache - {c}
      ensures x in descs' && descs'[x] == descs[x]
      ensures !Depends(descs, rank, x, c) || Fresh(descs, rank, values, c) == Fresh(descs', rank, values', c) ==>
                Fresh(descs, rank, values, x) == Fresh(descs', rank, values', x)
      ensures Tells(descs) && Fresh(descs, rank, values, c) != Fresh(descs', rank, values', c) ==>
                (Fresh(descs, rank, values, x) != Fresh(descs', rank, values', x) <==> Depends(descs, rank, x, c))
    {
      SameAt(descs, descs', values, values', c, x);
      if !Depends(descs, rank, x, c) || Fresh(descs, rank, values, c) == Fresh(descs', rank, values', c) {
        Independent(descs, descs', rank, values, values', c, x);
      }
      if Tells(descs) && Fresh(descs, rank, values, c) != Fresh(descs', rank, values', c) {
        ChangeShows(descs, descs', rank, values, values', c, x);
      }
    }
  }

  /** Nothing is computed from a property that is no dependency. */
  lemma NobodyDepends(descs: Descs, rank: Key -> nat, cache: map<Key, Value>, c: Key)
    requires Ranked(descs, rank) && forall k, i :: k in descs && 0 <= i < |descs[k].dependentKeys| ==>
             descs[k].dependentKeys[i] != c
    requires c !in cache
    ensures forall x :: x in cache ==> !Depends(descs, rank, x, c)
  {
    forall x | x != c
      ensures !Depends(descs, rank, x, c)
    {
      NeverDepends(descs, rank, x, c);
    }
  }

  lemma {:induction false} NeverDepends(descs: Descs, rank: Key -> nat, x: Key, c: Key)
    requires Ranked(descs, rank) && forall k, i :: k in descs && 0 <= i < |descs[k].dependentKeys| ==>
             descs[k].dependentKeys[i] != c
    requires x != c
    ensures !Depends(descs, rank, x, c)
    decreases rank(x)
  {
    if x in descs {
      forall i | 0 <= i < |descs[x].dependentKeys|
        ensures !Depends(descs, rank, descs[x].dependentKeys[i], c)
      {
        NeverDepends(descs, rank, descs[x].dependentKeys[i], c);
      }
    }
  }

  // ----- how often a key hears of a change

  /** How many of the keys in `s` have `x` among their dependents. */
  ghost function Edges(deps: Table, s: set<Key>, x: Key): nat {
    |set d | d in s && x in Dependents(deps, d)|
  }

  lemma EdgesSplit(deps: Table, s: set<Key>, t: set<Key>, x: Key)
    requires s !! t
    ensures Edges(deps, s + t, x) == Edges(deps, s, x) + Edges(deps, t, x)
  {
    var a, b := set d | d in s && x in Dependents(deps, d), set d | d in t && x in Dependents(deps, d);
    assert (set d | d in s + t && x in Dependents(deps, d)) == a + b;
    assert a !! b;
  }

  lemma EdgesOne(deps: Table, k: Key, x: Key)
    ensures Edges(deps, {k}, x) == if x in Dependents(deps, k) then 1 else 0
  {
    var only: set<Key> := {k};
    var s := set d | d in only && x in Dependents(deps, d);
    assert Edges(deps, only, x) == |s|;
    if x in Dependents(deps, k) {
      assert s == {k};
    } else {
      assert s == {};
    }
  }

  datatype Watcher =
    | Observer
    | Dependent(k: Key)

  // ----- the search

  /** How often a key occurs in a list of notifications. */
  ghost function Times(notified: seq<Key>, x: Key): nat {
    multiset(notified)[x]
  }

  /**
   What a search from `k` does when `seen` has been searched before: it reaches `seen'`, closed except for
   what the caller is still busy with, clears the cache there, and notifies a key once for every newly
   searched key that it depends on, and `k` itself `once` more.
   */
  ghost predicate Searched(deps: Table, k: Key, seen: set<Key>, seen': set<Key>, cache: map<Key, Value>,
                           cache': map<Key, Value>,
                           changed: seq<Key>, changed': seq<Key>, once: nat) {
    && seen <= seen' && k in seen'
    && (forall x :: x in seen' - seen ==> Reaches(deps, k, x) && Dependents(deps, x) <= seen')
    && cache' == cache - seen'
    && |changed| <= |changed'| && changed'[..|changed|] == changed
    && (forall x :: Times(changed'[|changed|..], x) == Edges(deps, seen' - seen, x) + (if x == k then once else 0))
  }

  /** While the dependents of `k` are being gone through: `done` of them are behind. */
  ghost predicate Searching(deps: Table, k: Key, done: set<Key>, seen: set<Key>, seen': set<Key>,
                            cache: map<Key, Value>, cache': map<Key, Value>,
                            changed: seq<Key>, changed': seq<Key>) {
    && seen + {k} <= seen' && k !in seen && done <= seen' && done <= Dependents(deps, k)
    && (forall x :: x in seen' - seen - {k} ==> Reaches(deps, k, x) && Dependents(deps, x) <= seen')
    && cache' == cache - seen'
    && |changed| <= |changed'| && changed'[..|changed|] == changed
    && (forall x ::
          Times(changed'[|changed|..], x) == Edges(deps, seen' - seen - {k}, x) + (if x in done then 1 else 0))
  }

  lemma SearchStarts(deps: Table, k: Key, seen: set<Key>, cache: map<Key, Value>, changed: seq<Key>)
    requires k !in seen && cache - (seen + {k}) == cache
    ensures Searching(deps, k, {}, seen, seen + {k}, cache, cache, changed, changed)
  {
    assert seen + {k} - seen - {k} == {};
    forall x ensures Edges(deps, {}, x) == 0 {
      assert (set d | d in {} && x in Dependents(deps, d)) == {};
    }
  }

  /** One more dependent has been searched. */
  lemma SearchStep(deps: Table, k: Key, done: set<Key>, key: Key, seen: set<Key>, seen': set<Key>, seen'': set<Key>,
                   cache: map<Key, Value>, cache': map<Key, Value>, cache'': map<Key, Value>,
                   changed: seq<Key>, changed': seq<Key>, changed'': seq<Key>)
    requires Searching(deps, k, done, seen, seen', cache, cache', changed, changed')
    requires key in Dependents(deps, k) && key !in done
    requires Searched(deps, key, seen', seen'', cache', cache'', changed', changed'', 1)
    ensures Searching(deps, k, done + {key}, seen, seen'', cache, cache'', changed, changed'')
  {
    hide Edges, Reaches, Times;
    forall x | x in seen'' - seen - {k}
      ensures Reaches(deps, k, x) && Dependents(deps, x) <= seen''
    {
      if x !in seen' {
        ReachesFrom(deps, k, key, x);
      }
    }
    assert changed''[..|changed|] == changed''[..|changed'|][..|changed|];
    forall x
      ensures Times(changed''[|changed|..], x) ==
              Edges(deps, seen'' - seen - {k}, x) + (if x in done + {key} then 1 else 0)
    {
      var old', more := seen' - seen - {k}, seen'' - seen';
      EdgesSplit(deps, old', more, x);
      assert old' + more == seen'' - seen - {k};
      TimesSplit(changed, changed', changed'', x);
    }
  }

  lemma TimesSplit(a: seq<Key>, b: seq<Key>, c: seq<Key>, x: Key)
    requires |a| <= |b| <= |c| && c[..|b|] == b
    ensures Times(c[|a|..], x) == Times(b[|a|..], x) + Times(c[|b|..], x)
  {
    assert c[|a|..] == b[|a|..] + c[|b|..];
  }

  lemma SearchClears(deps: Table, k: Key, done: set<Key>, seen: set<Key>, seen': set<Key>, cache: map<Key, Value>,
                     cache': map<Key, Value>,
                     changed: seq<Key>, changed': seq<Key>)
    requires Searching(deps, k, done, seen, seen', cache, cache', changed, changed')
    ensures cache' - seen' == cache' && cache'.Keys <= cache.Keys && seen + {k} <= seen'
  {
  }

  /** All dependents have been searched. */
  lemma SearchEnds(deps: Table, k: Key, seen: set<Key>, seen': set<Key>, cache: map<Key, Value>,
                   cache': map<Key, Value>, changed: seq<Key>, changed': seq<Key>)
    requires Searching(deps, k, Dependents(deps, k), seen, seen', cache, cache', changed, changed')
    ensures Searched(deps, k, seen, seen', cache, cache', changed, changed', 0)
  {
    hide Edges, Reaches, Times;
    ReachesSelf(deps, k);
    forall x
      ensures Times(changed'[|changed|..], x) == Edges(deps, seen' - seen, x)
    {
      EdgesSplit(deps, seen' - seen - {k}, {k}, x);
      assert seen' - seen - {k} + {k} == seen' - seen;
      EdgesOne(deps, k, x);
    }
  }

  /** A cache from which what has been searched is gone, and a key. */
  lemma CacheWithout(cache: map<Key, Value>, seen: set<Key>, k: Key)
    requires cache - seen == cache
    ensures cache - {k} - seen == cache - {k} && (k !in cache ==> cache - {k} == cache && cache - (seen + {k}) == cache)
  {
  }

  lemma SearchKnown(deps: Table, k: Key, seen: set<Key>, cache: map<Key, Value>, changed: seq<Key>)
    requires k in seen && cache - seen == cache
    ensures Searched(deps, k, seen, seen, cache, cache, changed, changed, 0)
  {
    assert seen - seen == {};
    forall x ensures Edges(deps, {}, x) == 0 {
      assert (set d | d in {} && x in Dependents(deps, d)) == {};
    }
  }

  /** The key's own cached value and notification come on top. */
  lemma SearchNotifies(deps: Table, k: Key, seen: set<Key>, seen': set<Key>, cache: map<Key, Value>,
                       cache': map<Key, Value>, changed: seq<Key>, changed': seq<Key>)
    requires Searched(deps, k, seen, seen', cache - {k}, cache', changed, changed', 0)
    ensures Searched(deps, k, seen, seen', cache, cache', changed, changed' + [k], 1) && |changed| <= |changed'|
  {
    hide Edges, Reaches;
    assert cache - {k} - seen' == cache - seen';
    assert (changed' + [k])[..|changed|] == changed;
    forall x
      ensures Times((changed' + [k])[|changed|..], x) == Edges(deps, seen' - seen, x) + (if x == k then 1 else 0)
    {
      assert (changed' + [k])[|changed|..] == changed'[|changed|..] + [k];
    }
  }

  // ----- watching

  function Watch(watching: map<Key, nat>, d: Key): nat {
    if d in watching then watching[d] else 0
  }

  function DependencyList(descs: Descs, k: Key): seq<Key> {
    if k in descs then descs[k].dependentKeys else []
  }

  ghost function WatchersOf(ws: map<Key, multiset<Watcher>>, d: Key): multiset<Watcher> {
    if d in ws then ws[d] else multiset{}
  }

  /** The watch counts and the dependency counts tally with who is watching. */
  ghost predicate Tallies(ws: map<Key, multiset<Watcher>>, watching: map<Key, nat>, deps: Table) {
    WatchTallies(ws, watching) && CountTallies(ws, deps)
  }

  ghost predicate WatchTallies(ws: map<Key, multiset<Watcher>>, watching: map<Key, nat>) {
    forall d: Key :: Watch(watching, d) == |WatchersOf(ws, d)|
  }

  ghost predicate CountTallies(ws: map<Key, multiset<Watcher>>, deps: Table) {
    forall d: Key, k: Key :: Count(deps, d, k) == WatchersOf(ws, d)[Dependent(k)]
  }

  ghost function Joined(ws: map<Key, multiset<Watcher>>, d: Key, w: Watcher): map<Key, multiset<Watcher>> {
    ws[d := WatchersOf(ws, d) + multiset{w}]
  }

  ghost function Left(ws: map<Key, multiset<Watcher>>, d: Key, w: Watcher): map<Key, multiset<Watcher>> {
    ws[d := WatchersOf(ws, d) - multiset{w}]
  }

  lemma JoinTallies(ws: map<Key, multiset<Watcher>>, watching: map<Key, nat>, d: Key, w: Watcher)
    requires WatchTallies(ws, watching)
    ensures WatchTallies(Joined(ws, d, w), watching[d := Watch(watching, d) + 1])
    ensures forall e: Key, x: Key :: WatchersOf(Joined(ws, d, w), e)[Dependent(x)] ==
              WatchersOf(ws, e)[Dependent(x)] + (if e == d && w == Dependent(x) then 1 else 0)
  {
    forall e: Key
      ensures Watch(watching[d := Watch(watching, d) + 1], e) == |WatchersOf(Joined(ws, d, w), e)|
    {
      assert Watch(watching, e) == |WatchersOf(ws, e)|;
    }
  }

  lemma SomeoneWatches(ws: map<Key, multiset<Watcher>>, watching: map<Key, nat>, d: Key, w: Watcher)
    requires WatchTallies(ws, watching) && w in WatchersOf(ws, d)
    ensures Watch(watching, d) > 0
  {
  }

  lemma LeaveTallies(ws: map<Key, multiset<Watcher>>, watching: map<Key, nat>, d: Key, w: Watcher, n: nat)
    requires WatchTallies(ws, watching) && w in WatchersOf(ws, d) && n + 1 == Watch(watching, d)
    ensures WatchTallies(Left(ws, d, w), watching[d := n])
    ensures forall e: Key, x: Key :: WatchersOf(Left(ws, d, w), e)[Dependent(x)] ==
              WatchersOf(ws, e)[Dependent(x)] - (if e == d && w == Dependent(x) then 1 else 0)
  {
    forall e: Key
      ensures Watch(watching[d := n], e) == |WatchersOf(Left(ws, d, w), e)|
    {
      assert Watch(watching, e) == |WatchersOf(ws, e)|;
      if e == d {
        assert WatchersOf(ws, d) == WatchersOf(Left(ws, d, w), d) + multiset{w};
      }
    }
  }

  /** Only the row of `d`, and there only the count of `k`, changes. */
  lemma CountSet(deps: Table, d: Key, k: Key, row: map<Key, nat>, n: nat)
    requires row == if d in deps then deps[d] else map[]
    ensures forall e: Key, x: Key :: Count(deps[d := row[k := n]], e, x) == if e == d && x == k then n
            else Count(deps, e, x)
  {
    var deps' := deps[d := row[k := n]];
    forall e: Key, x: Key
      ensures Count(deps', e, x) == if e == d && x == k then n else Count(deps, e, x)
    {
      if e == d {
        assert deps'[e] == row[k := n];
      } else {
        assert e in deps' <==> e in deps;
      }
    }
  }

  /** The key joins the dependents of `d`, whatever its count. */
  lemma DependentsSet(deps: Table, d: Key, k: Key, row: map<Key, nat>, n: nat)
    requires row == if d in deps then deps[d] else map[]
    ensures forall e: Key :: Dependents(deps[d := row[k := n]], e) ==
              Dependents(deps, e) + if e == d then {k} else {}
  {
    assert row[k := n].Keys == row.Keys + {k};
  }

  lemma Counted(deps: Table, d: Key, k: Key)
    requires Count(deps, d, k) > 0
    ensures d in deps && k in Dependents(deps, d)
  {
  }

  lemma DependentAdded(ws: map<Key, multiset<Watcher>>, descs: Descs, d: Key, k: Key, list: seq<Key>)
    requires Owes(ws, descs, k, list)
    requires forall e: Key, x: Key :: WatchersOf(Joined(ws, d, Dependent(k)), e)[Dependent(x)] ==
               WatchersOf(ws, e)[Dependent(x)] + (if e == d && x == k then 1 else 0)
    ensures Owes(Joined(ws, d, Dependent(k)), descs, k, list + [d])
  {
    assert multiset(list + [d]) == multiset(list) + multiset{d};
    OwesMoves(ws, Joined(ws, d, Dependent(k)), descs, d, k, list, list + [d], 1);
  }

  /** One watcher more or less, and one dependency more or less on the list. */
  lemma OwesMoves(ws: map<Key, multiset<Watcher>>, ws': map<Key, multiset<Watcher>>, descs: Descs, d: Key, k: Key,
                  list: seq<Key>, list': seq<Key>, step: int)
    requires Owes(ws, descs, k, list)
    requires forall e: Key, x: Key ::
               WatchersOf(ws', e)[Dependent(x)] ==
               WatchersOf(ws, e)[Dependent(x)] + (if e == d && x == k then step else 0)
    requires forall e: Key :: multiset(list')[e] == multiset(list)[e] + if e == d then step else 0
    ensures Owes(ws', descs, k, list')
  {
    hide WatchersOf;
    forall e: Key
      ensures WatchersOf(ws', e)[Dependent(k)] == multiset(list')[e]
    {
      assert WatchersOf(ws, e)[Dependent(k)] == multiset(list)[e];
    }
    forall e: Key, x: Key | x != k
      ensures WatchersOf(ws', e)[Dependent(x)] == if x in descs then multiset(descs[x].dependentKeys)[e] else 0
    {
      assert WatchersOf(ws', e)[Dependent(x)] == WatchersOf(ws, e)[Dependent(x)];
    }
  }

  lemma DependentRemoved(ws: map<Key, multiset<Watcher>>, descs: Descs, d: Key, k: Key, list: seq<Key>)
    requires Owes(ws, descs, k, [d] + list)
    requires forall e: Key, x: Key :: WatchersOf(Left(ws, d, Dependent(k)), e)[Dependent(x)] ==
               WatchersOf(ws, e)[Dependent(x)] - (if e == d && x == k then 1 else 0)
    ensures Owes(Left(ws, d, Dependent(k)), descs, k, list)
  {
    assert multiset([d] + list) == multiset{d} + multiset(list);
    OwesMoves(ws, Left(ws, d, Dependent(k)), descs, d, k, [d] + list, list, -1);
  }

  lemma FirstOwed(ws: map<Key, multiset<Watcher>>, descs: Descs, d: Key, k: Key, list: seq<Key>)
    requires Owes(ws, descs, k, [d] + list)
    ensures Dependent(k) in WatchersOf(ws, d)
  {
    assert multiset([d] + list) == multiset{d} + multiset(list);
    assert WatchersOf(ws, d)[Dependent(k)] > 0;
  }

  lemma ObserverKeepsOwed(ws: map<Key, multiset<Watcher>>, ws': map<Key, multiset<Watcher>>, descs: Descs, deps: Table)
    requires AllOwe(ws, descs) && CountTallies(ws, deps)
    requires forall e: Key, x: Key :: WatchersOf(ws', e)[Dependent(x)] == WatchersOf(ws, e)[Dependent(x)]
    ensures AllOwe(ws', descs) && CountTallies(ws', deps)
  {
    hide WatchersOf, Count;
  }

  lemma CountsMove(ws: map<Key, multiset<Watcher>>, ws': map<Key, multiset<Watcher>>, deps: Table, deps': Table,
                   d: Key, k: Key, step: int)
    requires CountTallies(ws, deps)
    requires forall e: Key, x: Key ::
               WatchersOf(ws', e)[Dependent(x)] ==
               WatchersOf(ws, e)[Dependent(x)] + (if e == d && x == k then step else 0)
    requires forall e: Key, x: Key :: Count(deps', e, x) == if e == d && x == k then Count(deps, d, k) + step
             else Count(deps, e, x)
    ensures CountTallies(ws', deps')
  {
    hide WatchersOf, Count;
  }

  /** Every property watches its dependencies; `k` watches those in `list`. */
  ghost predicate Owes(ws: map<Key, multiset<Watcher>>, descs: Descs, k: Key, list: seq<Key>) {
    && (forall d: Key :: WatchersOf(ws, d)[Dependent(k)] == multiset(list)[d])
    && (forall d: Key, x: Key :: x != k ==> WatchersOf(ws, d)[Dependent(x)] == if x in descs then
        multiset(descs[x].dependentKeys)[d] else 0)
  }

  ghost predicate AllOwe(ws: map<Key, multiset<Watcher>>, descs: Descs) {
    forall d: Key, x: Key :: WatchersOf(ws, d)[Dependent(x)] == if x in descs then multiset(descs[x].dependentKeys)[d]
        else 0
  }

  lemma OwesAll(ws: map<Key, multiset<Watcher>>, descs: Descs, k: Key)
    requires AllOwe(ws, descs)
    ensures Owes(ws, descs, k, DependencyList(descs, k))
  {
  }

  lemma OwesOther(ws: map<Key, multiset<Watcher>>, descs: Descs, k: Key, desc: Computed)
    requires Owes(ws, descs, k, [])
    ensures Owes(ws, descs[k := desc], k, [])
  {
  }

  lemma AllOweAgain(ws: map<Key, multiset<Watcher>>, descs: Descs, k: Key)
    requires k in descs && Owes(ws, descs, k, descs[k].dependentKeys)
    ensures AllOwe(ws, descs)
  {
  }

  lemma TalliesRecord(ws: map<Key, multiset<Watcher>>, watching: map<Key, nat>, descs: Descs, deps: Table)
    requires Tallies(ws, watching, deps) && AllOwe(ws, descs)
    ensures Recorded(descs, deps)
  {
    forall k, i | k in descs && 0 <= i < |descs[k].dependentKeys|
      ensures k in Dependents(deps, descs[k].dependentKeys[i])
    {
      var d := descs[k].dependentKeys[i];
      assert d in multiset(descs[k].dependentKeys);
      assert Count(deps, d, k) == WatchersOf(ws, d)[Dependent(k)];
    }
  }

  /** A key that some property depends on has a positive watch count. */
  lemma DependedOnIsWatched(ws: map<Key, multiset<Watcher>>, watching: map<Key, nat>, descs: Descs, deps: Table,
                            k: Key, i: nat)
    requires Tallies(ws, watching, deps) && AllOwe(ws, descs) && k in descs && i < |descs[k].dependentKeys|
    ensures Watch(watching, descs[k].dependentKeys[i]) > 0
  {
    var d := descs[k].dependentKeys[i];
    assert d in multiset(descs[k].dependentKeys);
    assert WatchersOf(ws, d)[Dependent(k)] > 0;
    assert Dependent(k) in WatchersOf(ws, d);
  }

  lemma Unwatched(ws: map<Key, multiset<Watcher>>, watching: map<Key, nat>, descs: Descs, deps: Table, c: Key)
    requires Tallies(ws, watching, deps) && AllOwe(ws, descs) && Watch(watching, c) == 0
    ensures forall k, i :: k in descs && 0 <= i < |descs[k].dependentKeys| ==> descs[k].dependentKeys[i] != c
  {
    forall k, i | k in descs && 0 <= i < |descs[k].dependentKeys|
      ensures descs[k].dependentKeys[i] != c
    {
      DependedOnIsWatched(ws, watching, descs, deps, k, i);
    }
  }

  class Host {
    const rank: Key -> nat
    var descs: Descs
    var values: map<Key, Value>
    var cache: map<Key, Value>
    var deps: Table
    var watching: map<Key, nat>
    var didSeen: Option<set<Key>>  // DID_SEEN
    var changed: seq<Key>  // the change events sent

    ghost var watchers: map<Key, multiset<Watcher>>

    ghost function Seen(): set<Key>
      reads this
    {
      if didSeen.Some? then didSeen.value else {}
    }

    /** A key has changed: its cached value goes, then those of its dependents, and then its observers hear of it. */
    method PropertyDidChange(k: Key) returns (ghost reached: set<Key>)
      requires cache - Seen() == cache && forall x :: x in cache ==> x in descs && descs[x].cacheable
      modifies `cache, `didSeen, `changed
      ensures Searched(deps, k, old(Seen()), reached, old(cache), cache, old(changed), changed, 1)
      ensures |old(changed)| < |changed| && changed[|changed| - 1] == k
      ensures didSeen == if old(didSeen).None? then None else Some(reached)
      decreases |deps.Keys - Seen()|, 2
    {
      hide Searched;
      CacheWithout(cache, Seen(), k);
      if k in descs && descs[k].cacheable {
        cache := cache - {k};
      }
      reached := DependentKeysDidChange(k);
      SearchNotifies(deps, k, old(Seen()), reached, old(cache), cache, old(changed), changed);
      changed := changed + [k];
    }

    method DependentKeysDidChange(depKey: Key) returns (ghost reached: set<Key>)
      requires cache - Seen() == cache && depKey !in cache &&
               forall x :: x in cache ==> x in descs && descs[x].cacheable
      modifies `cache, `didSeen, `changed
      ensures Searched(deps, depKey, old(Seen()), reached, old(cache), cache, old(changed), changed, 0)
      ensures didSeen == if old(didSeen).None? then None else Some(reached)
      decreases |deps.Keys - Seen()|, 1
    {
      hide Searched;
      var top := didSeen.None?;
      if top { didSeen := Some({}); }
      IterDeps(depKey);
      reached := didSeen.value;
      if top { didSeen := None; }
    }

    /** Goes on to the dependents of a key, once in a search. */
    method IterDeps(depKey: Key)
      requires didSeen.Some? && cache - Seen() == cache && depKey !in cache &&
               forall x :: x in cache ==> x in descs && descs[x].cacheable
      modifies `cache, `didSeen, `changed
      ensures didSeen.Some? && Searched(deps, depKey, old(Seen()), Seen(), old(cache), cache, old(changed), changed, 0)
      decreases |deps.Keys - Seen()|, 0
    {
      hide Searched, Searching;
      var seen := didSeen.value;
      if depKey in seen {
        SearchKnown(deps, depKey, seen, cache, changed);
        return;
      }
      didSeen := Some(seen + {depKey});
      CacheWithout(cache, seen, depKey);
      SearchStarts(deps, depKey, seen, cache, changed);
      if depKey in deps {
        var rest, done := deps[depKey].Keys, {};
        assert deps.Keys - (seen + {depKey}) < deps.Keys - seen;
        while rest != {}
          invariant didSeen.Some? && rest + done == Dependents(deps, depKey) && rest !! done
          invariant Searching(deps, depKey, done, seen, Seen(), old(cache), cache, old(changed), changed)
          decreases rest
        {
          var key :| key in rest;
          rest := rest - {key};
          ghost var seen', cache', changed' := Seen(), cache, changed;
          SearchClears(deps, depKey, done, seen, seen', old(cache), cache, old(changed), changed);
          Collections.Smaller(deps.Keys - seen', deps.Keys - seen, depKey);
          ghost var reached := PropertyDidChange(key);
          SearchStep(deps, depKey, done, key, seen, seen', reached, old(cache), cache', cache, old(changed), changed',
                     changed);
          done := done + {key};
        }
        assert done == Dependents(deps, depKey);
      }
      SearchEnds(deps, depKey, seen, Seen(), old(cache), cache, old(changed), changed);
    }

    // ----- watching and defining

    method WatchKey(k: Key, ghost w: Watcher)
      modifies `watching, `watchers
      ensures watching == old(watching)[k := Watch(old(watching), k) + 1]
      ensures watchers == Joined(old(watchers), k, w)
    {
      if Watch(watching, k) == 0 {
        watching := watching[k := 1];
      } else {
        watching := watching[k := watching[k] + 1];
      }
      watchers := Joined(watchers, k, w);
    }

    method UnwatchKey(k: Key, ghost w: Watcher)
      requires Watch(watching, k) == |WatchersOf(watchers, k)| && w in WatchersOf(watchers, k)
      modifies `watching, `watchers
      ensures Watch(old(watching), k) > 0 && watching == old(watching)[k := Watch(old(watching), k) - 1]
      ensures watchers == Left(old(watchers), k, w)
    {
      if watching[k] == 1 {
        watching := watching[k := 0];
      } else {
        watching := watching[k := watching[k] - 1];
      }
      watchers := Left(watchers, k, w);
    }

    method AddObserver(k: Key)
      requires Valid()
      modifies `watching, `watchers
      ensures Valid() && Watch(watching, k) == Watch(old(watching), k) + 1
    {
      hide Recorded, Coherent, Ranked, AllOwe, WatchTallies, CountTallies, Joined;
      JoinTallies(watchers, watching, k, Observer);
      ObserverKeepsOwed(watchers, Joined(watchers, k, Observer), descs, deps);
      WatchKey(k, Observer);
    }

    /**
     Takes one watch away, whoever it was counted for: the counts do not tell.  They tally afterwards exactly
     if the observer had been added, or nobody was watching.
     */
    method RemoveObserver(k: Key)
      requires Valid()
      modifies `watching, `watchers
      ensures Watch(watching, k) == if Watch(old(watching), k) == 0 then 0 else Watch(old(watching), k) - 1
      ensures forall d :: d != k ==> Watch(watching, d) == Watch(old(watching), d)
      ensures Valid() <==> Observer in WatchersOf(old(watchers), k) || Watch(old(watching), k) == 0
    {
      hide Recorded, Coherent, Ranked, AllOwe, CountTallies, Left, Joined;
      if Observer in WatchersOf(watchers, k) {
        SomeoneWatches(watchers, watching, k, Observer);
        LeaveTallies(watchers, watching, k, Observer, Watch(watching, k) - 1);
        ObserverKeepsOwed(watchers, Left(watchers, k, Observer), descs, deps);
        watchers := Left(watchers, k, Observer);
      }
      if Watch(watching, k) == 1 {
        watching := watching[k := 0];
      } else if Watch(watching, k) > 1 {
        watching := watching[k := watching[k] - 1];
      }
    }

    method AddDependentKey(keyName: Key, depKey: Key, ghost list: seq<Key>)
      requires Tallies(watchers, watching, deps) && Owes(watchers, descs, keyName, list)
      modifies `watching, `watchers, `deps
      ensures Tallies(watchers, watching, deps) && Owes(watchers, descs, keyName, list + [depKey])
      ensures forall d :: Watch(watching, d) == Watch(old(watching), d) + if d == depKey then 1 else 0
      ensures forall d :: Dependents(deps, d) == Dependents(old(deps), d) + if d == depKey then {keyName} else {}
    {
      hide Owes, WatchTallies, CountTallies, Joined, Count, Dependents;
      var row: map<Key, nat> := if depKey in deps then deps[depKey] else map[];
      CountSet(deps, depKey, keyName, row, Count(deps, depKey, keyName) + 1);
      DependentsSet(deps, depKey, keyName, row, Count(deps, depKey, keyName) + 1);
      JoinTallies(watchers, watching, depKey, Dependent(keyName));
      DependentAdded(watchers, descs, depKey, keyName, list);
      CountsMove(watchers, Joined(watchers, depKey, Dependent(keyName)), deps,
                 deps[depKey := row[keyName := Count(deps, depKey, keyName) + 1]], depKey, keyName, 1);
      deps := deps[depKey := row[keyName := Count(deps, depKey, keyName) + 1]];
      WatchKey(depKey, Dependent(keyName));
    }

    /** The watch goes, but the table does not forget the dependent. */
    method RemoveDependentKey(keyName: Key, depKey: Key, ghost list: seq<Key>)
      requires Tallies(watchers, watching, deps) && Owes(watchers, descs, keyName, [depKey] + list)
      modifies `watching, `watchers, `deps
      ensures Tallies(watchers, watching, deps) && Owes(watchers, descs, keyName, list)
      ensures forall d :: Watch(watching, d) == Watch(old(watching), d) - if d == depKey then 1 else 0
      ensures forall d :: Dependents(deps, d) == Dependents(old(deps), d)
    {
      hide Owes, Left, Dependents;
      FirstOwed(watchers, descs, depKey, keyName, list);
      assert Count(deps, depKey, keyName) > 0;
      var count: nat := Count(deps, depKey, keyName) - 1;
      var row: map<Key, nat> := deps[depKey];
      CountSet(deps, depKey, keyName, row, count);
      Counted(deps, depKey, keyName);
      DependentsSet(deps, depKey, keyName, row, count);
      SomeoneWatches(watchers, watching, depKey, Dependent(keyName));
      LeaveTallies(watchers, watching, depKey, Dependent(keyName), Watch(watching, depKey) - 1);
      DependentRemoved(watchers, descs, depKey, keyName, list);
      CountsMove(watchers, Left(watchers, depKey, Dependent(keyName)), deps, deps[depKey := row[keyName := count]],
                 depKey, keyName, -1);
      deps := deps[depKey := row[keyName := count]];
      UnwatchKey(depKey, Dependent(keyName));
    }

    /** The descriptor that was there goes: its dependencies are no longer watched, its cached value is dropped. */
    method Teardown(k: Key)
      requires Tallies(watchers, watching, deps) && AllOwe(watchers, descs)
      modifies `watching, `watchers, `deps, `cache, `values
      ensures Tallies(watchers, watching, deps) && Owes(watchers, descs, k, [])
      ensures forall d :: Watch(watching, d) == Watch(old(watching), d) - multiset(DependencyList(descs, k))[d]
      ensures forall d :: Dependents(deps, d) == Dependents(old(deps), d)
      ensures cache == (if k in descs && descs[k].cacheable then old(cache) - {k} else old(cache))
      ensures values == if k in descs then old(values) else old(values) - {k}
    {
      hide Tallies, Owes, AllOwe, Dependents, Watch;
      if k in descs {
        var keys := descs[k].dependentKeys;
        OwesAll(watchers, descs, k);
        var i := 0;
        assert keys[0..] == keys;
        while i < |keys|
          invariant 0 <= i <= |keys|
          invariant Tallies(watchers, watching, deps) && Owes(watchers, descs, k, keys[i..])
          invariant forall d :: Watch(watching, d) == Watch(old(watching), d) - multiset(keys[..i])[d]
          invariant forall d :: Dependents(deps, d) == Dependents(old(deps), d)
          invariant cache == old(cache) && values == old(values)
        {
          assert keys[i..] == [keys[i]] + keys[i + 1..] && keys[..i + 1] == keys[..i] + [keys[i]];
          RemoveDependentKey(k, keys[i], keys[i + 1..]);
          i := i + 1;
        }
        assert keys[i..] == [] && keys[..i] == keys;
        if descs[k].cacheable { cache := cache - {k}; }
      } else {
        OwesAll(watchers, descs, k);
        values := values - {k};
      }
    }

    method AddDependentKeys(k: Key, keys: seq<Key>)
      requires Tallies(watchers, watching, deps) && Owes(watchers, descs, k, [])
      modifies `watching, `watchers, `deps
      ensures Tallies(watchers, watching, deps) && Owes(watchers, descs, k, keys)
      ensures forall d :: Watch(watching, d) == Watch(old(watching), d) + multiset(keys)[d]
      ensures forall d :: Dependents(deps, d) == Dependents(old(deps), d) + if d in keys then {k} else {}
    {
      hide Tallies, Owes, Watch, Dependents;
      var i := 0;
      while i < |keys|
        invariant 0 <= i <= |keys|
        invariant Tallies(watchers, watching, deps) && Owes(watchers, descs, k, keys[..i])
        invariant forall d :: Watch(watching, d) == Watch(old(watching), d) + multiset(keys[..i])[d]
        invariant forall d :: Dependents(deps, d) == Dependents(old(deps), d) + if d in keys[..i] then {k} else {}
      {
        assert keys[..i + 1] == keys[..i] + [keys[i]];
        AddDependentKey(k, keys[i], keys[..i]);
        i := i + 1;
      }
      assert keys[..i] == keys;
    }

    /**
     Defines a computed property, in place of what was there: its dependencies are watched once more, and those
     of the old one once less.  Nothing that is computed from the key leaves the cache.
     */
    method DefineComputed(k: Key, desc: Computed)
      requires Valid() && forall i :: 0 <= i < |desc.dependentKeys| ==> rank(desc.dependentKeys[i]) < rank(k)
      modifies `watching, `watchers, `deps, `cache, `values, `descs
      ensures Usable() && descs == old(descs)[k := desc]
      ensures forall d :: Watch(watching, d) ==
                Watch(old(watching), d) - multiset(DependencyList(old(descs), k))[d] + multiset(desc.dependentKeys)[d]
      ensures forall d :: Dependents(deps, d) == Dependents(old(deps), d) + if d in desc.dependentKeys then {k} else {}
      ensures var harmless := Fresh(old(descs), rank, old(values), k) == Fresh(descs, rank, values, k) ||
                              forall x :: x in cache ==> !Depends(old(descs), rank, x, k);
              (harmless ==> Valid()) && (Tells(old(descs)) ==> (Valid() <==> harmless))
      ensures (forall x :: x in old(cache) && x != k ==> !Reaches(old(deps), k, x)) ==> Valid()
      ensures cache == old(cache) - {k} && values == if k in old(descs) then old(values) else old(values) - {k}
    {
      hide Tallies, Owes, AllOwe, Reaches, Coherent, Recorded, Tells, Depends, Fresh, Watch, Ranked, SameBut,
           Dependents;
      assert forall x :: x in cache ==> x in descs && descs[x].cacheable by {
        CachedAreCacheable(descs, rank, values, cache);
      }
      Teardown(k);
      assert cache == old(cache) - {k};
      OwesOther(watchers, descs, k, desc);
      descs := descs[k := desc];
      AddDependentKeys(k, desc.dependentKeys);
      AllOweAgain(watchers, descs, k);
      TalliesRecord(watchers, watching, descs, deps);
      RankedAgain(old(descs), rank, k, desc);
      assert SameBut(old(descs), descs, old(values), values, k) by { OnlyDefined(old(descs), old(values), k, desc); }
      RedefiningStaysRight(old(descs), descs, rank, old(deps), old(values), values, old(cache), k);
    }

    // ----- reading and writing

    /**
     Between operations: dependencies are acyclic and all recorded, watch counts tally, and every cached
     value is what recomputing would give.
     */
    ghost predicate Valid()
      reads this
    {
      Usable() && Coherent(descs, rank, values, cache)
    }

    /** All of that but the values in the cache. */
    ghost predicate Usable()
      reads this
    {
      && Ranked(descs, rank) && Recorded(descs, deps)
      && Tallies(watchers, watching, deps) && AllOwe(watchers, descs)
      && didSeen.None?
    }

    constructor (rank: Key -> nat)
      ensures Valid() && this.rank == rank && descs == map[] && values == map[] && cache == map[] && changed == []
      ensures deps == map[] && watching == map[]
    {
      this.rank := rank;
      descs, values, cache, deps, watching, didSeen, changed, watchers := map[], map[], map[], map[], map[], None, [],
          map[];
    }

    /** Reading gives what recomputing would give, and may fill the cache. */
    method Get(k: Key) returns (v: Value)
      requires Valid()
      modifies `cache
      ensures Valid() && v == Fresh(descs, rank, values, k)
      ensures forall x :: x in old(cache) ==> x in cache && cache[x] == old(cache)[x]
      ensures k in descs && descs[k].cacheable ==> k in cache
      decreases rank(k), 1
    {
      hide Recorded, Tallies, AllOwe;
      if k in descs {
        if descs[k].cacheable && k in cache { return cache[k]; }
        var args := GetAll(k);
        v := descs[k].func(args);
        if descs[k].cacheable { cache := cache[k := v]; }
      } else {
        v := Stored(values, k);
      }
    }

    /** The function of a computed property reads the dependencies it declares. */
    method GetAll(k: Key) returns (args: seq<Value>)
      requires Valid() && k in descs
      modifies `cache
      ensures Valid() && args == FreshAll(descs, rank, values, k, |descs[k].dependentKeys|)
      ensures |args| == |descs[k].dependentKeys|
      ensures forall i :: 0 <= i < |args| ==> args[i] == Fresh(descs, rank, values, descs[k].dependentKeys[i])
      ensures forall x :: x in old(cache) ==> x in cache && cache[x] == old(cache)[x]
      decreases rank(k), 0
    {
      hide Recorded, Tallies, AllOwe;
      args := [];
      var i := 0;
      while i < |descs[k].dependentKeys|
        invariant 0 <= i <= |descs[k].dependentKeys| && Valid()
        invariant args == FreshAll(descs, rank, values, k, i)
        invariant forall x :: x in old(cache) ==> x in cache && cache[x] == old(cache)[x]
      {
        var v := Get(descs[k].dependentKeys[i]);
        args := args + [v];
        i := i + 1;
      }
      FreshAllIs(descs, rank, values, k, i);
    }

    /**
     Writing a stored property.  If it is watched and the value is new, exactly what it reaches leaves the
     cache, and each key is notified once for every key on the way that it depends on; otherwise nothing else
     happens.  It need not where the watch counts tally; where they do not, the cache stays right for a property
     that is watched, and for one that is not if the value is the same or nothing in the cache is computed from it.
     */
    method Set(k: Key, v: Value)
      requires k !in descs && didSeen.None? && Ranked(descs, rank) && Recorded(descs, deps) &&
               Coherent(descs, rank, values, cache)
      modifies `values, `cache, `didSeen, `changed
      ensures values == old(values)[k := v] && didSeen.None? && (old(Valid()) ==> Valid())
      ensures var harmless := Watch(watching, k) > 0 || v == Stored(old(values), k) ||
                              forall x :: x in cache ==> !Depends(descs, rank, x, k);
              && (harmless ==> Coherent(descs, rank, values, cache))
              && (Tells(descs) ==> (Coherent(descs, rank, values, cache) <==> harmless))
      ensures var watched := Watch(watching, k) > 0 && v != Stored(old(values), k);
              if watched then
                && |old(changed)| <= |changed| && changed[..|old(changed)|] == old(changed)
                && (forall x :: x in cache <==> x in old(cache) && !Reaches(deps, k, x))
                && |old(changed)| < |changed| && changed[|changed| - 1] == k
                && exists reached :: Heard(deps, k, reached, changed[|old(changed)|..])
              else cache == old(cache) && changed == old(changed)
    {
      hide Searched, Tallies, AllOwe, Ranked, Coherent, Recorded, Reaches, Heard, Depends, Tells, Fresh, Watch, SameBut;
      var watched := Watch(watching, k) > 0 && v != Stored(values, k);
      SameButOne(descs, values, k, v);
      CachedAreCacheable(descs, rank, values, cache);
      WorthSet(descs, rank, values, k, v);
      values := values[k := v];
      if watched {
        assert cache - {} == cache;
        ghost var reached := PropertyDidChange(k);
        TopSearch(deps, k, reached, old(cache), cache, old(changed), changed);
        ClearingKeeps(descs, descs, rank, deps, old(values), values, old(cache), cache, k);
      } else {
        assert cache - {k} == cache;
        StaysRightExactly(descs, descs, rank, old(values), values, cache, k);
        if old(Valid()) && Watch(watching, k) == 0 {
          Unwatched(watchers, watching, descs, deps, k);
          NobodyDepends(descs, rank, cache, k);
        }
      }
    }
  }

  lemma SameButOne(descs: Descs, values: map<Key, Value>, k: Key, v: Value)
    ensures SameBut(descs, descs, values, values[k := v], k)
  {
  }

  /** What a stored property is worth before and after it is written. */
  lemma WorthSet(descs: Descs, rank: Key -> nat, values: map<Key, Value>, k: Key, v: Value)
    requires Ranked(descs, rank) && k !in descs
    ensures Fresh(descs, rank, values[k := v], k) == v && Fresh(descs, rank, values, k) == Stored(values, k)
  {
  }

  lemma RankedAgain(descs: Descs, rank: Key -> nat, k: Key, desc: Computed)
    requires Ranked(descs, rank) && forall i :: 0 <= i < |desc.dependentKeys| ==> rank(desc.dependentKeys[i]) < rank(k)
    ensures Ranked(descs[k := desc], rank)
  {
  }

  lemma OnlyDefined(descs: Descs, values: map<Key, Value>, k: Key, desc: Computed)
    ensures SameBut(descs, descs[k := desc], values, if k in descs then values else values - {k}, k)
  {
  }

  lemma NothingReached(descs: Descs, rank: Key -> nat, deps: Table, cache: map<Key, Value>, k: Key)
    requires Ranked(descs, rank) && Recorded(descs, deps) && forall x :: x in cache && x != k ==> !Reaches(deps, k, x)
    ensures forall x :: x in cache - {k} ==> !Depends(descs, rank, x, k)
  {
    hide Reaches, Depends;
    forall x | x in cache - {k} && Depends(descs, rank, x, k)
      ensures Reaches(deps, k, x)
    {
      DependsReached(descs, rank, deps, x, k);
    }
  }

  /** What a redefinition leaves of a cache that was right. */
  lemma RedefiningStaysRight(descs: Descs, descs': Descs, rank: Key -> nat, deps: Table, values: map<Key, Value>,
                             values': map<Key, Value>,
                             cache: map<Key, Value>, k: Key)
    requires Ranked(descs, rank) && Ranked(descs', rank) && SameBut(descs, descs', values, values', k)
    requires Recorded(descs, deps) && Coherent(descs, rank, values, cache)
    ensures var harmless := Fresh(descs, rank, values, k) == Fresh(descs', rank, values', k) ||
                            forall x :: x in cache - {k} ==> !Depends(descs, rank, x, k);
            && (harmless ==> Coherent(descs', rank, values', cache - {k}))
            && (Tells(descs) ==> (Coherent(descs', rank, values', cache - {k}) <==> harmless))
    ensures (forall x :: x in cache && x != k ==> !Reaches(deps, k, x)) ==> Coherent(descs', rank, values', cache - {k})
  {
    hide Reaches, Fresh, Depends, Tells, SameBut, Recorded;
    StaysRightExactly(descs, descs', rank, values, values', cache, k);
    if forall x :: x in cache && x != k ==> !Reaches(deps, k, x) {
      NothingReached(descs, rank, deps, cache, k);
    }
  }

  // ----- how the cache goes stale

  lemma FreshFromOne(descs: Descs, rank: Key -> nat, values: map<Key, Value>, k: Key, d: Key)
    requires Ranked(descs, rank) && k in descs && descs[k].dependentKeys == [d]
    ensures Fresh(descs, rank, values, k) == descs[k].func([Fresh(descs, rank, values, d)])
  {
    assert descs[k].dependentKeys[0] == d;
    assert FreshAll(descs, rank, values, k, 0) == [];
    assert FreshAll(descs, rank, values, k, 1) == [] + [Fresh(descs, rank, values, d)] ==
           [Fresh(descs, rank, values, d)];
  }

  /** What a stored property is worth, and what one that is computed from it alone. */
  lemma WorthOf(descs: Descs, rank: Key -> nat, values: map<Key, Value>, k: Key, d: Key)
    requires Ranked(descs, rank) && k in descs && descs[k].dependentKeys == [d]
    ensures d !in descs ==> Fresh(descs, rank, values, d) == Stored(values, d)
    ensures Fresh(descs, rank, values, k) == descs[k].func([Fresh(descs, rank, values, d)])
  {
    FreshFromOne(descs, rank, values, k, d);
  }

  lemma ConstantWorth(descs: Descs, rank: Key -> nat, values: map<Key, Value>, d: Key, v: Value)
    requires Ranked(descs, rank) && d in descs && descs[d].dependentKeys == [] && descs[d].func([]) == v
    ensures Fresh(descs, rank, values, d) == v
  {
    assert FreshAll(descs, rank, values, d, 0) == [];
  }

  method DefinedAndRead(k: Key, d: Key, func: seq<Value> -> Value) returns (h: Host)
    requires d < k
    ensures fresh(h) && h.Valid() && h.rank == ((x: Key) => x) && h.descs == map[k := Computed(true, [d], func)] &&
            h.values == map[]
    ensures k in h.cache && h.cache[k] == func([Undefined]) && Watch(h.watching, d) == 1
  {
    hide Ranked, Recorded, Coherent, Tallies, AllOwe, Tells, Depends, Reaches, Fresh, FreshAll;
    h := new Host((x: Key) => x);
    h.DefineComputed(k, Computed(true, [d], func));
    assert Watch(h.watching, d) == 1 by { assert multiset([d])[d] == 1 && DependencyList(map[], k) == []; }
    var was := h.Get(k);
    WorthOf(h.descs, h.rank, h.values, k, d);
    CachedIsRight(h.descs, h.rank, h.values, h.cache, k);
  }

  lemma CachedIsRight(descs: Descs, rank: Key -> nat, values: map<Key, Value>, cache: map<Key, Value>, k: Key)
    requires Ranked(descs, rank) && Coherent(descs, rank, values, cache) && k in cache
    ensures cache[k] == Fresh(descs, rank, values, k)
  {
  }

  /**
   A property is defined and read, an observer of its dependency is removed that was never added, and the
   dependency is written: the cache keeps the value computed from what was there before.
   */
  method UnwatchedGoesStale(k: Key, d: Key, func: seq<Value> -> Value, v: Value) returns (h: Host)
    requires d < k && func([v]) != func([Undefined])
    ensures fresh(h) && Ranked(h.descs, h.rank) && k in h.cache && h.cache[k] == func([Undefined])
    ensures Fresh(h.descs, h.rank, h.values, k) == func([v])
  {
    hide Ranked, Recorded, Coherent, Tallies, AllOwe, Tells, Depends, Reaches, Heard, Fresh, FreshAll;
    h := DefinedAndRead(k, d, func);
    h.RemoveObserver(d);
    h.Set(d, v);
    WorthOf(h.descs, h.rank, h.values, k, d);
  }

  /** A property is defined and read, and its dependency is then defined as a property of another value. */
  method RedefinedGoesStale(k: Key, d: Key, func: seq<Value> -> Value, v: Value) returns (h: Host)
    requires d < k && func([v]) != func([Undefined])
    ensures fresh(h) && h.Usable() && k in h.cache && h.cache[k] == func([Undefined])
    ensures Fresh(h.descs, h.rank, h.values, k) == func([v])
  {
    hide Ranked, Recorded, Coherent, Tallies, AllOwe, Tells, Depends, Reaches, Heard, Fresh, FreshAll;
    h := DefinedAndRead(k, d, func);
    h.DefineComputed(d, Computed(true, [], _ => v));
    WorthOf(h.descs, h.rank, h.values, k, d);
    ConstantWorth(h.descs, h.rank, h.values, d, v);
  }

  lemma CachedAreCacheable(descs: Descs, rank: Key -> nat, values: map<Key, Value>, cache: map<Key, Value>)
    requires Ranked(descs, rank) && Coherent(descs, rank, values, cache)
    ensures forall x :: x in cache ==> x in descs && descs[x].cacheable
  {
  }

  /** All that `k` reaches hears of its change: once for each dependency along which the search came. */
  ghost predicate Heard(deps: Table, k: Key, reached: set<Key>, notified: seq<Key>) {
    && (forall x :: x in reached <==> Reaches(deps, k, x))
    && (forall x :: Times(notified, x) == Edges(deps, reached, x) + (if x == k then 1 else 0))
  }

  /** A search from nothing reaches exactly what the key reaches. */
  lemma TopSearch(deps: Table, k: Key, reached: set<Key>, cache: map<Key, Value>, cache': map<Key, Value>,
                  changed: seq<Key>, changed': seq<Key>)
    requires Searched(deps, k, {}, reached, cache, cache', changed, changed', 1)
    ensures forall x :: x in cache' <==> x in cache && !Reaches(deps, k, x)
    ensures forall x :: x in cache' ==> cache'[x] == cache[x]
    ensures |changed| <= |changed'| && changed'[..|changed|] == changed
    ensures Heard(deps, k, reached, changed'[|changed|..])
  {
    hide Reaches, Edges, Times;
    assert reached - {} == reached;
    ClosureIsReach(deps, k, reached);
  }
}
