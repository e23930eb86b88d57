/**
 Bindings one behind the other, cell 0 to cell 1, cell 1 to cell 2,
     and so on: what the first cell holds comes out at the
 other end in one round, and the loop comes to rest.
 */
module BindingLines {
  import opened JsRuntime
  import opened Collections
  import opened Bindings
  import BindingRests
  import BindingChains
  import opened BindingRuns

  function Line(oneWay: bool): Wiring {
    (l: Link) => Ends(l.binding, l.binding + 1, oneWay)
  }

  function Path(n: nat): (p: seq<Cell>)
    ensures |p| == n + 1 && forall i :: 0 <= i <= n ==> p[i] == i
  {
    seq(n + 1, i requires 0 <= i => i)
  }

  /** The theorems on coming to rest apply: lines of one-way links are layered, those of two-way ones are chains. */
  lemma LinesAreFine(n: nat, oneWay: bool)
    ensures oneWay ==> BindingRests.Layered(Line(oneWay), Links(n), (c: Cell) => c, n)
    ensures !oneWay ==> BindingChains.Chain(Line(oneWay), Links(n), Path(n))
  {
    forall l | l in Links(n)
      ensures l == Link(l.binding, 0) && l.binding < n && BindingChains.On(Line(oneWay), l, Path(n), l.binding)
    {
      var i :| 0 <= i < n && Links(n)[i] == l;
    }
    var w := Line(oneWay);
    assert forall l :: l in Links(n) ==> w(l) == Ends(l.binding, l.binding + 1, oneWay);
    assert Distinct(Path(n));
  }

  /** In the middle of the first round: the first `k` links have been synced. */
  ghost predicate Halfway(s: State, oneWay: bool, n: nat, k: nat, v: Value) {
    && k <= n && s.suspended > 0 && s.links == Links(n) && s.ready == Cells(n)
    && (forall c :: 0 <= c <= k ==> Get(s.values, c) == v)
    && forall i :: k <= i < n ==> Link(i, 0) in s.dir && s.dir[Link(i, 0)] == Fwd
  }

  lemma CopiedOn(s: State, t: State, oneWay: bool, n: nat, k: nat, v: Value)
    requires Halfway(s, oneWay, n, k, v) && k < n
    requires t.suspended == s.suspended && t.links == s.links && t.ready == s.ready && t.dir == s.dir - {Link(k, 0)}
    requires t.values == s.values[k + 1 := v] || (t.values == s.values && Get(s.values, k + 1) == v)
    ensures Halfway(t, oneWay, n, k + 1, v)
  {
    forall c | 0 <= c <= k + 1
      ensures Get(t.values, c) == v
    {
      assert c <= k ==> Get(s.values, c) == v;
    }
  }

  lemma OneMore(s: State, oneWay: bool, n: nat, k: nat, v: Value)
    requires Halfway(s, oneWay, n, k, v) && k < n
    ensures Halfway(Sync(Line(oneWay), s, Link(k, 0)), oneWay, n, k + 1, v)
  {
    hide Watched;
    var w, l := Line(oneWay), Link(k, 0);
    var s1 := s.(dir := s.dir - {l});
    SetWaits(w, s1, k + 1, v);
    assert l.binding in s.ready && w(l) == Ends(k, k + 1, oneWay);
    hide Set;
    var t := if Get(s.values, k + 1) == v then s1 else Set(w, s1, k + 1, v);
    assert Get(s.values, k) == v && s.dir[Link(k, 0)] == Fwd;
    assert Sync(w, s, l) == t;
    CopiedOn(s, t, oneWay, n, k, v);
  }

  lemma {:induction false} TheRest(s: State, oneWay: bool, n: nat, k: nat, v: Value)
    requires k <= n && Halfway(s, oneWay, n, k, v)
    ensures Halfway(SyncAll(Line(oneWay), s, Links(n)[k..]), oneWay, n, n, v)
    decreases n - k
  {
    hide Halfway, Sync;
    if k == n {
      assert Links(n)[k..] == [];
    } else {
      OneMore(s, oneWay, n, k, v);
      assert Links(n)[k..][0] == Link(k, 0) && Links(n)[k..][1..] == Links(n)[k + 1..];
      TheRest(Sync(Line(oneWay), s, Link(k, 0)), oneWay, n, k + 1, v);
    }
  }

  /**
   Once any number of bindings has been connected one behind the other, whatever the cells hold, a single round gives
   all of them the value of the first.
   */
  lemma LineCopies(n: nat, oneWay: bool, values: map<Cell, Value>)
    ensures var t := FlushPass(Line(oneWay), Connected(values, n));
            && t.links == Links(n) && t.suspended == 0 && t.events == []
            && forall c :: 0 <= c <= n ==> Get(t.values, c) == Get(values, 0)
  {
    hide SyncAll, SendAll;
    var w, s := Line(oneWay), BeginChanges(Connected(values, n).(queue := []));
    assert Halfway(s, oneWay, n, 0, Get(values, 0));
    TheRest(s, oneWay, n, 0, Get(values, 0));
    assert Links(n)[0..] == Links(n);
    var u := SyncAll(w, s, Links(n));
    SyncAllSuspended(w, s, Links(n));
    SendAllValues(w, u.(suspended := 0, events := []), u.events);
  }

  lemma {:induction false} SyncAllSuspended(w: Wiring, s: State, ls: seq<Link>)
    requires s.suspended > 0
    ensures SyncAll(w, s, ls).suspended == s.suspended
    decreases |ls|
  {
    if ls != [] {
      var l, s1 := ls[0], s.(dir := s.dir - {ls[0]});
      SetWaits(w, s1, w(l).to, Get(s.values, w(l).from));
      SetWaits(w, s1, w(l).from, Get(s.values, w(l).to));
      hide Set;
      SyncAllSuspended(w, Sync(w, s, l), ls[1..]);
    }
  }
}
