/** Whole runs put together from their steps: setting cells, connecting links that agree, and flushing. */
module BindingRuns {
  import opened JsRuntime
  import opened Bindings

  lemma SyncTwo(w: Wiring, s: State, t: State, u: State, k: Link, l: Link)
    requires Sync(w, s, k) == t && Sync(w, t, l) == u
    ensures SyncAll(w, s, [k, l]) == u
  {
    hide Sync;
    assert [k, l][1..] == [l] && [l][1..] == [];
    assert SyncAll(w, s, [k, l]) == SyncAll(w, t, [l]) == SyncAll(w, u, []);
  }

  lemma SyncThree(w: Wiring, s: State, t: State, u: State, v: State, k: Link, l: Link, m: Link)
    requires Sync(w, s, k) == t && Sync(w, t, l) == u && Sync(w, u, m) == v
    ensures SyncAll(w, s, [k, l, m]) == v
  {
    hide Sync;
    SyncTwo(w, t, u, v, l, m);
    assert [k, l, m][1..] == [l, m];
  }

  // ----- runs

  lemma RunsEnd(w: Wiring, s: State, actions: seq<Action>)
    ensures Runs(w, s, actions[|actions|..]) && Run(w, s, actions[|actions|..]) == s
  {
  }

  /** One more step in front of the rest of a run. */
  lemma RunsAt(w: Wiring, s: State, t: State, actions: seq<Action>, i: nat)
    requires i < |actions| && Allowed(s, actions[i]) && Do(w, s, actions[i]) == t && Runs(w, t, actions[i + 1..])
    ensures Runs(w, s, actions[i..]) && Run(w, s, actions[i..]) == Run(w, t, actions[i + 1..])
  {
    hide Do, Allowed, Runs, Run;
    assert actions[i..] == [actions[i]] + actions[i + 1..];
    RunsStep(w, s, t, actions[i], actions[i + 1..]);
  }

  lemma {:induction false} RunsOn(w: Wiring, s: State, first: seq<Action>, more: seq<Action>)
    requires Runs(w, s, first) && Runs(w, Run(w, s, first), more)
    ensures Runs(w, s, first + more) && Run(w, s, first + more) == Run(w, Run(w, s, first), more)
    decreases |first|
  {
    hide Do, Allowed;
    if first == [] {
      assert first + more == more;
    } else {
      RunsOn(w, Do(w, s, first[0]), first[1..], more);
      RunsStep(w, s, Do(w, s, first[0]), first[0], first[1..] + more);
      assert first + more == [first[0]] + (first[1..] + more);
    }
  }

  // ----- links with a number

  function Cells(n: nat): (cells: set<nat>)
    ensures forall c: nat :: c in cells <==> c < n
  {
    if n == 0 then {} else Cells(n - 1) + {n - 1}
  }

  function Links(n: nat): (ls: seq<Link>)
    ensures |ls| == n && forall i :: 0 <= i < n ==> ls[i] == Link(i, 0)
  {
    seq(n, i requires 0 <= i => Link(i, 0))
  }

  function Resting(n: nat, values: map<Cell, Value>): State {
    State(values, 0, [], Links(n), Cells(n), map[], [])
  }

  // ----- from the start

  /** Connecting a link that was never scheduled. */
  lemma NextConnect(s: State, l: Link)
    requires l !in s.dir
    ensures Connect(s, l) == s.(links := s.links + [l], ready := s.ready + {l.binding}, dir := s.dir[l := Fwd],
                                queue := s.queue + [l])
  {
  }

  function Sets(n: nat, a: Value): seq<Action> {
    seq(n, i requires 0 <= i => SetCell(i, a))
  }

  function Connects(n: nat): seq<Action> {
    seq(n, i requires 0 <= i => ConnectLink(Link(i, 0)))
  }

  /** All cells before `n` have one value. */
  function Even(n: nat, a: Value): map<Cell, Value> {
    map c | c in Cells(n) :: a
  }

  /** Setting the cells from `k` on, before anything is connected. */
  lemma {:induction false} SetsRun(w: Wiring, n: nat, a: Value, k: nat)
    requires k <= n
    ensures var s, t := NOTHING.(values := Even(k, a)), NOTHING.(values := Even(n, a));
            Runs(w, s, Sets(n, a)[k..]) && Run(w, s, Sets(n, a)[k..]) == t
    decreases n - k
  {
    hide Set, Runs, Run;
    var s := NOTHING.(values := Even(k, a));
    if k == n {
      RunsEnd(w, s, Sets(n, a));
    } else {
      SetsRun(w, n, a, k + 1);
      SetUnheard(w, s, k, a);
      assert Even(k, a)[k := a] == Even(k + 1, a);
      RunsAt(w, s, NOTHING.(values := Even(k + 1, a)), Sets(n, a), k);
    }
  }

  function LinkSet(n: nat): (ls: set<Link>)
    ensures forall l :: l in ls <==> l in Links(n)
  {
    if n == 0 then {} else LinkSet(n - 1) + {Link(n - 1, 0)}
  }

  /** After connecting the first `k` links. */
  function Connected(values: map<Cell, Value>, k: nat): State {
    State(values, 0, [], Links(k), Cells(k), map l | l in LinkSet(k) :: Fwd, Links(k))
  }

  lemma NextConnected(values: map<Cell, Value>, k: nat)
    ensures Link(k, 0) !in Links(k) && Connect(Connected(values, k), Link(k, 0)) == Connected(values, k + 1)
  {
    var s, t := Connected(values, k), Connected(values, k + 1);
    NextConnect(s, Link(k, 0));
    hide Connect;
    assert Links(k) + [Link(k, 0)] == Links(k + 1) && Cells(k) + {k} == Cells(k + 1);
    assert s.dir[Link(k, 0) := Fwd] == t.dir;
  }

  lemma {:induction false} ConnectsRun(w: Wiring, n: nat, values: map<Cell, Value>, k: nat)
    requires k <= n
    ensures var s, t := Connected(values, k), Connected(values, n);
            Runs(w, s, Connects(n)[k..]) && Run(w, s, Connects(n)[k..]) == t
    decreases n - k
  {
    hide Connect, Runs, Run;
    var s := Connected(values, k);
    if k == n {
      RunsEnd(w, s, Connects(n));
    } else {
      ConnectsRun(w, n, values, k + 1);
      NextConnected(values, k);
      hide Connected;
      RunsAt(w, s, Connected(values, k + 1), Connects(n), k);
    }
  }

  /** Syncs of ready links whose ends agree only take the noted directions away. */
  lemma {:induction false} AgreedDrops(w: Wiring, s: State, ls: seq<Link>)
    requires forall l :: l in ls ==> l.binding in s.ready && !Differ(w, s, l)
    ensures SyncAll(w, s, ls) == s.(dir := s.dir - (set l | l in ls))
    decreases |ls|
  {
    hide Set;
    if ls == [] {
      assert s.dir - {} == s.dir;
    } else {
      var l, t := ls[0], s.(dir := s.dir - {ls[0]});
      assert !Differ(w, s, l) && Sync(w, s, l) == t;
      forall k | k in ls[1..]
        ensures k.binding in t.ready && !Differ(w, t, k)
      {
        assert !Differ(w, s, k);
      }
      AgreedDrops(w, t, ls[1..]);
      assert ls == [l] + ls[1..];
      assert s.dir - {l} - (set k | k in ls[1..]) == s.dir - (set k | k in ls);
    }
  }

  lemma AgreedFlush(w: Wiring, n: nat, values: map<Cell, Value>)
    requires forall l :: l in Links(n) ==> Get(values, w(l).from) == Get(values, w(l).to)
    ensures FlushPass(w, Connected(values, n)) == Resting(n, values)
  {
    hide Get;
    var b := BeginChanges(Connected(values, n).(queue := []));
    forall l | l in Links(n)
      ensures l.binding in b.ready && !Differ(w, b, l)
    {
    }
    AgreedDrops(w, b, Links(n));
    assert b.dir - (set l | l in Links(n)) == map[];
  }

  lemma StartsEmpty(n: nat, a: Value)
    ensures NOTHING.(values := Even(0, a)) == NOTHING && NOTHING.(values := Even(n, a)) == Connected(Even(n, a), 0)
  {
    assert Even(0, a) == map[];
  }

  /** The cells are set, the links connected and flushed. */
  function Begun(cells: nat, n: nat, a: Value): seq<Action> {
    Sets(cells, a) + Connects(n) + [Flush]
  }

  lemma BegunRuns(w: Wiring, cells: nat, n: nat, a: Value)
    requires forall l :: l in Links(n) ==> Get(Even(cells, a), w(l).from) == Get(Even(cells, a), w(l).to)
    ensures Runs(w, NOTHING, Begun(cells, n, a)) && Run(w, NOTHING, Begun(cells, n, a)) == Resting(n, Even(cells, a))
  {
    hide Runs, Run, FlushPass, Resting, Get, Connected;
    StartsEmpty(cells, a);
    SetsRun(w, cells, a, 0);
    assert Sets(cells, a)[0..] == Sets(cells, a);
    ConnectsRun(w, n, Even(cells, a), 0);
    assert Connects(n)[0..] == Connects(n);
    RunsOn(w, NOTHING, Sets(cells, a), Connects(n));
    AgreedFlush(w, n, Even(cells, a));
    RunsNone(w, Resting(n, Even(cells, a)));
    RunsStep(w, Connected(Even(cells, a), n), Resting(n, Even(cells, a)), Flush, []);
    assert [Flush] + [] == [Flush];
    RunsOn(w, NOTHING, Sets(cells, a) + Connects(n), [Flush]);
  }
}
