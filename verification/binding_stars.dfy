/** Three two-way links into one cell, on which the run loop never comes to rest. */
module BindingStars {
  import opened JsRuntime
  import opened Bindings
  import opened BindingRuns

  /** Three two-way bindings from three cells into one. */
  function Star(l: Link): Ends {
    Ends(l.binding + 1, 0, false)
  }

  function StarValues(hub: Value, x: Value, y: Value, z: Value): map<Cell, Value> {
    map[0 := hub, 1 := x, 2 := y, 3 := z]
  }

  function StarLinks(): seq<Link> {
    [Link(0, 0), Link(1, 0), Link(2, 0)]
  }

  function Rests(values: map<Cell, Value>): State {
    State(values, 0, [], StarLinks(), {0, 1, 2}, map[], [])
  }

  lemma StarIsResting(b: Value)
    ensures Links(3) == StarLinks() && Resting(3, Even(4, b)) == Rests(StarValues(b, b, b, b))
  {
    assert Cells(3) == {0, 1, 2} && Cells(4) == {0, 1, 2, 3};
    hide Cells;
    assert Even(4, b) == StarValues(b, b, b, b);
  }

  function StarDirs(k: Dir, l: Dir, m: Dir): map<Link, Dir> {
    map[Link(0, 0) := k, Link(1, 0) := l, Link(2, 0) := m]
  }

  /** All three syncs are pending: two of them back, or two of them forward. */
  function StarBack(a: Value, b: Value): State {
    Rests(StarValues(a, b, b, a)).(dir := StarDirs(Back, Fwd, Back), queue := StarLinks())
  }

  function StarForward(a: Value, b: Value): State {
    Rests(StarValues(b, a, b, b)).(dir := StarDirs(Fwd, Back, Fwd), queue := StarLinks())
  }

  function Noted(events: seq<Cell>, c: Cell): seq<Cell> {
    if c in events then events else events + [c]
  }

  /** Three links in a star, while changes are held back. */
  function StarAt(hub: Value, x: Value, y: Value, z: Value, dir: map<Link, Dir>, events: seq<Cell>): State {
    Rests(StarValues(hub, x, y, z)).(suspended := 1, dir := dir, events := events)
  }

  lemma StarSet(s: State, c: Cell, v: Value)
    requires s.links == StarLinks() && c < 4 && s.suspended > 0 && v != Get(s.values, c)
    ensures Set(Star, s, c, v) == s.(values := s.values[c := v], events := Noted(s.events, c))
  {
    hide SendEvent;
    var i := if c == 0 then 0 else c - 1;
    assert s.links[i] == Link(i, 0) && Hears(Star, Link(i, 0), c);
  }

  lemma StarPut0(hub: Value, x: Value, y: Value, z: Value, v: Value)
    ensures StarValues(hub, x, y, z)[0 := v] == StarValues(v, x, y, z)
  {
  }

  lemma StarPut1(hub: Value, x: Value, y: Value, z: Value, v: Value)
    ensures StarValues(hub, x, y, z)[1 := v] == StarValues(hub, v, y, z)
  {
  }

  lemma StarPut2(hub: Value, x: Value, y: Value, z: Value, v: Value)
    ensures StarValues(hub, x, y, z)[2 := v] == StarValues(hub, x, v, z)
  {
  }

  lemma StarPut3(hub: Value, x: Value, y: Value, z: Value, v: Value)
    ensures StarValues(hub, x, y, z)[3 := v] == StarValues(hub, x, y, v)
  {
  }

  lemma StarHolds(hub: Value, x: Value, y: Value, z: Value)
    ensures var values := StarValues(hub, x, y, z);
            Get(values, 0) == hub && Get(values, 1) == x && Get(values, 2) == y && Get(values, 3) == z
  {
  }

  /** Setting the hub, or an outer cell. */
  lemma StarSet0(hub: Value, x: Value, y: Value, z: Value, dir: map<Link, Dir>, events: seq<Cell>, v: Value)
    requires v != hub
    ensures Set(Star, StarAt(hub, x, y, z, dir, events), 0, v) == StarAt(v, x, y, z, dir, Noted(events, 0))
  {
    hide Set, Noted, StarValues, Get;
    StarHolds(hub, x, y, z);
    StarPut0(hub, x, y, z, v);
    StarSet(StarAt(hub, x, y, z, dir, events), 0, v);
  }

  lemma StarSet1(hub: Value, x: Value, y: Value, z: Value, dir: map<Link, Dir>, events: seq<Cell>, v: Value)
    requires v != x
    ensures Set(Star, StarAt(hub, x, y, z, dir, events), 1, v) == StarAt(hub, v, y, z, dir, Noted(events, 1))
  {
    hide Set, Noted, StarValues, Get;
    StarHolds(hub, x, y, z);
    StarPut1(hub, x, y, z, v);
    StarSet(StarAt(hub, x, y, z, dir, events), 1, v);
  }

  lemma StarSet2(hub: Value, x: Value, y: Value, z: Value, dir: map<Link, Dir>, events: seq<Cell>, v: Value)
    requires v != y
    ensures Set(Star, StarAt(hub, x, y, z, dir, events), 2, v) == StarAt(hub, x, v, z, dir, Noted(events, 2))
  {
    hide Set, Noted, StarValues, Get;
    StarHolds(hub, x, y, z);
    StarPut2(hub, x, y, z, v);
    StarSet(StarAt(hub, x, y, z, dir, events), 2, v);
  }

  lemma StarSet3(hub: Value, x: Value, y: Value, z: Value, dir: map<Link, Dir>, events: seq<Cell>, v: Value)
    requires v != z
    ensures Set(Star, StarAt(hub, x, y, z, dir, events), 3, v) == StarAt(hub, x, y, v, dir, Noted(events, 3))
  {
    hide Set, Noted, StarValues, Get;
    StarHolds(hub, x, y, z);
    StarPut3(hub, x, y, z, v);
    StarSet(StarAt(hub, x, y, z, dir, events), 3, v);
  }

  /** A sync of one of the three is a change of the hub, or of its outer cell. */
  lemma StarSync(hub: Value, x: Value, y: Value, z: Value, dir: map<Link, Dir>, events: seq<Cell>, l: Link,
                 outer: Value)
    requires l in StarLinks() && l in dir && Get(StarValues(hub, x, y, z), l.binding + 1) == outer != hub
    ensures Sync(Star, StarAt(hub, x, y, z, dir, events), l) ==
            (if dir[l] == Fwd then Set(Star, StarAt(hub, x, y, z, dir - {l}, events), 0, outer)
             else Set(Star, StarAt(hub, x, y, z, dir - {l}, events), l.binding + 1, hub))
  {
    hide Set, StarValues;
    assert Get(StarValues(hub, x, y, z), 0) == hub by { StarHolds(hub, x, y, z); }
    assert l.binding in {0, 1, 2};
  }

  lemma AllSynced(k: Dir, l: Dir, m: Dir)
    ensures var d := StarDirs(k, l, m);
            && Link(1, 0) in d - {Link(0, 0)} && (d - {Link(0, 0)})[Link(1, 0)] == l
            && Link(2, 0) in d - {Link(0, 0)} - {Link(1, 0)} && (d - {Link(0, 0)} - {Link(1, 0)})[Link(2, 0)] == m
            && d - {Link(0, 0)} - {Link(1, 0)} - {Link(2, 0)} == map[]
  {
  }

  /** The syncs of a round with two of them back. */
  lemma StarSyncsBack(a: Value, b: Value)
    requires a != b
    ensures SyncAll(Star, StarAt(a, b, b, a, StarDirs(Back, Fwd, Back), []), StarLinks()) ==
            StarAt(b, a, b, b, map[], [1, 0, 3])
  {
    var d := StarDirs(Back, Fwd, Back);
    AllSynced(Back, Fwd, Back);
    assert Noted([], 1) == [1] && Noted([1], 0) == [1, 0] && Noted([1, 0], 3) == [1, 0, 3];
    hide Sync, SyncAll, StarAt, Noted;
    var k, l, m := Link(0, 0), Link(1, 0), Link(2, 0);
    StarSync(a, b, b, a, d, [], k, b);
    StarSet1(a, b, b, a, d - {k}, [], a);
    StarSync(a, a, b, a, d - {k}, [1], l, b);
    StarSet0(a, a, b, a, d - {k} - {l}, [1], b);
    StarSync(b, a, b, a, d - {k} - {l}, [1, 0], m, a);
    StarSet3(b, a, b, a, d - {k} - {l} - {m}, [1, 0], b);
    SyncThree(Star, StarAt(a, b, b, a, d, []), StarAt(a, a, b, a, d - {k}, [1]),
              StarAt(b, a, b, a, d - {k} - {l}, [1, 0]),
              StarAt(b, a, b, b, d - {k} - {l} - {m}, [1, 0, 3]), k, l, m);
  }

  /** The syncs of a round with two of them forward. */
  lemma StarSyncsForward(a: Value, b: Value)
    requires a != b
    ensures SyncAll(Star, StarAt(b, a, b, b, StarDirs(Fwd, Back, Fwd), []), StarLinks()) ==
            StarAt(b, a, a, b, map[], [0, 2])
  {
    var d := StarDirs(Fwd, Back, Fwd);
    AllSynced(Fwd, Back, Fwd);
    assert Noted([], 0) == [0] && Noted([0], 2) == [0, 2] && Noted([0, 2], 0) == [0, 2];
    hide Sync, SyncAll, StarAt, Noted;
    var k, l, m := Link(0, 0), Link(1, 0), Link(2, 0);
    StarSync(b, a, b, b, d, [], k, a);
    StarSet0(b, a, b, b, d - {k}, [], a);
    StarSync(a, a, b, b, d - {k}, [0], l, b);
    StarSet2(a, a, b, b, d - {k} - {l}, [0], a);
    StarSync(a, a, a, b, d - {k} - {l}, [0, 2], m, b);
    StarSet0(a, a, a, b, d - {k} - {l} - {m}, [0, 2], b);
    SyncThree(Star, StarAt(b, a, b, b, d, []), StarAt(a, a, b, b, d - {k}, [0]),
              StarAt(a, a, a, b, d - {k} - {l}, [0, 2]),
              StarAt(b, a, a, b, d - {k} - {l} - {m}, [0, 2]), k, l, m);
  }

  /** The hub's links hear of it, and the link of an outer cell. */
  lemma StarSend(s: State, c: Cell)
    requires s.links == StarLinks() && c < 4
    ensures SendEvent(Star, s, c) ==
            if c == 0 then ScheduleSync(ScheduleSync(ScheduleSync(s, Link(0, 0), Back), Link(1, 0), Back), Link(2, 0),
                                        Back)
            else ScheduleSync(s, Link(c - 1, 0), Fwd)
  {
    hide ScheduleSync;
    assert TellUpTo(Star, s, c, 0) == s;
    var s1 := if c == 0 then ScheduleSync(s, Link(0, 0), Back) else if c == 1 then ScheduleSync(s, Link(0, 0), Fwd)
        else s;
    assert TellUpTo(Star, s, c, 1) == s1;
    var s2 := if c == 0 then ScheduleSync(s1, Link(1, 0), Back) else if c == 2 then ScheduleSync(s1, Link(1, 0), Fwd)
        else s1;
    assert TellUpTo(Star, s, c, 2) == s2;
  }

  lemma StarDeliversForward(a: Value, b: Value)
    ensures SendAll(Star, Rests(StarValues(b, a, b, b)), [1, 0, 3]) == StarForward(a, b)
  {
    hide SendEvent;
    var k, l, m := Link(0, 0), Link(1, 0), Link(2, 0);
    var s := Rests(StarValues(b, a, b, b));
    var s1 := s.(dir := map[k := Fwd], queue := [k]);
    var s2 := s.(dir := map[k := Fwd, l := Back, m := Back], queue := [k, l, m]);
    StarSend(s, 1);
    assert SendEvent(Star, s, 1) == s1 by { assert map[][k := Fwd] == s1.dir && [] + [k] == [k]; }
    StarSend(s1, 0);
    assert SendEvent(Star, s1, 0) == s2 by {
      assert map[k := Fwd][l := Back] == map[k := Fwd, l := Back] && map[k := Fwd, l := Back][m := Back] == s2.dir;
      assert [k] + [l] == [k, l] && [k, l] + [m] == [k, l, m];
    }
    StarSend(s2, 3);
    assert SendEvent(Star, s2, 3) == StarForward(a, b) by { assert s2.dir[m := Fwd] == StarDirs(Fwd, Back, Fwd); }
    assert [1, 0, 3][..2] == [1, 0] && [1, 0][..1] == [1] && [1][..0] == [];
    assert SendAll(Star, s, [1]) == SendEvent(Star, SendAll(Star, s, []), 1);
    assert SendAll(Star, s, [1, 0]) == s2;
  }

  lemma StarDeliversBack(a: Value, b: Value)
    ensures SendAll(Star, Rests(StarValues(b, a, a, b)), [0, 2]) == StarBack(b, a)
  {
    hide SendEvent;
    var k, l, m := Link(0, 0), Link(1, 0), Link(2, 0);
    var s := Rests(StarValues(b, a, a, b));
    var s1 := s.(dir := map[k := Back, l := Back, m := Back], queue := [k, l, m]);
    StarSend(s, 0);
    assert SendEvent(Star, s, 0) == s1 by {
      assert map[][k := Back] == map[k := Back] && map[k := Back][l := Back] == map[k := Back, l := Back];
      assert map[k := Back, l := Back][m := Back] == s1.dir;
      assert [] + [k] == [k] && [k] + [l] == [k, l] && [k, l] + [m] == [k, l, m];
    }
    StarSend(s1, 2);
    assert SendEvent(Star, s1, 2) == StarBack(b, a) by { assert s1.dir[l := Fwd] == StarDirs(Back, Fwd, Back); }
    assert [0, 2][..1] == [0] && [0][..0] == [];
    assert SendAll(Star, s, [0]) == SendEvent(Star, SendAll(Star, s, []), 0);
  }

  /** Two rounds later the state is the same, with the two values exchanged. */
  lemma StarTurns(a: Value, b: Value)
    requires a != b
    ensures FlushPass(Star, StarBack(a, b)) == StarForward(a, b) && FlushPass(Star, StarForward(a, b)) == StarBack(b, a)
  {
    hide SyncAll, SendAll;
    StarSyncsBack(a, b);
    StarDeliversForward(a, b);
    StarSyncsForward(a, b);
    StarDeliversBack(a, b);
  }

  function StarState(a: Value, b: Value, n: nat): State {
    if n % 4 == 0 then StarForward(a, b)
    else if n % 4 == 1 then StarBack(b, a)
    else if n % 4 == 2 then StarForward(b, a)
    else StarBack(a, b)
  }

  lemma StarNext(a: Value, b: Value, n: nat)
    requires a != b
    ensures FlushPass(Star, StarState(a, b, n)) == StarState(a, b, n + 1)
  {
    hide FlushPass, StarForward, StarBack;
    StarTurns(a, b);
    StarTurns(b, a);
  }

  lemma StarPending(a: Value, b: Value, n: nat)
    ensures !Quiet(StarState(a, b, n))
  {
  }

  /** Two-way links without a cycle go on for ever too: three into one cell are enough. */
  lemma {:induction false} StarNeverRests(a: Value, b: Value, n: nat)
    requires a != b
    ensures Passes(Star, StarForward(a, b), n) == StarState(a, b, n) && !Quiet(Passes(Star, StarForward(a, b), n))
  {
    hide FlushPass, Quiet;
    if n > 0 {
      hide StarState;
      StarNeverRests(a, b, n - 1);
      StarNext(a, b, n - 1);
    }
    StarPending(a, b, n);
  }

  /** One outer cell changes; the hub and another outer cell change and change back. */
  function StarSpin(a: Value, b: Value): seq<Action> {
    [Begin, SetCell(1, a), SetCell(0, a), SetCell(0, b), SetCell(3, a), SetCell(3, b), End]
  }

  lemma StarBegins(b: Value)
    ensures BeginChanges(Rests(StarValues(b, b, b, b))) == StarAt(b, b, b, b, map[], [])
  {
    hide StarValues;
  }

  lemma StarEnds(a: Value, b: Value)
    ensures var s := StarAt(b, a, b, b, map[], [1, 0, 3]); s.suspended > 0 && EndChanges(Star, s) == StarForward(a, b)
  {
    StarDeliversForward(a, b);
    hide SendAll, StarValues, StarForward;
  }

  lemma StarNotes()
    ensures Noted([], 1) == [1] && Noted([1], 0) == [1, 0] && Noted([1, 0], 0) == [1, 0]
    ensures Noted([1, 0], 3) == [1, 0, 3] && Noted([1, 0, 3], 3) == [1, 0, 3]
  {
  }

  lemma StarSpins(a: Value, b: Value)
    requires a != b
    ensures var s := Rests(StarValues(b, b, b, b));
            Runs(Star, s, StarSpin(a, b)) && Run(Star, s, StarSpin(a, b)) == StarForward(a, b)
  {
    hide Set, EndChanges, BeginChanges, Runs, Run, StarAt, StarForward, Rests, Noted;
    var none: map<Link, Dir> := map[];
    var s0, s7 := Rests(StarValues(b, b, b, b)), StarForward(a, b);
    StarBegins(b);
    StarEnds(a, b);
    StarNotes();
    StarSet1(b, b, b, b, none, [], a);
    StarSet0(b, a, b, b, none, [1], a);
    StarSet0(a, a, b, b, none, [1, 0], b);
    StarSet3(b, a, b, b, none, [1, 0], a);
    StarSet3(b, a, b, a, none, [1, 0, 3], b);
    var actions := StarSpin(a, b);
    RunsEnd(Star, s7, actions);
    RunsAt(Star, StarAt(b, a, b, b, none, [1, 0, 3]), s7, actions, 6);
    RunsAt(Star, StarAt(b, a, b, a, none, [1, 0, 3]), StarAt(b, a, b, b, none, [1, 0, 3]), actions, 5);
    RunsAt(Star, StarAt(b, a, b, b, none, [1, 0]), StarAt(b, a, b, a, none, [1, 0, 3]), actions, 4);
    RunsAt(Star, StarAt(a, a, b, b, none, [1, 0]), StarAt(b, a, b, b, none, [1, 0]), actions, 3);
    RunsAt(Star, StarAt(b, a, b, b, none, [1]), StarAt(a, a, b, b, none, [1, 0]), actions, 2);
    RunsAt(Star, StarAt(b, b, b, b, none, []), StarAt(b, a, b, b, none, [1]), actions, 1);
    RunsAt(Star, s0, StarAt(b, b, b, b, none, []), actions, 0);
    assert actions[0..] == actions;
  }

  function StarRun(a: Value, b: Value): seq<Action> {
    Begun(4, 3, b) + StarSpin(a, b)
  }

  lemma StarReached(a: Value, b: Value)
    requires a != b
    ensures Runs(Star, NOTHING, StarRun(a, b)) && Run(Star, NOTHING, StarRun(a, b)) == StarForward(a, b)
    ensures forall n: nat :: !Quiet(Passes(Star, Run(Star, NOTHING, StarRun(a, b)), n))
  {
    hide Runs, Run, Passes, Quiet, StarForward, StarSpin, Begun, Resting, Rests;
    StarAgrees(b);
    BegunRuns(Star, 4, 3, b);
    StarIsResting(b);
    StarSpins(a, b);
    RunsOn(Star, NOTHING, Begun(4, 3, b), StarSpin(a, b));
    forall n: nat
      ensures !Quiet(Passes(Star, StarForward(a, b), n))
    {
      StarNeverRests(a, b, n);
    }
  }

  lemma StarAgrees(b: Value)
    ensures forall l :: l in Links(3) ==> Get(Even(4, b), Star(l).from) == Get(Even(4, b), Star(l).to)
  {
  }
}
