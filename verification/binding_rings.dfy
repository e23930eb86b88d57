/** Rings of one-way links, on which the run loop never comes to rest. */
module BindingRings {
  import opened JsRuntime
  import opened Bindings
  import opened BindingRuns

  function After(n: nat, p: Cell): Cell {
    if p + 1 == n then 0 else p + 1
  }

  function Before(n: nat, p: Cell): Cell
    requires n > 0
  {
    if p == 0 then n - 1 else p - 1
  }

  /** One-way bindings in a ring of `n`: each cell feeds the next. */
  function Ring(n: nat): Wiring {
    (l: Link) => Ends(l.binding, After(n, l.binding), true)
  }

  /** The cell `p` has the value `b`, and all others `a`. */
  function Odd(n: nat, p: Cell, a: Value, b: Value): map<Cell, Value> {
    map c | c in Cells(n) :: if c == p then b else a
  }

  /** One cell of the ring differs from all others; its own link and the one into it are pending. */
  function RingState(n: nat, p: Cell, a: Value, b: Value): State
    requires n > 0
  {
    Resting(n, Odd(n, p, a, b)).(dir := map[Link(p, 0) := Fwd, Link(Before(n, p), 0) := Fwd],
                                 queue := [Link(p, 0), Link(Before(n, p), 0)])
  }

  // ----- the steps

  /** While changes are held back, changing a cell of the ring only notes the event. */
  lemma RingSet(n: nat, s: State, c: Cell, v: Value)
    requires c < n && s.links == Links(n) && s.suspended > 0 && v != Get(s.values, c)
    ensures Set(Ring(n), s, c, v) ==
            s.(values := s.values[c := v], events := if c in s.events then s.events else s.events + [c])
  {
    hide SendEvent;
    assert s.links[c] == Link(c, 0) && Hears(Ring(n), Link(c, 0), c);
  }

  /** A sync of one link of the ring, while changes are held back. */
  lemma RingSync(n: nat, s: State, i: Cell)
    requires i < n && s.links == Links(n) && s.ready == Cells(n) && s.suspended > 0
    requires Link(i, 0) in s.dir && s.dir[Link(i, 0)] == Fwd && After(n, i) !in s.events
    requires Get(s.values, i) != Get(s.values, After(n, i))
    ensures Sync(Ring(n), s, Link(i, 0)) ==
            s.(dir := s.dir - {Link(i, 0)}, values := s.values[After(n, i) := Get(s.values, i)],
               events := s.events + [After(n, i)])
  {
    hide Set, Get;
    RingSet(n, s.(dir := s.dir - {Link(i, 0)}), After(n, i), Get(s.values, i));
  }

  /** Only the link out of a cell hears of it. */
  lemma {:induction false} RingTell(n: nat, s: State, c: Cell, k: nat)
    requires c < n && k <= n && s.links == Links(n)
    ensures TellUpTo(Ring(n), s, c, k) == if k <= c then s else ScheduleSync(s, Link(c, 0), Fwd)
    decreases k
  {
    hide ScheduleSync;
    if k > 0 {
      RingTell(n, s, c, k - 1);
    }
  }

  lemma RingSend(n: nat, s: State, c: Cell)
    requires c < n && s.links == Links(n) && Link(c, 0) !in s.dir
    ensures SendEvent(Ring(n), s, c) == s.(queue := s.queue + [Link(c, 0)], dir := s.dir[Link(c, 0) := Fwd])
  {
    hide TellUpTo;
    RingTell(n, s, c, n);
  }

  /** Two events put the two links that hear them into the queue. */
  lemma RingDelivers(n: nat, s: State, j: Cell, i: Cell)
    requires i < n && j < n && i != j && s.links == Links(n) && s.dir == map[] && s.queue == []
    ensures SendAll(Ring(n), s, [j, i]) ==
            s.(dir := map[Link(j, 0) := Fwd, Link(i, 0) := Fwd], queue := [Link(j, 0), Link(i, 0)])
  {
    hide SendEvent;
    var li, lj := Link(i, 0), Link(j, 0);
    RingSend(n, s, j);
    var t := s.(dir := map[lj := Fwd], queue := [lj]);
    assert SendEvent(Ring(n), s, j) == t by { assert [] + [lj] == [lj] && map[][lj := Fwd] == map[lj := Fwd]; }
    RingSend(n, t, i);
    assert [lj] + [li] == [lj, li];
    assert [j, i][..1] == [j] && [j][..0] == [];
    assert SendAll(Ring(n), s, [j][..0]) == s;
    assert SendAll(Ring(n), s, [j]) == SendEvent(Ring(n), s, j);
  }

  /** The odd value moves on, and the value before it follows. */
  lemma OddMoves(n: nat, p: Cell, a: Value, b: Value)
    requires n >= 3 && p < n
    ensures Odd(n, p, a, b)[After(n, p) := b][p := a] == Odd(n, After(n, p), a, b)
  {
  }

  lemma RingSyncs(n: nat, p: Cell, a: Value, b: Value)
    requires n >= 3 && p < n && a != b
    ensures SyncAll(Ring(n), RingState(n, p, a, b).(suspended := 1, queue := []),
                    [Link(p, 0), Link(Before(n, p), 0)]) ==
            Resting(n, Odd(n, After(n, p), a, b)).(suspended := 1, events := [After(n, p), p])
  {
    hide Set, Sync, SyncAll;
    var j, q := After(n, p), Before(n, p);
    var k, l := Link(p, 0), Link(q, 0);
    var s0 := RingState(n, p, a, b).(suspended := 1, queue := []);
    RingSync(n, s0, p);
    var s1 := s0.(dir := map[l := Fwd], values := s0.values[j := b], events := [j]);
    assert Sync(Ring(n), s0, k) == s1 by { assert s0.dir - {k} == s1.dir && [] + [j] == [j]; }
    RingSync(n, s1, q);
    var s2 := s1.(dir := map[], values := s1.values[p := a], events := [j, p]);
    assert Sync(Ring(n), s1, l) == s2 by { assert s1.dir - {l} == s2.dir && [j] + [p] == [j, p]; }
    SyncTwo(Ring(n), s0, s1, s2, k, l);
    OddMoves(n, p, a, b);
  }

  /** A round passes the odd value on to the next cell, and leaves the same state there. */
  lemma RingTurns(n: nat, p: Cell, a: Value, b: Value)
    requires n >= 3 && p < n && a != b
    ensures FlushPass(Ring(n), RingState(n, p, a, b)) == RingState(n, After(n, p), a, b)
  {
    hide SendAll, SyncAll, Odd;
    RingSyncs(n, p, a, b);
    RingDelivers(n, Resting(n, Odd(n, After(n, p), a, b)), After(n, p), p);
  }

  /** Where the odd value is after so many rounds. */
  function Place(n: nat, rounds: nat): (p: Cell)
    requires n > 0
    ensures p < n
  {
    if rounds == 0 then 0 else After(n, Place(n, rounds - 1))
  }

  /** The run loop goes round for ever: after any number of rounds there is a sync left. */
  lemma {:induction false} RingNeverRests(n: nat, a: Value, b: Value, rounds: nat)
    requires n >= 3 && a != b
    ensures Passes(Ring(n), RingState(n, 0, a, b), rounds) == RingState(n, Place(n, rounds), a, b)
    ensures !Quiet(Passes(Ring(n), RingState(n, 0, a, b), rounds))
  {
    hide FlushPass, Quiet;
    if rounds > 0 {
      RingNeverRests(n, a, b, rounds - 1);
      RingTurns(n, Place(n, rounds - 1), a, b);
    }
    StillPending(n, Place(n, rounds), a, b);
  }

  lemma StillPending(n: nat, p: Cell, a: Value, b: Value)
    requires n > 0
    ensures !Quiet(RingState(n, p, a, b))
  {
  }

  // ----- from the start

  /** The changes that set the ring going: one cell changes, another changes and changes back. */
  function Spin(n: nat, a: Value, b: Value): seq<Action>
    requires n > 0
  {
    [Begin, SetCell(0, b), SetCell(n - 1, b), SetCell(n - 1, a), End]
  }

  lemma RingDeparts(n: nat, a: Value, b: Value)
    requires n >= 3
    ensures var s := Resting(n, Odd(n, 0, a, b)).(suspended := 1, events := [0, n - 1]);
            s.suspended > 0 && EndChanges(Ring(n), s) == RingState(n, 0, a, b)
  {
    hide SendAll, Odd;
    RingDelivers(n, Resting(n, Odd(n, 0, a, b)), 0, n - 1);
  }

  lemma RingSpins(n: nat, a: Value, b: Value)
    requires n >= 3 && a != b
    ensures var s := Resting(n, Even(n, a));
            Runs(Ring(n), s, Spin(n, a, b)) && Run(Ring(n), s, Spin(n, a, b)) == RingState(n, 0, a, b)
  {
    hide Set, EndChanges, Runs, Run, Get, Even, Odd, RingState, Links, Cells, Ring;
    var w, s0 := Ring(n), Resting(n, Even(n, a));
    var s1 := s0.(suspended := 1);
    var s2 := s1.(values := s1.values[0 := b], events := [0]);
    var s3 := s2.(values := s2.values[n - 1 := b], events := [0, n - 1]);
    var s4 := s3.(values := s3.values[n - 1 := a]);
    SpinSets(n, a, b, s1, s2, s3, s4);
    SpinValues(n, a, b);
    RingDeparts(n, a, b);
    FiveSteps(w, s0, s1, s2, s3, s4, RingState(n, 0, a, b), Spin(n, a, b));
  }

  lemma SpinSets(n: nat, a: Value, b: Value, s1: State, s2: State, s3: State, s4: State)
    requires n >= 3 && a != b && s1 == Resting(n, Even(n, a)).(suspended := 1)
    requires s2 == s1.(values := s1.values[0 := b], events := [0])
    requires s3 == s2.(values := s2.values[n - 1 := b], events := [0, n - 1])
    requires s4 == s3.(values := s3.values[n - 1 := a])
    ensures Set(Ring(n), s1, 0, b) == s2 && Set(Ring(n), s2, n - 1, b) == s3 && Set(Ring(n), s3, n - 1, a) == s4
  {
    hide Set, Get, Even, Odd, Links, Cells, Ring;
    SpinValues(n, a, b);
    RingSet(n, s1, 0, b);
    assert [] + [0] == [0];
    RingSet(n, s2, n - 1, b);
    assert [0] + [n - 1] == [0, n - 1];
    RingSet(n, s3, n - 1, a);
  }

  lemma FiveSteps(w: Wiring, s0: State, s1: State, s2: State, s3: State, s4: State, s5: State, actions: seq<Action>)
    requires |actions| == 5
    requires Allowed(s0, actions[0]) && Do(w, s0, actions[0]) == s1
    requires Allowed(s1, actions[1]) && Do(w, s1, actions[1]) == s2
    requires Allowed(s2, actions[2]) && Do(w, s2, actions[2]) == s3
    requires Allowed(s3, actions[3]) && Do(w, s3, actions[3]) == s4
    requires Allowed(s4, actions[4]) && Do(w, s4, actions[4]) == s5
    ensures Runs(w, s0, actions) && Run(w, s0, actions) == s5
  {
    hide Do, Allowed, Runs, Run;
    RunsEnd(w, s5, actions);
    RunsAt(w, s4, s5, actions, 4);
    RunsAt(w, s3, s4, actions, 3);
    RunsAt(w, s2, s3, actions, 2);
    RunsAt(w, s1, s2, actions, 1);
    RunsAt(w, s0, s1, actions, 0);
    assert actions[0..] == actions;
  }

  lemma SpinValues(n: nat, a: Value, b: Value)
    requires n >= 3 && a != b
    ensures var v0 := Even(n, a);
            var v1 := v0[0 := b];
            var v2 := v1[n - 1 := b];
            && Get(v0, 0) == a && Get(v1, n - 1) == a && Get(v2, n - 1) == b && v2[n - 1 := a] == Odd(n, 0, a, b)
  {
  }

  function RingRun(n: nat, a: Value, b: Value): seq<Action>
    requires n > 0
  {
    Begun(n, n, a) + Spin(n, a, b)
  }

  /** A run after which the loop never comes to rest, in a ring of any size from three on. */
  lemma RingReached(n: nat, a: Value, b: Value)
    requires n >= 3 && a != b
    ensures var w := Ring(n);
            && Runs(w, NOTHING, RingRun(n, a, b)) && Run(w, NOTHING, RingRun(n, a, b)) == RingState(n, 0, a, b)
            && forall rounds: nat :: !Quiet(Passes(w, Run(w, NOTHING, RingRun(n, a, b)), rounds))
  {
    hide Runs, Run, Passes, Quiet, RingState, Resting, Get, Begun;
    var w := Ring(n);
    EvenAgrees(n, a);
    BegunRuns(w, n, n, a);
    RingSpins(n, a, b);
    RunsOn(w, NOTHING, Begun(n, n, a), Spin(n, a, b));
    forall rounds: nat
      ensures !Quiet(Passes(w, RingState(n, 0, a, b), rounds))
    {
      RingNeverRests(n, a, b, rounds);
    }
  }

  lemma EvenAgrees(n: nat, a: Value)
    ensures forall l :: l in Links(n) ==> Get(Even(n, a), Ring(n)(l).from) == Get(Even(n, a), Ring(n)(l).to)
  {
  }
}
