/**
 Bindings between properties, the deferred change events that drive them, and the sync queue that a
 run loop flushes.  A property of an object is a cell with an identity; a binding connected to one
 object is a link between two cells.
 */
module Bindings {
  import opened JsRuntime
  import opened Collections

  type Cell = nat

  datatype Link = Link(binding: nat, obj: nat)

  datatype Ends = Ends(from: Cell, to: Cell, oneWay: bool)

  type Wiring = Link -> Ends

  datatype Dir = Fwd | Back

  /**
   `events` are the change events held back, `links` the connected links in the order their observers
   were added, `ready` the bindings with `_readyToSync`, `dir` the directions noted on the bindings
   under each object's identity, and `queue` the sync queue.
   */
  datatype State = State(
    values: map<Cell, Value>,
    suspended: nat,
    events: seq<Cell>,
    links: seq<Link>,
    ready: set<nat>,
    dir: map<Link, Dir>,
    queue: seq<Link>)

  function Get(values: map<Cell, Value>, c: Cell): Value {
    if c in values then values[c] else Undefined
  }

  // ----- the steps

  function ScheduleSync(s: State, l: Link, d: Dir): State {
    if l !in s.dir then s.(queue := s.queue + [l], dir := s.dir[l := d])
    else if s.dir[l] == Back && d == Fwd then s.(dir := s.dir[l := Fwd])
    else s
  }

  /** The observers of one link hear that a cell has changed. */
  function Tell(w: Wiring, s: State, l: Link, c: Cell): State {
    var s1 := if w(l).from == c then ScheduleSync(s, l, Fwd) else s;
    if w(l).to == c && !w(l).oneWay then ScheduleSync(s1, l, Back) else s1
  }

  /** The first `n` links hear of it. */
  function TellUpTo(w: Wiring, s: State, c: Cell, n: nat): State
    requires n <= |s.links|
    decreases n
  {
    if n == 0 then s else Tell(w, TellUpTo(w, s, c, n - 1), s.links[n - 1], c)
  }

  function SendEvent(w: Wiring, s: State, c: Cell): State {
    TellUpTo(w, s, c, |s.links|)
  }

  function SendAll(w: Wiring, s: State, events: seq<Cell>): State
    decreases |events|
  {
    if events == [] then s else SendEvent(w, SendAll(w, s, events[..|events| - 1]), events[|events| - 1])
  }

  function Notify(w: Wiring, s: State, c: Cell): State {
    if s.suspended > 0 then if c in s.events then s else s.(events := s.events + [c])
    else SendEvent(w, s, c)
  }

  predicate Hears(w: Wiring, l: Link, c: Cell) {
    w(l).from == c || (w(l).to == c && !w(l).oneWay)
  }

  predicate Watched(w: Wiring, s: State, c: Cell) {
    exists l :: l in s.links && Hears(w, l, c)
  }

  function Set(w: Wiring, s: State, c: Cell, v: Value): State {
    var s1 := s.(values := s.values[c := v]);
    if Watched(w, s, c) && v != Get(s.values, c) then Notify(w, s1, c) else s1
  }

  function BeginChanges(s: State): State {
    s.(suspended := s.suspended + 1)
  }

  function EndChanges(w: Wiring, s: State): State
    requires s.suspended > 0
  {
    if s.suspended > 1 then s.(suspended := s.suspended - 1)
    else SendAll(w, s.(suspended := 0, events := []), s.events)
  }

  function Connect(s: State, l: Link): State {
    ScheduleSync(s.(links := s.links + [l]), l, Fwd).(ready := s.ready + {l.binding})
  }

  function Without(ls: seq<Link>, l: Link): seq<Link> {
    if ls == [] then [] else (if ls[0] == l then [] else [ls[0]]) + Without(ls[1..], l)
  }

  function Disconnect(s: State, l: Link): State {
    s.(links := Without(s.links, l), ready := s.ready - {l.binding})
  }

  /** One item of the sync queue. */
  function Sync(w: Wiring, s: State, l: Link): State {
    if l.binding !in s.ready then s
    else
      var s1 := s.(dir := s.dir - {l});
      var x, y := Get(s.values, w(l).from), Get(s.values, w(l).to);
      if x == y || l !in s.dir then s1
      else if s.dir[l] == Fwd then Set(w, s1, w(l).to, x)
      else Set(w, s1, w(l).from, y)
  }

  function SyncAll(w: Wiring, s: State, ls: seq<Link>): State
    decreases |ls|
  {
    if ls == [] then s else SyncAll(w, Sync(w, s, ls[0]), ls[1..])
  }

  /** One round of the run loop over its sync queue, during which change events are held back. */
  function FlushPass(w: Wiring, s: State): State {
    var s1 := SyncAll(w, BeginChanges(s.(queue := [])), s.queue);
    if s1.suspended > 0 then EndChanges(w, s1) else s1
  }

  // ----- what every step keeps

  ghost predicate Differ(w: Wiring, s: State, l: Link) {
    Get(s.values, w(l).from) != Get(s.values, w(l).to)
  }

  /** A change of one end is on its way to the link. */
  ghost predicate Announced(w: Wiring, s: State, l: Link) {
    exists c :: c in s.events && Hears(w, l, c)
  }

  /** `rest` is what is left of the round that is being flushed. */
  ghost predicate Queued(s: State, rest: seq<Link>) {
    Distinct(rest + s.queue) && forall l :: l in rest + s.queue ==> l in s.dir
  }

  /** Ends differ only if a sync has been noted for the link, or a change event is held back. */
  ghost predicate Accounted(w: Wiring, s: State, but: set<Link>) {
    forall l :: l in s.links && l !in but && !w(l).oneWay && Differ(w, s, l) ==> l in s.dir || Announced(w, s, l)
  }

  ghost predicate Inv(w: Wiring, s: State, rest: seq<Link>, but: set<Link>) {
    Queued(s, rest) && Distinct(s.links) && Accounted(w, s, but) && (s.suspended == 0 ==> s.events == [])
  }

  /** A sync is noted on the binding that no queue holds any more. */
  ghost predicate Stale(s: State, rest: seq<Link>, l: Link) {
    l in s.dir && l !in rest + s.queue
  }

  /** What telling links leaves alone, and what it can only add to. */
  ghost predicate Grown(s: State, t: State) {
    && t.values == s.values && t.suspended == s.suspended && t.events == s.events && t.links == s.links &&
        t.ready == s.ready
    && (forall l :: l in s.dir ==> l in t.dir)
    && |s.queue| <= |t.queue| && t.queue[..|s.queue|] == s.queue
  }

  /** A link is newly noted exactly when it is newly queued. */
  ghost predicate SameStale(s: State, t: State, rest: seq<Link>) {
    forall l :: Stale(t, rest, l) <==> Stale(s, rest, l)
  }

  lemma ScheduleKeeps(s: State, l: Link, d: Dir, rest: seq<Link>)
    requires Queued(s, rest)
    ensures var t := ScheduleSync(s, l, d); Queued(t, rest) && Grown(s, t) && SameStale(s, t, rest) && l in t.dir
  {
    var t := ScheduleSync(s, l, d);
    if l !in s.dir {
      assert rest + t.queue == (rest + s.queue) + [l];
    }
  }

  lemma GrownTwice(s: State, t: State, u: State)
    requires Grown(s, t) && Grown(t, u)
    ensures Grown(s, u)
  {
    assert u.queue[..|s.queue|] == u.queue[..|t.queue|][..|s.queue|];
  }

  lemma TellKeeps(w: Wiring, s: State, l: Link, c: Cell, rest: seq<Link>)
    requires Queued(s, rest)
    ensures var t := Tell(w, s, l, c);
            Queued(t, rest) && Grown(s, t) && SameStale(s, t, rest) &&
            (Hears(w, l, c) ==> l in t.dir)
  {
    hide Queued, Grown, SameStale, ScheduleSync;
    GrownSelf(s, rest);
    var s1 := if w(l).from == c then ScheduleSync(s, l, Fwd) else s;
    if w(l).from == c { ScheduleKeeps(s, l, Fwd, rest); }
    if w(l).to == c && !w(l).oneWay {
      ScheduleKeeps(s1, l, Back, rest);
      GrownTwice(s, s1, ScheduleSync(s1, l, Back));
      SameStaleTwice(s, s1, ScheduleSync(s1, l, Back), rest);
    }
  }

  lemma GrownSelf(s: State, rest: seq<Link>)
    ensures Grown(s, s) && SameStale(s, s, rest)
  {
  }

  lemma SameStaleTwice(s: State, t: State, u: State, rest: seq<Link>)
    requires SameStale(s, t, rest) && SameStale(t, u, rest)
    ensures SameStale(s, u, rest)
  {
  }

  ghost predicate Told(w: Wiring, s: State, t: State, c: Cell, n: nat)
    requires n <= |s.links|
  {
    forall i :: 0 <= i < n && Hears(w, s.links[i], c) ==> s.links[i] in t.dir
  }

  lemma {:induction false} TellUpToKeeps(w: Wiring, s: State, c: Cell, n: nat, rest: seq<Link>)
    requires n <= |s.links| && Queued(s, rest)
    ensures var t := TellUpTo(w, s, c, n);
            Queued(t, rest) && Grown(s, t) && SameStale(s, t, rest) &&
            Told(w, s, t, c, n)
    decreases n
  {
    hide Queued, Grown, SameStale, Tell, Hears, Told;
    if n == 0 {
      GrownSelf(s, rest);
      NoneTold(w, s, c);
    } else {
      TellUpToKeeps(w, s, c, n - 1, rest);
      var s1 := TellUpTo(w, s, c, n - 1);
      var t := Tell(w, s1, s.links[n - 1], c);
      TellKeeps(w, s1, s.links[n - 1], c, rest);
      GrownTwice(s, s1, t);
      SameStaleTwice(s, s1, t, rest);
      OneMoreTold(w, s, s1, t, c, n);
    }
  }

  lemma NoneTold(w: Wiring, s: State, c: Cell)
    ensures Told(w, s, s, c, 0)
  {
  }

  lemma OneMoreTold(w: Wiring, s: State, s1: State, t: State, c: Cell, n: nat)
    requires 0 < n <= |s.links| && Told(w, s, s1, c, n - 1) && Grown(s1, t) &&
             (Hears(w, s.links[n - 1], c) ==> s.links[n - 1] in t.dir)
    ensures Told(w, s, t, c, n)
  {
  }

  /** Every link that hears of a change has a sync noted afterwards. */
  lemma SendKeeps(w: Wiring, s: State, c: Cell, rest: seq<Link>)
    requires Queued(s, rest)
    ensures var t := SendEvent(w, s, c); Queued(t, rest) && Grown(s, t) && SameStale(s, t, rest)
    ensures forall l :: l in s.links && Hears(w, l, c) ==> l in SendEvent(w, s, c).dir
  {
    hide Queued, Grown, SameStale, TellUpTo;
    TellUpToKeeps(w, s, c, |s.links|, rest);
  }

  lemma {:induction false} SendAllKeeps(w: Wiring, s: State, events: seq<Cell>, rest: seq<Link>)
    requires Queued(s, rest)
    ensures var t := SendAll(w, s, events); Queued(t, rest) && Grown(s, t) && SameStale(s, t, rest)
    ensures forall l, c :: l in s.links && c in events && Hears(w, l, c) ==> l in SendAll(w, s, events).dir
    decreases |events|
  {
    hide Queued, SameStale, SendEvent, Hears;
    if events == [] {
      GrownSelf(s, rest);
    } else {
      var rest', c := events[..|events| - 1], events[|events| - 1];
      SendAllKeeps(w, s, rest', rest);
      var s1 := SendAll(w, s, rest');
      SendKeeps(w, s1, c, rest);
      GrownTwice(s, s1, SendEvent(w, s1, c));
      SameStaleTwice(s, s1, SendEvent(w, s1, c), rest);
      assert events == rest' + [c];
    }
  }

  // ----- setting a cell

  /** Links whose ends a change leaves equal or different as they were. */
  lemma OtherLinks(w: Wiring, s: State, c: Cell, v: Value, l: Link)
    requires !w(l).oneWay && (!Hears(w, l, c) || v == Get(s.values, c))
    ensures Differ(w, s.(values := s.values[c := v]), l) <==> Differ(w, s, l)
  {
  }

  lemma AfterNotify(w: Wiring, s: State, t: State, c: Cell, v: Value, but: set<Link>)
    requires Accounted(w, s, but) && t.values == s.values[c := v] && t.links == s.links
    requires (forall l :: l in s.dir ==> l in t.dir) && (forall e :: e in s.events ==> e in t.events)
    requires forall l :: l in s.links && Hears(w, l, c) ==> l in t.dir || c in t.events
    ensures Accounted(w, t, but)
  {
    hide Differ, Hears;
    forall l | l in t.links && l !in but && !w(l).oneWay && Differ(w, t, l)
      ensures l in t.dir || Announced(w, t, l)
    {
      if !Hears(w, l, c) {
        OtherLinks(w, s, c, v, l);
        assert Differ(w, t, l) <==> Differ(w, s.(values := s.values[c := v]), l) by {
          SameValues(w, t, s.(values := s.values[c := v]), l);
        }
      }
    }
  }

  lemma SameValues(w: Wiring, s: State, t: State, l: Link)
    requires s.values == t.values
    ensures Differ(w, s, l) <==> Differ(w, t, l)
  {
  }

  lemma UnheardSet(w: Wiring, s: State, c: Cell, v: Value, but: set<Link>)
    requires Accounted(w, s, but) && (!Watched(w, s, c) || v == Get(s.values, c))
    ensures Accounted(w, s.(values := s.values[c := v]), but)
  {
    hide Differ, Hears;
    var t := s.(values := s.values[c := v]);
    forall l | l in t.links && l !in but && !w(l).oneWay && Differ(w, t, l)
      ensures l in t.dir || Announced(w, t, l)
    {
      OtherLinks(w, s, c, v, l);
      if e :| e in s.events && Hears(w, l, e) {
        assert e in t.events;
      }
    }
  }

  lemma SetKeeps(w: Wiring, s: State, c: Cell, v: Value, rest: seq<Link>, but: set<Link>)
    requires Inv(w, s, rest, but)
    ensures var t := Set(w, s, c, v);
            && Inv(w, t, rest, but) && SameStale(s, t, rest)
            && t.values == s.values[c := v] && t.suspended == s.suspended && t.links == s.links && t.ready == s.ready
  {
    hide Notify, Watched, Accounted, Differ, Hears;
    var s1 := s.(values := s.values[c := v]);
    if Watched(w, s, c) && v != Get(s.values, c) {
      NotifyKeeps(w, s1, c, rest);
      AfterNotify(w, s, Notify(w, s1, c), c, v, but);
    } else {
      UnheardSet(w, s, c, v, but);
    }
  }

  lemma NotifyKeeps(w: Wiring, s: State, c: Cell, rest: seq<Link>)
    requires Queued(s, rest)
    ensures var t := Notify(w, s, c);
            && Queued(t, rest) && SameStale(s, t, rest)
            && t.values == s.values && t.suspended == s.suspended && t.links == s.links && t.ready == s.ready
            && (s.suspended == 0 ==> t.events == s.events)
            && (forall l :: l in s.dir ==> l in t.dir)
            && (forall e :: e in s.events ==> e in t.events)
            && (forall l :: l in s.links && Hears(w, l, c) ==> l in t.dir || c in t.events)
  {
    hide Hears, SendEvent;
    if s.suspended == 0 {
      SendKeeps(w, s, c, rest);
    }
  }

  // ----- one sync

  /** Without the item in front, before it runs. */
  lemma Popped(s: State, ls: seq<Link>)
    requires Queued(s, ls) && ls != []
    ensures Distinct(ls[1..] + s.queue) && ls[0] !in ls[1..] + s.queue && ls[0] in s.dir
    ensures forall l :: l in ls[1..] + s.queue ==> l in s.dir
    ensures forall l :: l in ls + s.queue <==> l == ls[0] || l in ls[1..] + s.queue
  {
    hide Distinct;
    assert ls + s.queue == [ls[0]] + (ls[1..] + s.queue);
    DistinctTail(ls[0], ls[1..] + s.queue);
  }

  /**
   Running the first item keeps the invariant for the rest.  It leaves the link stale if the binding is
   not ready, and no other link.
   */
  lemma SyncKeeps(w: Wiring, s: State, ls: seq<Link>)
    requires Inv(w, s, ls, {}) && ls != []
    ensures var t := Sync(w, s, ls[0]);
            && Inv(w, t, ls[1..], {}) && t.suspended == s.suspended && t.links == s.links && t.ready == s.ready
            && (forall l :: Stale(t, ls[1..], l) <==> Stale(s, ls, l) || (l == ls[0] && l.binding !in s.ready))
  {
    hide Set, Accounted, Distinct;
    var l, rest := ls[0], ls[1..];
    Popped(s, ls);
    if l.binding in s.ready {
      var s1 := s.(dir := s.dir - {l});
      ForgetOne(w, s, l);
      assert Inv(w, s1, rest, {l});
      var x, y := Get(s.values, w(l).from), Get(s.values, w(l).to);
      if x != y && s.dir[l] == Fwd {
        SetKeeps(w, s1, w(l).to, x, rest, {l});
        EndsMeet(w, Set(w, s1, w(l).to, x), l);
      } else if x != y {
        SetKeeps(w, s1, w(l).from, y, rest, {l});
        EndsMeet(w, Set(w, s1, w(l).from, y), l);
      } else {
        EndsMeet(w, s1, l);
      }
    }
  }

  lemma ForgetOne(w: Wiring, s: State, l: Link)
    requires Accounted(w, s, {})
    ensures Accounted(w, s.(dir := s.dir - {l}), {l})
  {
    hide Hears;
    var t := s.(dir := s.dir - {l});
    forall k | k in t.links && k !in {l} && !w(k).oneWay && Differ(w, t, k)
      ensures k in t.dir || Announced(w, t, k)
    {
      assert Differ(w, s, k);
      if e :| e in s.events && Hears(w, k, e) {
        assert e in t.events;
      }
    }
  }

  lemma EndsMeet(w: Wiring, s: State, l: Link)
    requires Accounted(w, s, {l}) && !Differ(w, s, l)
    ensures Accounted(w, s, {})
  {
    hide Announced;
  }

  // ----- a round of the run loop

  lemma {:induction false} SyncAllKeeps(w: Wiring, s: State, ls: seq<Link>)
    requires Inv(w, s, ls, {})
    ensures var t := SyncAll(w, s, ls);
            && Inv(w, t, [], {}) && t.suspended == s.suspended && t.links == s.links && t.ready == s.ready
            && (forall l :: Stale(t, [], l) <==> Stale(s, ls, l) || (l in ls && l.binding !in s.ready))
    decreases |ls|
  {
    hide Inv, Sync, Stale;
    if ls != [] {
      SyncKeeps(w, s, ls);
      SyncAllKeeps(w, Sync(w, s, ls[0]), ls[1..]);
    } else {
      assert ls == [];
    }
  }

  lemma EndKeeps(w: Wiring, s: State)
    requires Inv(w, s, [], {}) && s.suspended > 0
    ensures var t := EndChanges(w, s);
            && Inv(w, t, [], {}) && t.values == s.values && t.suspended == s.suspended - 1 && t.links == s.links &&
                t.ready == s.ready
            && (forall l :: Stale(t, [], l) <==> Stale(s, [], l))
  {
    hide Differ, Hears, SendAll, Distinct;
    if s.suspended == 1 {
      var s1 := s.(suspended := 0, events := []);
      SendAllKeeps(w, s1, s.events, []);
      var t := SendAll(w, s1, s.events);
      forall l | l in t.links && !w(l).oneWay && Differ(w, t, l)
        ensures l in t.dir
      {
        assert Differ(w, s, l) by { SameValues(w, s, t, l); }
      }
    } else {
      SameEvents(w, s, s.(suspended := s.suspended - 1));
    }
  }

  /** Holding events back, or not, does not matter to what is accounted for. */
  lemma SameEvents(w: Wiring, s: State, t: State)
    requires Accounted(w, s, {}) && t.values == s.values && t.events == s.events && t.links == s.links && t.dir == s.dir
    ensures Accounted(w, t, {})
  {
    hide Hears;
    forall l | l in t.links && !w(l).oneWay && Differ(w, t, l)
      ensures l in t.dir || Announced(w, t, l)
    {
      assert Differ(w, s, l);
      if e :| e in s.events && Hears(w, l, e) {
        assert e in t.events;
      }
    }
  }

  lemma BeginKeeps(w: Wiring, s: State, rest: seq<Link>)
    requires Inv(w, s, rest, {})
    ensures Inv(w, BeginChanges(s), rest, {}) && SameStale(s, BeginChanges(s), rest)
  {
    hide Accounted, Distinct;
    SameEvents(w, s, BeginChanges(s));
  }

  /** The queue becomes the round's own. */
  lemma TakeQueue(w: Wiring, s: State)
    requires Inv(w, s, [], {})
    ensures Inv(w, s.(queue := []), s.queue, {}) && forall l :: Stale(s.(queue := []), s.queue, l) <==> Stale(s, [], l)
  {
    hide Accounted, Distinct;
    assert s.queue + [] == s.queue == [] + s.queue;
    SameEvents(w, s, s.(queue := []));
  }

  /**
   A whole round keeps the invariant.  Afterwards a link is stale if it was before, or if its sync came up
   while its binding was not ready, and in no other case.
   */
  lemma FlushPassKeeps(w: Wiring, s: State)
    requires Inv(w, s, [], {})
    ensures var t := FlushPass(w, s);
            && Inv(w, t, [], {}) && t.suspended == s.suspended && t.links == s.links && t.ready == s.ready
            && (forall l :: Stale(t, [], l) <==> Stale(s, [], l) || (l in s.queue && l.binding !in s.ready))
  {
    hide Inv, SyncAll, EndChanges, Stale;
    TakeQueue(w, s);
    var s0 := s.(queue := []);
    BeginKeeps(w, s0, s.queue);
    SyncAllKeeps(w, BeginChanges(s0), s.queue);
    EndKeeps(w, SyncAll(w, BeginChanges(s0), s.queue));
  }

  // ----- connecting and disconnecting

  lemma ConnectKeeps(w: Wiring, s: State, l: Link)
    requires Inv(w, s, [], {}) && l !in s.links
    ensures var t := Connect(s, l);
            Inv(w, t, [], {}) && (forall k :: Stale(t, [], k) <==> Stale(s, [], k)) &&
            t.values == s.values
  {
    hide Distinct, ScheduleSync, Differ, Hears;
    var s1 := s.(links := s.links + [l]);
    ScheduleKeeps(s1, l, Fwd, []);
    DistinctSnoc(s.links, l);
    var t := Connect(s, l);
    var s2 := ScheduleSync(s1, l, Fwd);
    forall k
      ensures Stale(t, [], k) <==> Stale(s, [], k)
    {
      assert Stale(s2, [], k) <==> Stale(s1, [], k);
    }
    forall k | k in t.links && !w(k).oneWay && Differ(w, t, k)
      ensures k in t.dir || Announced(w, t, k)
    {
      if k != l {
        assert Differ(w, s, k) by { SameValues(w, s, t, k); }
        if e :| e in s.events && Hears(w, k, e) {
          assert e in t.events;
        }
      }
    }
  }

  lemma DistinctSnoc(ls: seq<Link>, l: Link)
    requires Distinct(ls) && l !in ls
    ensures Distinct(ls + [l])
  {
  }

  lemma {:induction false} WithoutKeeps(ls: seq<Link>, l: Link)
    requires Distinct(ls)
    ensures Distinct(Without(ls, l)) && forall k :: k in Without(ls, l) <==> k in ls && k != l
  {
    if ls != [] {
      assert ls == [ls[0]] + ls[1..];
      DistinctTail(ls[0], ls[1..]);
      WithoutKeeps(ls[1..], l);
    }
  }

  /** Removing a link keeps the order of the others. */
  lemma {:induction false} WithoutOne(a: seq<Link>, l: Link, b: seq<Link>)
    requires l !in a && l !in b
    ensures Without(a + [l] + b, l) == a + b
    decreases |a| + |b|
  {
    var ls := a + [l] + b;
    if a != [] {
      assert ls[1..] == a[1..] + [l] + b && a + b == [a[0]] + (a[1..] + b);
      WithoutOne(a[1..], l, b);
    } else {
      assert ls[1..] == b;
      WithoutNone(b, l);
    }
  }

  lemma {:induction false} WithoutNone(ls: seq<Link>, l: Link)
    requires l !in ls
    ensures Without(ls, l) == ls
  {
    if ls != [] {
      WithoutNone(ls[1..], l);
      assert ls == [ls[0]] + ls[1..];
    }
  }

  lemma DisconnectKeeps(w: Wiring, s: State, l: Link)
    requires Inv(w, s, [], {})
    ensures var t := Disconnect(s, l);
            Inv(w, t, [], {}) && (forall k :: Stale(t, [], k) <==> Stale(s, [], k)) &&
            t.values == s.values
  {
    hide Distinct, Differ, Hears, Without;
    var t := Disconnect(s, l);
    WithoutKeeps(s.links, l);
    forall k | k in t.links && !w(k).oneWay && Differ(w, t, k)
      ensures k in t.dir || Announced(w, t, k)
    {
      assert Differ(w, s, k) by { SameValues(w, s, t, k); }
      if e :| e in s.events && Hears(w, k, e) {
        assert e in t.events;
      }
    }
  }

  // ----- whole runs

  datatype Action =
    | SetCell(c: Cell, v: Value)
    | Begin
    | End
    | ConnectLink(l: Link)
    | DisconnectLink(l: Link)
    | Flush

  /** What user code may do next: changes end only where they began, and a link is connected once. */
  predicate Allowed(s: State, a: Action) {
    match a
    case End => s.suspended > 0
    case ConnectLink(l) => l !in s.links
    case _ => true
  }

  function Do(w: Wiring, s: State, a: Action): State
    requires Allowed(s, a)
  {
    match a
    case SetCell(c, v) => Set(w, s, c, v)
    case Begin => BeginChanges(s)
    case End => EndChanges(w, s)
    case ConnectLink(l) => Connect(s, l)
    case DisconnectLink(l) => Disconnect(s, l)
    case Flush => FlushPass(w, s)
  }

  ghost predicate Runs(w: Wiring, s: State, actions: seq<Action>)
    decreases |actions|
  {
    actions == [] || (Allowed(s, actions[0]) && Runs(w, Do(w, s, actions[0]), actions[1..]))
  }

  function Run(w: Wiring, s: State, actions: seq<Action>): State
    requires Runs(w, s, actions)
    decreases |actions|
  {
    if actions == [] then s else Run(w, Do(w, s, actions[0]), actions[1..])
  }

  /** Some round of the run comes to the link's sync while its binding is not ready. */
  ghost predicate Skipped(w: Wiring, s: State, actions: seq<Action>, l: Link)
    requires Runs(w, s, actions)
    decreases |actions|
  {
    actions != [] && ((actions[0].Flush? && l in s.queue && l.binding !in s.ready) ||
                      Skipped(w, Do(w, s, actions[0]), actions[1..], l))
  }

  lemma DoKeeps(w: Wiring, s: State, a: Action)
    requires Inv(w, s, [], {}) && Allowed(s, a)
    ensures var t := Do(w, s, a);
            && Inv(w, t, [], {})
            && (forall l :: Stale(t, [], l) <==> Stale(s, [], l) || (a.Flush? && l in s.queue && l.binding !in s.ready))
  {
    hide Inv, Stale, Set, EndChanges, Connect, Disconnect, FlushPass, BeginChanges;
    match a {
      case SetCell(c, v) => SetKeeps(w, s, c, v, [], {});
      case Begin => BeginKeeps(w, s, []);
      case End => EndKeeps(w, s);
      case ConnectLink(l) => ConnectKeeps(w, s, l);
      case DisconnectLink(l) => DisconnectKeeps(w, s, l);
      case Flush => FlushPassKeeps(w, s);
    }
  }

  /** The invariant holds along every run, and a link ends up stale exactly if one of its syncs was skipped. */
  lemma {:induction false} RunKeeps(w: Wiring, s: State, actions: seq<Action>)
    requires Inv(w, s, [], {}) && Runs(w, s, actions)
    ensures Inv(w, Run(w, s, actions), [], {})
    ensures forall l :: Stale(Run(w, s, actions), [], l) <==> Stale(s, [], l) || Skipped(w, s, actions, l)
    decreases |actions|
  {
    hide Inv, Stale, Do, Allowed;
    if actions != [] {
      DoKeeps(w, s, actions[0]);
      RunKeeps(w, Do(w, s, actions[0]), actions[1..]);
    }
  }

  const NOTHING := State(map[], 0, [], [], {}, map[], [])

  /** Nothing is scheduled and no change is held back. */
  predicate Quiet(s: State) {
    s.queue == [] && s.events == []
  }

  /**
   Whenever a run from the start comes to rest, the ends of every connected two-way link agree, unless one
   of its syncs was skipped on the way.
   */
  lemma AgreeAtRest(w: Wiring, actions: seq<Action>, l: Link)
    requires Runs(w, NOTHING, actions) && Quiet(Run(w, NOTHING, actions))
    requires l in Run(w, NOTHING, actions).links && !w(l).oneWay && !Skipped(w, NOTHING, actions, l)
    ensures !Differ(w, Run(w, NOTHING, actions), l)
  {
    hide Run, Skipped, Runs, Differ, Inv, Stale;
    NothingHolds(w);
    RunKeeps(w, NOTHING, actions);
    assert !Stale(NOTHING, [], l) by { NothingStale(l); }
    RestAgrees(w, Run(w, NOTHING, actions));
  }

  lemma NothingStale(l: Link)
    ensures !Stale(NOTHING, [], l)
  {
  }

  /** At rest the invariant leaves no difference but that of a stale link. */
  lemma RestAgrees(w: Wiring, s: State)
    requires Inv(w, s, [], {}) && Quiet(s)
    ensures forall l :: l in s.links && !w(l).oneWay && !Stale(s, [], l) ==> !Differ(w, s, l)
  {
    hide Differ;
  }

  /** A link has at most one sync in the queue, and one exactly if it is noted and not stale. */
  lemma OnePending(w: Wiring, actions: seq<Action>)
    requires Runs(w, NOTHING, actions)
    ensures var s := Run(w, NOTHING, actions);
            Distinct(s.queue) && forall l :: l in s.queue <==> l in s.dir && !Skipped(w, NOTHING, actions, l)
  {
    hide Run, Skipped, Runs, Distinct, Accounted;
    assert Inv(w, NOTHING, [], {}) by { NothingHolds(w); }
    RunKeeps(w, NOTHING, actions);
    var s := Run(w, NOTHING, actions);
    assert [] + s.queue == s.queue;
    assert forall l :: !Stale(NOTHING, [], l);
  }

  lemma NothingHolds(w: Wiring)
    ensures Inv(w, NOTHING, [], {})
  {
  }

  // ----- which way a sync goes

  /** The direction noted for a link after a step, given the one before and which of its ends changed. */
  ghost predicate Directed(s: State, t: State, l: Link, from: bool, to: bool) {
    && (l in t.dir <==> l in s.dir || from || to)
    && (l in t.dir ==> (t.dir[l] == Fwd <==> (l in s.dir && s.dir[l] == Fwd) || from))
  }

  lemma DirectedTwice(s: State, t: State, u: State, l: Link, from: bool, to: bool, from': bool, to': bool)
    requires Directed(s, t, l, from, to) && Directed(t, u, l, from', to')
    ensures Directed(s, u, l, from || from', to || to')
  {
  }

  lemma TellDirects(w: Wiring, s: State, k: Link, c: Cell, l: Link)
    ensures Directed(s, Tell(w, s, k, c), l, k == l && w(l).from == c, k == l && w(l).to == c && !w(l).oneWay)
  {
  }

  lemma {:induction false} TellUpToDirects(w: Wiring, s: State, c: Cell, n: nat, l: Link)
    requires n <= |s.links|
    ensures Directed(s, TellUpTo(w, s, c, n), l, l in s.links[..n] && w(l).from == c,
                     l in s.links[..n] && w(l).to == c && !w(l).oneWay)
    decreases n
  {
    hide Directed, Tell;
    if n == 0 {
      NotDirected(s, l);
    } else {
      TellUpToDirects(w, s, c, n - 1, l);
      TellDirects(w, TellUpTo(w, s, c, n - 1), s.links[n - 1], c, l);
      DirectedTwice(s, TellUpTo(w, s, c, n - 1), TellUpTo(w, s, c, n), l,
                    l in s.links[..n - 1] && w(l).from == c, l in s.links[..n - 1] && w(l).to == c && !w(l).oneWay,
                    s.links[n - 1] == l && w(l).from == c, s.links[n - 1] == l && w(l).to == c && !w(l).oneWay);
      assert s.links[..n] == s.links[..n - 1] + [s.links[n - 1]];
    }
  }

  lemma NotDirected(s: State, l: Link)
    ensures Directed(s, s, l, false, false)
  {
  }

  /**
   When the changes held back are delivered, a connected link is to be synced if either end changed, and
   forward if its `from` end is among them or was before: forward overrides back, in any order.
   */
  lemma {:induction false} SendAllDirects(w: Wiring, s: State, events: seq<Cell>, l: Link)
    requires Queued(s, []) && l in s.links
    ensures Directed(s, SendAll(w, s, events), l, w(l).from in events, w(l).to in events && !w(l).oneWay)
    decreases |events|
  {
    hide Directed, TellUpTo, Queued, SameStale;
    if events == [] {
      NotDirected(s, l);
    } else {
      var rest, c := events[..|events| - 1], events[|events| - 1];
      SendAllDirects(w, s, rest, l);
      SendAllKeeps(w, s, rest, []);
      var s1 := SendAll(w, s, rest);
      TellUpToDirects(w, s1, c, |s1.links|, l);
      assert s1.links[..|s1.links|] == s1.links == s.links;
      DirectedTwice(s, s1, SendEvent(w, s1, c), l, w(l).from in rest, w(l).to in rest && !w(l).oneWay,
                    w(l).from == c, w(l).to == c && !w(l).oneWay);
      assert events == rest + [c];
    }
  }

  /** Setting a value that is already there tells nobody. */
  lemma SameValueIsSilent(w: Wiring, s: State, c: Cell, v: Value)
    requires v == Get(s.values, c)
    ensures Set(w, s, c, v) == s.(values := s.values[c := v])
  {
  }

  /**
   While no change is suspended, setting a cell notes a sync for exactly the connected links that lead from it, forward,
   and for the two-way links that lead to it, back unless they are pending forward; and only if the value is new.
   */
  lemma SetDirects(w: Wiring, s: State, c: Cell, v: Value, l: Link)
    requires s.suspended == 0
    ensures var t, heard := Set(w, s, c, v), v != Get(s.values, c) && l in s.links;
            Directed(s, t, l, heard && w(l).from == c, heard && w(l).to == c && !w(l).oneWay) && t.events == s.events
  {
    hide Directed, Get;
    var s1 := s.(values := s.values[c := v]);
    TellUpToDirects(w, s1, c, |s1.links|, l);
    TellValues(w, s1, c, |s1.links|);
    assert s1.links[..|s1.links|] == s.links;
    SameDirected(s1, s, Set(w, s, c, v), l);
    hide TellUpTo;
    if v == Get(s.values, c) || !Watched(w, s, c) {
      NotDirected(s1, l);
      assert v != Get(s.values, c) && l in s.links ==> !Hears(w, l, c);
    }
  }

  lemma SameDirected(s: State, s': State, t: State, l: Link)
    requires s.dir == s'.dir
    ensures forall from, to :: Directed(s, t, l, from, to) <==> Directed(s', t, l, from, to)
  {
  }

  /** While changes are suspended, setting a watched cell to a new value keeps one event for it, and does no more. */
  lemma SetWaits(w: Wiring, s: State, c: Cell, v: Value)
    requires s.suspended > 0
    ensures var heard := exists l :: l in s.links && (w(l).from == c || (w(l).to == c && !w(l).oneWay));
            Set(w, s, c, v) == s.(values := s.values[c := v],
                                  events := if heard && v != Get(s.values, c) && c !in s.events then s.events + [c]
                                            else s.events)
  {
    if l :| l in s.links && (w(l).from == c || (w(l).to == c && !w(l).oneWay)) {
      assert Hears(w, l, c);
    }
  }

  /** A change in a bracket of its own does what it does outside. */
  lemma BracketedSet(w: Wiring, s: State, c: Cell, v: Value)
    requires s.suspended == 0 && s.events == []
    ensures EndChanges(w, BeginChanges(s)) == s
    ensures EndChanges(w, Set(w, BeginChanges(s), c, v)) == Set(w, s, c, v)
  {
    hide SendEvent, SendAll, Watched;
    var s1 := s.(values := s.values[c := v]);
    assert [] + [c] == [c];
    SendOne(w, s, c);
    SendOne(w, s1, c);
    assert Watched(w, BeginChanges(s), c) == Watched(w, s, c) by { SameWatched(w, BeginChanges(s), s, c); }
  }

  lemma SendOne(w: Wiring, s: State, c: Cell)
    ensures SendAll(w, s, []) == s && SendAll(w, s, [c]) == SendEvent(w, s, c)
  {
    hide SendEvent;
    assert [c][..0] == [];
  }

  lemma SameWatched(w: Wiring, s: State, t: State, c: Cell)
    requires s.links == t.links
    ensures Watched(w, s, c) == Watched(w, t, c)
  {
  }

  /** Events are sent from the first to the last. */
  lemma {:induction false} SendFirst(w: Wiring, s: State, c: Cell, rest: seq<Cell>)
    ensures SendAll(w, s, [c] + rest) == SendAll(w, SendEvent(w, s, c), rest)
    decreases |rest|
  {
    hide SendEvent;
    if rest == [] {
      assert [c] + [] == [c] && [c][..0] == [] && SendAll(w, s, []) == s;
    } else {
      assert ([c] + rest)[..|rest|] == [c] + rest[..|rest| - 1];
      SendFirst(w, s, c, rest[..|rest| - 1]);
    }
  }

  /** The links among `ls` that hear of a cell and are not pending yet. */
  function Hearers(w: Wiring, s: State, ls: seq<Link>, c: Cell): seq<Link> {
    if ls == [] then []
    else (if Hears(w, ls[0], c) && ls[0] !in s.dir then [ls[0]] else []) + Hearers(w, s, ls[1..], c)
  }

  lemma {:induction false} HearersConcat(w: Wiring, s: State, a: seq<Link>, b: seq<Link>, c: Cell)
    ensures Hearers(w, s, a + b, c) == Hearers(w, s, a, c) + Hearers(w, s, b, c)
    decreases |a|
  {
    hide Hears;
    if a == [] {
      assert a + b == b;
    } else {
      assert (a + b)[1..] == a[1..] + b;
      HearersConcat(w, s, a[1..], b, c);
    }
  }

  /** Links that hear of a change join the queue at its end, in the order in which they were connected. */
  lemma {:induction false} TellInOrder(w: Wiring, s: State, c: Cell, n: nat)
    requires n <= |s.links| && Distinct(s.links)
    ensures TellUpTo(w, s, c, n).queue == s.queue + Hearers(w, s, s.links[..n], c)
    decreases n
  {
    hide Directed, ScheduleSync;
    if n > 0 {
      var l, before := s.links[n - 1], s.links[..n - 1];
      var t := TellUpTo(w, s, c, n - 1);
      TellInOrder(w, s, c, n - 1);
      TellUpToDirects(w, s, c, n - 1, l);
      assert l !in before;
      assert l in t.dir <==> l in s.dir by { NowhereDirected(s, t, l); }
      TellOneQueues(w, t, l, c);
      HearersConcat(w, s, before, [l], c);
      assert s.links[..n] == before + [l];
      assert Hearers(w, s, [l], c) == if Hears(w, l, c) && l !in s.dir then [l] else [];
    }
  }

  lemma NowhereDirected(s: State, t: State, l: Link)
    requires Directed(s, t, l, false, false)
    ensures l in t.dir <==> l in s.dir
  {
  }

  lemma TellOneQueues(w: Wiring, s: State, l: Link, c: Cell)
    ensures Tell(w, s, l, c).queue == s.queue + if Hears(w, l, c) && l !in s.dir then [l] else []
  {
  }

  lemma SendInOrder(w: Wiring, s: State, c: Cell)
    requires Distinct(s.links)
    ensures SendEvent(w, s, c).queue == s.queue + Hearers(w, s, s.links, c)
  {
    TellInOrder(w, s, c, |s.links|);
    assert s.links[..|s.links|] == s.links;
  }

  /** A sync makes the ends agree: on the `from` value going forward, on the `to` value going back. */
  lemma SyncCopies(w: Wiring, s: State, l: Link)
    requires l.binding in s.ready && l in s.dir
    ensures var t := Sync(w, s, l);
            var v := Get(s.values, if s.dir[l] == Fwd then w(l).from else w(l).to);
            && Get(t.values, w(l).from) == v && Get(t.values, w(l).to) == v
            && forall c :: c != w(l).from && c != w(l).to ==> Get(t.values, c) == Get(s.values, c)
  {
    hide SendEvent;
    SetValues(w, s.(dir := s.dir - {l}), w(l).to, Get(s.values, w(l).from));
    SetValues(w, s.(dir := s.dir - {l}), w(l).from, Get(s.values, w(l).to));
    hide Set;
  }

  /** A new link first copies its `from` value. */
  lemma ConnectCopies(w: Wiring, s: State, l: Link)
    requires Quiet(s) && s.suspended == 0 && l !in s.dir
    ensures var x, t := Get(s.values, w(l).from), FlushPass(w, Connect(s, l));
            && Get(t.values, w(l).from) == x && Get(t.values, w(l).to) == x
            && forall c :: c != w(l).from && c != w(l).to ==> Get(t.values, c) == Get(s.values, c)
  {
    hide Sync, SendAll, Get;
    var s1 := BeginChanges(Connect(s, l).(queue := []));
    assert [] + [l] == [l] && Connect(s, l).queue == [l];
    SyncCopies(w, s1, l);
    var t := Sync(w, s1, l);
    assert [l][1..] == [] && SyncAll(w, s1, [l]) == SyncAll(w, t, []) == t;
    EndValues(w, t);
  }

  lemma EndValues(w: Wiring, s: State)
    ensures s.suspended > 0 ==> EndChanges(w, s).values == s.values
  {
    hide SendAll;
    SendAllValues(w, s.(suspended := 0, events := []), s.events);
  }

  lemma {:induction false} SendAllValues(w: Wiring, s: State, events: seq<Cell>)
    ensures var t := SendAll(w, s, events);
            && t.values == s.values && t.ready == s.ready && t.links == s.links && t.suspended == s.suspended
            && t.events == s.events
    decreases |events|
  {
    hide TellUpTo;
    if events != [] {
      var t := SendAll(w, s, events[..|events| - 1]);
      SendAllValues(w, s, events[..|events| - 1]);
      TellValues(w, t, events[|events| - 1], |t.links|);
    }
  }

  lemma SetValues(w: Wiring, s: State, c: Cell, v: Value)
    ensures Set(w, s, c, v).values == s.values[c := v]
  {
    var s1 := s.(values := s.values[c := v]);
    TellValues(w, s1, c, |s1.links|);
    hide TellUpTo, Watched;
  }

  lemma {:induction false} TellValues(w: Wiring, s: State, c: Cell, n: nat)
    requires n <= |s.links|
    ensures var t := TellUpTo(w, s, c, n);
            && t.values == s.values && t.ready == s.ready && t.links == s.links && t.suspended == s.suspended
            && t.events == s.events
    decreases n
  {
    if n > 0 {
      TellValues(w, s, c, n - 1);
    }
  }

  // ----- what a round does to the values

  /** A round only copies: it leaves no value that was not there before. */
  lemma {:induction false} NothingInvented(w: Wiring, s: State, ls: seq<Link>, vs: set<Value>)
    requires forall c: Cell :: Get(s.values, c) in vs
    ensures forall c: Cell :: Get(SyncAll(w, s, ls).values, c) in vs
    decreases |ls|
  {
    hide Sync, Get;
    if ls != [] {
      forall c: Cell
        ensures Get(Sync(w, s, ls[0]).values, c) in vs
      {
        SyncFrom(w, s, ls[0], c);
      }
      NothingInvented(w, Sync(w, s, ls[0]), ls[1..], vs);
    }
  }

  /** Where a cell's value comes from in a sync. */
  function Source(w: Wiring, s: State, l: Link, c: Cell): Cell {
    if l.binding !in s.ready || l !in s.dir || (c != w(l).from && c != w(l).to) then c
    else if s.dir[l] == Fwd then w(l).from else w(l).to
  }

  lemma SyncFrom(w: Wiring, s: State, l: Link, c: Cell)
    ensures Get(Sync(w, s, l).values, c) == Get(s.values, Source(w, s, l, c))
  {
    hide Set, Get;
    if l.binding in s.ready && l in s.dir {
      SyncCopies(w, s, l);
    }
  }

  /** Once all pending links agree, one more round brings the loop to rest and changes no value. */
  lemma {:induction false} AgreedSyncs(w: Wiring, s: State, ls: seq<Link>)
    requires forall l :: l in ls ==> !Differ(w, s, l)
    ensures var t := SyncAll(w, s, ls);
            t.values == s.values && t.events == s.events && t.queue == s.queue &&
            t.suspended == s.suspended
    decreases |ls|
  {
    if ls != [] {
      assert !Differ(w, s, ls[0]);
      var t := Sync(w, s, ls[0]);
      forall l | l in ls[1..]
        ensures !Differ(w, t, l)
      {
        assert !Differ(w, s, l);
      }
      AgreedSyncs(w, Sync(w, s, ls[0]), ls[1..]);
    }
  }

  lemma AgreedPassRests(w: Wiring, s: State)
    requires s.events == [] && s.suspended == 0 && forall l :: l in s.queue ==> !Differ(w, s, l)
    ensures Quiet(FlushPass(w, s)) && FlushPass(w, s).values == s.values
  {
    AgreedSyncs(w, BeginChanges(s.(queue := [])), s.queue);
    hide SyncAll;
  }

  // ----- a link that never syncs again

  lemma FlushSkips(w: Wiring, s: State, l: Link)
    requires s.suspended == 0 && s.events == [] && s.queue == [l] && l.binding !in s.ready
    ensures FlushPass(w, s) == s.(queue := [])
  {
    var s1 := BeginChanges(s.(queue := []));
    assert SyncAll(w, s1, [l]) == SyncAll(w, s1, []) == s1;
  }

  lemma FlushNothing(w: Wiring, s: State)
    requires s.suspended == 0 && s.events == [] && s.queue == []
    ensures FlushPass(w, s) == s
  {
  }

  lemma SetUnheard(w: Wiring, s: State, c: Cell, v: Value)
    requires s.links == []
    ensures Set(w, s, c, v) == s.(values := s.values[c := v])
  {
  }

  function Reconnecting(w: Wiring, l: Link, x: Value, y: Value): seq<Action> {
    [SetCell(w(l).from, x), SetCell(w(l).to, y), ConnectLink(l), DisconnectLink(l), Flush, ConnectLink(l), Flush]
  }

  /**
   A link that is disconnected before its first sync has run, and connected again afterwards, is dead: the
   run loop comes to rest with its ends different.
   */
  lemma ReconnectedLinkIsDead(w: Wiring, l: Link, x: Value, y: Value)
    requires x != y && w(l).from != w(l).to
    ensures var actions := Reconnecting(w, l, x, y);
            && Runs(w, NOTHING, actions)
            && var s := Run(w, NOTHING, actions); Quiet(s) && l in s.links && l.binding in s.ready && Differ(w, s, l)
  {
    hide Set, FlushPass, Run, Runs, Connect, Disconnect;
    var s1 := NOTHING.(values := map[w(l).from := x]);
    var s2 := NOTHING.(values := map[w(l).from := x][w(l).to := y]);
    SetUnheard(w, NOTHING, w(l).from, x);
    SetUnheard(w, s1, w(l).to, y);
    var s3 := Linked(s2, l);
    FirstConnect(s2, l);
    Disconnected(s3, l);
    var s4 := s3.(links := [], ready := {});
    FlushSkips(w, s4, l);
    var s5 := s4.(queue := []);
    var s6 := s5.(links := [l], ready := {l.binding});
    Reconnected(s5, l);
    FlushNothing(w, s6);
    RunsNone(w, s6);
    var t6 := [Flush] + [];
    RunsStep(w, s6, s6, Flush, []);
    var t5 := [ConnectLink(l)] + t6;
    RunsStep(w, s5, s6, ConnectLink(l), t6);
    var t4 := [Flush] + t5;
    RunsStep(w, s4, s5, Flush, t5);
    var t3 := [DisconnectLink(l)] + t4;
    RunsStep(w, s3, s4, DisconnectLink(l), t4);
    var t2 := [ConnectLink(l)] + t3;
    RunsStep(w, s2, s3, ConnectLink(l), t3);
    var t1 := [SetCell(w(l).to, y)] + t2;
    RunsStep(w, s1, s2, SetCell(w(l).to, y), t2);
    RunsStep(w, NOTHING, s1, SetCell(w(l).from, x), t1);
    assert Reconnecting(w, l, x, y) == [SetCell(w(l).from, x)] + t1;
  }

  /** The state after the first connection of a link. */
  function Linked(s: State, l: Link): State {
    s.(links := [l], ready := {l.binding}, dir := map[l := Fwd], queue := [l])
  }

  lemma FirstConnect(s: State, l: Link)
    requires s.links == [] && s.ready == {} && s.dir == map[] && s.queue == []
    ensures Connect(s, l) == Linked(s, l)
  {
    assert [] + [l] == [l];
  }

  lemma Disconnected(s: State, l: Link)
    requires s.links == [l] && s.ready == {l.binding}
    ensures Disconnect(s, l) == s.(links := [], ready := {})
  {
    assert Without([l], l) == [] && {l.binding} - {l.binding} == {};
  }

  lemma Reconnected(s: State, l: Link)
    requires s.links == [] && s.ready == {} && s.dir == map[l := Fwd]
    ensures Connect(s, l) == s.(links := [l], ready := {l.binding})
  {
    assert [] + [l] == [l];
  }

  lemma RunsNone(w: Wiring, s: State)
    ensures Runs(w, s, []) && Run(w, s, []) == s
  {
  }

  lemma RunsStep(w: Wiring, s: State, t: State, a: Action, actions: seq<Action>)
    requires Allowed(s, a) && Do(w, s, a) == t && Runs(w, t, actions)
    ensures Runs(w, s, [a] + actions) && Run(w, s, [a] + actions) == Run(w, t, actions)
  {
    hide Do, Allowed;
    assert ([a] + actions)[1..] == actions;
  }

  /**
   Two objects that share a binding: disconnecting one while the first sync of the other is pending makes
   that sync be skipped, although the other stays connected.
   */
  lemma SharedBindingSkips(w: Wiring, a: Link, b: Link)
    requires a != b && a.binding == b.binding
    ensures var actions := [ConnectLink(a), ConnectLink(b), DisconnectLink(b), Flush];
            Runs(w, NOTHING, actions) && a in Run(w, NOTHING, actions).links && Skipped(w, NOTHING, actions, a)
  {
    hide FlushPass;
    var s1 := Linked(NOTHING, a);
    FirstConnect(NOTHING, a);
    var s2 := s1.(links := [a, b], dir := map[a := Fwd, b := Fwd], queue := [a, b]);
    assert Connect(s1, b) == s2 by {
      assert [a] + [b] == [a, b] && map[a := Fwd][b := Fwd] == map[a := Fwd, b := Fwd] &&
             {a.binding} + {b.binding} == {a.binding};
    }
    var s3 := s2.(links := [a], ready := {});
    assert Disconnect(s2, b) == s3 by { LastWithout(a, b); }
    assert FlushPass(w, s3).links == [a] by { SkippedRound(w, s3, a, b); }
    var t4 := [Flush] + [];
    RunsStep(w, s3, FlushPass(w, s3), Flush, []);
    var t3 := [DisconnectLink(b)] + t4;
    RunsStep(w, s2, s3, DisconnectLink(b), t4);
    var t2 := [ConnectLink(b)] + t3;
    RunsStep(w, s1, s2, ConnectLink(b), t3);
    RunsStep(w, NOTHING, s1, ConnectLink(a), t2);
    assert [ConnectLink(a), ConnectLink(b), DisconnectLink(b), Flush] == [ConnectLink(a)] + t2;
    assert t4[1..] == [] && t3[1..] == t4 && t2[1..] == t3 && ([ConnectLink(a)] + t2)[1..] == t2;
    assert Skipped(w, s3, t4, a);
    assert Skipped(w, s2, t3, a) && Skipped(w, s1, t2, a);
  }

  lemma LastWithout(a: Link, b: Link)
    requires a != b
    ensures Without([a, b], b) == [a]
  {
    assert [a, b][1..] == [b] && Without([b], b) == [];
  }

  lemma SkippedRound(w: Wiring, s: State, a: Link, b: Link)
    requires s.suspended == 0 && s.events == [] && s.queue == [a, b] && s.ready == {}
    ensures FlushPass(w, s) == s.(queue := [])
  {
    var s1 := BeginChanges(s.(queue := []));
    assert SyncAll(w, s1, [b]) == SyncAll(w, s1, []) == s1;
    assert [a, b][1..] == [b];
  }

  // ----- rounds

  function Passes(w: Wiring, s: State, n: nat): State {
    if n == 0 then s else FlushPass(w, Passes(w, s, n - 1))
  }
}
