/** The binding machinery as it runs: watched setters, the held-back observer set and the run loop's sync queue. */
module BindingEngine {
  import opened JsRuntime
  import opened Bindings

  /** Events waiting for the end of property changes: a set for the membership test beside the array in order. */
  class ObserverSet {
    var members: set<Cell>
    var list: seq<Cell>

    ghost predicate Valid()
      reads this
    {
      forall c :: c in members <==> c in list
    }

    constructor ()
      ensures Valid() && list == []
    {
      members, list := {}, [];
    }

    method Add(c: Cell)
      requires Valid()
      modifies this
      ensures Valid() && list == old(list) + [c]
    {
      members := members + {c};
      list := list + [c];
    }

    method Contains(c: Cell) returns (b: bool)
      requires Valid()
      ensures b <==> c in list
    {
      b := c in members;
    }

    method Empty()
      modifies this
      ensures Valid() && list == []
    {
      members, list := {}, [];
    }
  }

  class Engine {
    const wiring: Wiring
    const events: ObserverSet
    var values: map<Cell, Value>
    var suspended: nat
    var links: seq<Link>
    var ready: set<nat>
    var dir: map<Link, Dir>
    var queue: seq<Link>

    ghost predicate Valid()
      reads this, events
    {
      events.Valid()
    }

    ghost function Now(): State
      reads this, events
    {
      State(values, suspended, events.list, links, ready, dir, queue)
    }

    constructor (wiring: Wiring)
      ensures Valid() && fresh(events) && this.wiring == wiring && Now() == NOTHING
    {
      this.wiring := wiring;
      events := new ObserverSet();
      values, suspended, links, ready, dir, queue := map[], 0, [], {}, map[], [];
    }

    /** Notes the direction of a sync, and queues it if none was noted. */
    method ScheduleSync(l: Link, d: Dir)
      requires Valid()
      modifies `dir, `queue
      ensures Now() == Bindings.ScheduleSync(old(Now()), l, d)
    {
      var existing := if l in dir then Some(dir[l]) else None;
      if existing.None? {
        queue := queue + [l];
        dir := dir[l := d];
      }
      if existing == Some(Back) && d == Fwd {
        dir := dir[l := Fwd];
      }
    }

    method SendEvent(c: Cell)
      requires Valid()
      modifies `dir, `queue
      ensures Now() == Bindings.SendEvent(wiring, old(Now()), c)
    {
      hide Bindings.ScheduleSync;
      var i := 0;
      while i < |links|
        invariant 0 <= i <= |links| && links == old(links)
        invariant Now() == TellUpTo(wiring, old(Now()), c, i)
      {
        var l := links[i];
        if wiring(l).from == c { ScheduleSync(l, Fwd); }
        if !wiring(l).oneWay && wiring(l).to == c { ScheduleSync(l, Back); }
        i := i + 1;
      }
    }

    /** While changes are suspended an event is kept, once; otherwise it is sent. */
    method NotifyObservers(c: Cell)
      requires Valid()
      modifies `dir, `queue, events
      ensures Valid() && Now() == Notify(wiring, old(Now()), c)
    {
      hide Bindings.SendEvent;
      if suspended > 0 {
        var waiting := events.Contains(c);
        if !waiting { events.Add(c); }
      } else {
        SendEvent(c);
      }
    }

    method IsWatched(c: Cell) returns (b: bool)
      requires Valid()
      ensures b <==> Watched(wiring, Now(), c)
    {
      b := false;
      var i := 0;
      while i < |links|
        invariant 0 <= i <= |links|
        invariant b <==> exists k :: 0 <= k < i && Hears(wiring, links[k], c)
      {
        if Hears(wiring, links[i], c) { b := true; }
        i := i + 1;
      }
      assert Watched(wiring, Now(), c) <==> exists k :: 0 <= k < |links| && Hears(wiring, links[k], c);
    }

    /** The setter of a plain property. */
    method Set(c: Cell, value: Value)
      requires Valid()
      modifies `values, `dir, `queue, events
      ensures Valid() && Now() == Bindings.Set(wiring, old(Now()), c, value)
      ensures value == Get(old(values), c) ==> Now() == old(Now()).(values := old(values)[c := value])
      ensures old(suspended) == 0 ==> forall l ::
                var heard := value != Get(old(values), c) && l in links;
                Directed(old(Now()), Now(), l, heard && wiring(l).from == c,
                         heard && wiring(l).to == c && !wiring(l).oneWay)
    {
      hide Notify, Watched, Directed;
      var watching := IsWatched(c);
      watching := watching && value != Get(values, c);
      values := values[c := value];
      if watching { NotifyObservers(c); }
      if old(suspended) == 0 {
        forall l {
          SetDirects(wiring, old(Now()), c, value, l);
        }
      }
    }

    method BeginPropertyChanges()
      requires Valid()
      modifies `suspended
      ensures Now() == BeginChanges(old(Now()))
    {
      suspended := suspended + 1;
    }

    method EndPropertyChanges()
      requires Valid() && suspended > 0
      modifies `suspended, `dir, `queue, events
      ensures Valid() && Now() == EndChanges(wiring, old(Now()))
    {
      hide SendAll;
      suspended := suspended - 1;
      if suspended <= 0 { FlushObserverQueue(); }
    }

    /** Takes the events out first, so that what their observers cause is a new event. */
    method FlushObserverQueue()
      requires Valid()
      modifies `dir, `queue, events
      ensures Valid() && Now() == SendAll(wiring, old(Now()).(events := []), old(Now()).events)
    {
      hide Bindings.SendEvent;
      var q := events.list;
      events.Empty();
      var i := 0;
      ghost var s0 := Now();
      assert q[..0] == [];
      while i < |q|
        invariant 0 <= i <= |q| && Valid()
        invariant Now() == SendAll(wiring, s0, q[..i])
      {
        SendEvent(q[i]);
        assert q[..i + 1][..i] == q[..i];
        i := i + 1;
      }
      assert q[..i] == q;
    }

    method Connect(l: Link)
      requires Valid() && l !in links
      modifies `links, `ready, `dir, `queue
      ensures Now() == Bindings.Connect(old(Now()), l)
    {
      links := links + [l];
      ScheduleSync(l, Fwd);
      ready := ready + {l.binding};
    }

    method Disconnect(l: Link)
      requires Valid()
      modifies `links, `ready
      ensures Now() == Bindings.Disconnect(old(Now()), l)
    {
      links := Without(links, l);
      ready := ready - {l.binding};
    }

    /** One scheduled sync: skipped for a binding that is not ready, without forgetting the direction noted. */
    method Sync(l: Link)
      requires Valid()
      modifies `values, `dir, `queue, events
      ensures Valid() && Now() == Bindings.Sync(wiring, old(Now()), l)
    {
      hide Bindings.Set;
      if l.binding !in ready { return; }
      var direction := if l in dir then Some(dir[l]) else None;
      dir := dir - {l};
      var fromValue, toValue := Get(values, wiring(l).from), Get(values, wiring(l).to);
      if toValue == fromValue { return; }
      if direction == Some(Fwd) {
        Set(wiring(l).to, fromValue);
      } else if direction == Some(Back) {
        Set(wiring(l).from, toValue);
      }
    }

    /** One round of `flush` over the sync queue; syncs scheduled on the way wait for the next round. */
    method FlushRound()
      requires Valid()
      modifies `values, `suspended, `dir, `queue, events
      ensures Valid() && Now() == FlushPass(wiring, old(Now()))
    {
      hide Bindings.Sync, EndChanges;
      var items := queue;
      queue := [];
      BeginPropertyChanges();
      ghost var s0 := Now();
      var i := 0;
      assert items[0..] == items;
      while i < |items|
        invariant 0 <= i <= |items| && Valid()
        invariant SyncAll(wiring, s0, items) == SyncAll(wiring, Now(), items[i..])
        invariant suspended == s0.suspended
      {
        SyncKeepsCount(wiring, Now(), items[i]);
        assert items[i..][0] == items[i] && items[i..][1..] == items[i + 1..];
        Sync(items[i]);
        i := i + 1;
      }
      assert items[i..] == [];
      EndPropertyChanges();
    }

    /**
     `flush` goes on until a round leaves the queue empty, and it does after no more than `bound` rounds if the
     queue is empty after so many.  Then, if no change is held back, the ends of every connected two-way link
     that is not stale agree.
     */
    method Flush(ghost bound: nat)
      requires Valid() && Inv(wiring, Now(), [], {}) && Passes(wiring, Now(), bound).queue == []
      modifies `values, `suspended, `dir, `queue, events
      ensures Valid() && Inv(wiring, Now(), [], {}) && links == old(links) && ready == old(ready)
      ensures queue == [] && exists n: nat :: n <= bound && Now() == Passes(wiring, old(Now()), n) &&
                                              forall k: nat :: k < n ==> Passes(wiring, old(Now()), k).queue != []
      ensures events.list == [] ==>
                forall l :: l in links && !wiring(l).oneWay && !Stale(Now(), [], l) ==> !Differ(wiring, Now(), l)
    {
      hide FlushPass, Inv, Differ, Stale;
      ghost var n := 0;
      while queue != []
        invariant n <= bound && Valid() && links == old(links) && ready == old(ready)
        invariant Now() == Passes(wiring, old(Now()), n) && Inv(wiring, Now(), [], {})
        invariant forall k: nat :: k < n ==> Passes(wiring, old(Now()), k).queue != []
        decreases bound - n
      {
        FlushPassKeeps(wiring, Now());
        FlushRound();
        n := n + 1;
      }
      if events.list == [] {
        RestAgrees(wiring, Now());
      }
    }
  }

  lemma SyncKeepsCount(w: Wiring, s: State, l: Link)
    ensures Bindings.Sync(w, s, l).suspended == s.suspended
  {
    hide Watched;
    forall t: State, c: Cell
      ensures Bindings.SendEvent(w, t, c).suspended == t.suspended
    {
      TellCount(w, t, c, |t.links|);
    }
  }

  lemma {:induction false} TellCount(w: Wiring, s: State, c: Cell, n: nat)
    requires n <= |s.links|
    ensures TellUpTo(w, s, c, n).suspended == s.suspended
    decreases n
  {
    if n > 0 {
      TellCount(w, s, c, n - 1);
    }
  }
}
