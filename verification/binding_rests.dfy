/**
 When the run loop comes to rest.  It does if all pending syncs carry one value, in any wiring; and from any
 state if the links lead up a ranking of the cells, and what a two-way link feeds is fed by no other link and
 read by no other two-way one.
 */
module BindingRests {
  import opened JsRuntime
  import Collections
  import opened Bindings

  // ----- what a round leaves behind

  /** The cell that a pending sync of `l` reads. */
  function Reads(w: Wiring, s: State, l: Link): Cell
    requires l in s.dir
  {
    if s.dir[l] == Fwd then w(l).from else w(l).to
  }

  /** The cell that it writes. */
  function Writes(w: Wiring, s: State, l: Link): Cell
    requires l in s.dir
  {
    if s.dir[l] == Fwd then w(l).to else w(l).from
  }

  /** The queue holds connected links, each to be synced from a cell in `cells`, and forward if it can be. */
  ghost predicate Driven(w: Wiring, s: State, cells: seq<Cell>) {
    && s.suspended == 0 && s.events == []
    && forall l :: l in s.queue ==>
         && l in s.links && l in s.dir && Reads(w, s, l) in cells
         && (s.dir[l] == Back ==> !w(l).oneWay && w(l).from !in cells)
  }

  /** Only connected links without a direction are newly queued. */
  ghost predicate QueuedFrom(s: State, t: State) {
    && t.links == s.links && (forall l :: l in s.dir ==> l in t.dir)
    && forall l :: l in t.queue ==> l in s.queue || (l in s.links && l !in s.dir)
  }

  lemma {:induction false} TellQueues(w: Wiring, s: State, c: Cell, n: nat)
    requires n <= |s.links|
    ensures QueuedFrom(s, TellUpTo(w, s, c, n))
    decreases n
  {
    if n > 0 {
      TellQueues(w, s, c, n - 1);
    }
  }

  lemma {:induction false} SendQueues(w: Wiring, s: State, events: seq<Cell>)
    ensures QueuedFrom(s, SendAll(w, s, events))
    decreases |events|
  {
    hide TellUpTo;
    if events != [] {
      SendQueues(w, s, events[..|events| - 1]);
      var t := SendAll(w, s, events[..|events| - 1]);
      TellQueues(w, t, events[|events| - 1], |t.links|);
    }
  }

  /** What syncing does not touch, while changes are held back. */
  ghost predicate Framed(s: State, t: State) {
    && t.links == s.links && t.ready == s.ready && t.suspended == s.suspended && t.queue == s.queue
    && (forall l :: l in t.dir ==> l in s.dir && t.dir[l] == s.dir[l])
    && (forall c :: c in s.events ==> c in t.events)
  }

  lemma SyncFrames(w: Wiring, s: State, l: Link)
    requires s.suspended > 0
    ensures Framed(s, Sync(w, s, l))
    ensures forall k :: k != l && k in s.dir ==> k in Sync(w, s, l).dir
  {
    hide SendEvent, Watched;
  }

  lemma {:induction false} SyncAllFrames(w: Wiring, s: State, ls: seq<Link>)
    requires s.suspended > 0
    ensures Framed(s, SyncAll(w, s, ls))
    decreases |ls|
  {
    hide Sync;
    if ls != [] {
      SyncFrames(w, s, ls[0]);
      SyncAllFrames(w, Sync(w, s, ls[0]), ls[1..]);
    }
  }

  /** The state after the syncs of a round, before its changes are delivered. */
  function Synced(w: Wiring, s: State): State {
    SyncAll(w, BeginChanges(s.(queue := [])), s.queue)
  }

  /** A round drives the next one by the cells that it changed. */
  lemma PassDrives(w: Wiring, s: State)
    requires s.suspended == 0 && s.events == []
    ensures var t := FlushPass(w, s);
            Driven(w, t, Synced(w, s).events) && t.links == s.links && t.values == Synced(w, s).values
  {
    hide SyncAll, SendAll, Queued, Directed, SameStale;
    var b := BeginChanges(s.(queue := []));
    var m := Synced(w, s);
    SyncAllFrames(w, b, s.queue);
    assert m.suspended == 1 && m.queue == [];
    var m0, events := m.(suspended := 0, events := []), m.events;
    var t := SendAll(w, m0, events);
    assert Queued(m0, []) by { NothingQueued(m0); }
    SendAllKeeps(w, m0, events, []);
    SendQueues(w, m0, events);
    forall l | l in t.queue
      ensures l in t.links && l in t.dir && Reads(w, t, l) in events &&
              (t.dir[l] == Back ==> !w(l).oneWay && w(l).from !in events)
    {
      SendAllDirects(w, m0, events, l);
      assert l in t.dir by { QueuedIsNoted(t, l); }
      DirectedAs(m0, t, l, w(l).from in events, w(l).to in events && !w(l).oneWay);
    }
  }

  lemma NothingQueued(s: State)
    requires s.queue == []
    ensures Queued(s, [])
  {
    assert [] + s.queue == [];
  }

  lemma QueuedIsNoted(s: State, l: Link)
    requires Queued(s, []) && l in s.queue
    ensures l in s.dir
  {
    assert [] + s.queue == s.queue;
  }

  lemma DirectedAs(s: State, t: State, l: Link, from: bool, to: bool)
    requires Directed(s, t, l, from, to) && l !in s.dir && l in t.dir
    ensures (from || to) && (t.dir[l] == Fwd <==> from)
  {
  }

  // ----- rounds one after the other

  lemma {:induction false} PassesFirst(w: Wiring, s: State, n: nat)
    ensures Passes(w, FlushPass(w, s), n) == Passes(w, s, n + 1)
  {
    hide FlushPass;
    if n > 0 {
      PassesFirst(w, s, n - 1);
    } else {
      assert Passes(w, s, 1) == FlushPass(w, Passes(w, s, 0));
    }
  }

  lemma {:induction false} QuietStays(w: Wiring, s: State, n: nat)
    requires Quiet(s) && s.suspended == 0
    ensures Passes(w, s, n) == s
  {
    hide FlushPass;
    if n > 0 {
      QuietStays(w, s, n - 1);
      FlushNothing(w, s);
    }
  }

  // ----- one value

  /** All pending syncs read the value `v`. */
  ghost predicate Carries(w: Wiring, s: State, ls: seq<Link>, v: Value) {
    forall l :: l in ls && l in s.dir ==> Get(s.values, Reads(w, s, l)) == v
  }

  /** Cells keep their value or take on `v`, and only those that do so newly are announced. */
  ghost predicate Spread(w: Wiring, s: State, t: State, v: Value) {
    && (forall c: Cell :: Get(t.values, c) == Get(s.values, c) || Get(t.values, c) == v)
    && (forall c :: c in t.events ==>
          c in s.events || (Get(t.values, c) == v && Get(s.values, c) != v && Watched(w, s, c)))
  }

  lemma SpreadTwice(w: Wiring, s: State, t: State, u: State, v: Value)
    requires Spread(w, s, t, v) && Spread(w, t, u, v) && t.links == s.links
    ensures Spread(w, s, u, v)
  {
    hide Get, Hears;
    forall c | c in u.events && c !in s.events
      ensures Get(u.values, c) == v && Get(s.values, c) != v && Watched(w, s, c)
    {
      assert Watched(w, t, c) <==> Watched(w, s, c);
    }
  }

  /** Setting a cell to `v` while changes are held back. */
  lemma SetSpreads(w: Wiring, s: State, c: Cell, v: Value)
    requires s.suspended > 0 && v != Get(s.values, c)
    ensures Spread(w, s, Set(w, s, c, v), v)
    ensures Set(w, s, c, v).values == s.values[c := v] && Set(w, s, c, v).dir == s.dir
  {
    hide SendEvent, Watched;
  }

  lemma SyncSpreads(w: Wiring, s: State, l: Link, rest: seq<Link>, v: Value)
    requires s.suspended > 0 && Carries(w, s, [l] + rest, v)
    ensures var t := Sync(w, s, l); Spread(w, s, t, v) && Carries(w, t, rest, v)
  {
    hide Sync, Get, Watched;
    assert l in [l] + rest;
    SyncFrames(w, s, l);
    SyncOneSpreads(w, s, l, v);
    forall k | k in rest && k in Sync(w, s, l).dir
      ensures Get(Sync(w, s, l).values, Reads(w, Sync(w, s, l), k)) == v
    {
      assert k in [l] + rest;
    }
  }

  lemma SyncOneSpreads(w: Wiring, s: State, l: Link, v: Value)
    requires s.suspended > 0 && (l in s.dir ==> Get(s.values, Reads(w, s, l)) == v)
    ensures Spread(w, s, Sync(w, s, l), v)
  {
    hide SendEvent, Watched, Set;
    var s1 := s.(dir := s.dir - {l});
    if l.binding in s.ready && l in s.dir && Get(s.values, w(l).from) != Get(s.values, w(l).to) {
      SetSpreads(w, s1, Writes(w, s, l), v);
      SameWatched(w, s, s1);
    }
  }

  lemma SameWatched(w: Wiring, s: State, t: State)
    requires s.links == t.links
    ensures forall c :: Watched(w, s, c) <==> Watched(w, t, c)
  {
  }

  lemma {:induction false} SyncAllSpreads(w: Wiring, s: State, ls: seq<Link>, v: Value)
    requires s.suspended > 0 && Carries(w, s, ls, v)
    ensures Spread(w, s, SyncAll(w, s, ls), v)
    decreases |ls|
  {
    hide Sync, Spread, Carries;
    if ls == [] {
      NothingSpreads(w, s, v);
    } else {
      assert ls == [ls[0]] + ls[1..];
      SyncSpreads(w, s, ls[0], ls[1..], v);
      SyncFrames(w, s, ls[0]);
      SyncAllSpreads(w, Sync(w, s, ls[0]), ls[1..], v);
      SpreadTwice(w, s, Sync(w, s, ls[0]), SyncAll(w, s, ls), v);
    }
  }

  lemma NothingSpreads(w: Wiring, s: State, v: Value)
    ensures Spread(w, s, s, v)
  {
  }

  /** The cells that links connect and that do not have the value `v` yet. */
  function Unset(w: Wiring, links: seq<Link>, values: map<Cell, Value>, v: Value): set<Cell> {
    (set l | l in links && Get(values, w(l).from) != v :: w(l).from) +
    (set l | l in links && Get(values, w(l).to) != v :: w(l).to)
  }

  /** A round with pending syncs of one value only spreads that value. */
  lemma OneValueRound(w: Wiring, s: State, v: Value)
    requires s.suspended == 0 && s.events == [] && Carries(w, s, s.queue, v)
    ensures var t, events := FlushPass(w, s), Synced(w, s).events;
            && Driven(w, t, events) && t.links == s.links
            && (forall c: Cell :: Get(t.values, c) == Get(s.values, c) || Get(t.values, c) == v)
            && (forall c :: c in events ==> Get(t.values, c) == v && Get(s.values, c) != v && Watched(w, s, c))
  {
    hide SyncAll, Get, Carries, EndChanges, Driven, Hears;
    var b := BeginChanges(s.(queue := []));
    SameReads(w, s, b, s.queue, v);
    SyncAllSpreads(w, b, s.queue, v);
    PassDrives(w, s);
    SameWatched(w, s, b);
  }

  lemma UnsetFalls(w: Wiring, s: State, t: State, v: Value, c: Cell)
    requires t.links == s.links && forall d: Cell :: Get(t.values, d) == Get(s.values, d) || Get(t.values, d) == v
    requires Get(t.values, c) == v && Get(s.values, c) != v && Watched(w, s, c)
    ensures Unset(w, t.links, t.values, v) < Unset(w, s.links, s.values, v)
  {
    hide Get;
    var l :| l in s.links && Hears(w, l, c);
    assert c in Unset(w, s.links, s.values, v);
    assert c !in Unset(w, t.links, t.values, v);
  }

  /** It changes something, or comes to rest. */
  lemma OneValuePass(w: Wiring, s: State, v: Value)
    requires s.suspended == 0 && s.events == [] && Carries(w, s, s.queue, v)
    ensures var t := FlushPass(w, s);
            && t.suspended == 0 && t.events == [] && t.links == s.links && Carries(w, t, t.queue, v)
            && (forall c: Cell :: Get(t.values, c) == Get(s.values, c) || Get(t.values, c) == v)
            && (t.queue == [] || Unset(w, t.links, t.values, v) < Unset(w, s.links, s.values, v))
  {
    hide FlushPass, Synced, Get, Unset, Watched;
    var t, events := FlushPass(w, s), Synced(w, s).events;
    OneValueRound(w, s, v);
    if t.queue != [] {
      assert t.queue[0] in t.queue;
      UnsetFalls(w, s, t, v, Reads(w, t, t.queue[0]));
    }
  }

  lemma SameReads(w: Wiring, s: State, t: State, ls: seq<Link>, v: Value)
    requires Carries(w, s, ls, v) && t.dir == s.dir && t.values == s.values
    ensures Carries(w, t, ls, v)
  {
  }

  /**
   If all pending syncs read one value, the loop comes to rest in any wiring, two-way or not, with cycles or
   not: after no more rounds than there are connected cells with another value, plus one.
   */
  lemma {:induction false} OneValueRests(w: Wiring, s: State, v: Value, n: nat)
    requires s.suspended == 0 && s.events == [] && Carries(w, s, s.queue, v)
    requires |Unset(w, s.links, s.values, v)| < n
    ensures Quiet(Passes(w, s, n))
    ensures forall c: Cell :: Get(Passes(w, s, n).values, c) == Get(s.values, c) || Get(Passes(w, s, n).values, c) == v
    decreases n
  {
    hide FlushPass, Unset, Carries, Get;
    var t := FlushPass(w, s);
    OneValuePass(w, s, v);
    PassesFirst(w, s, n - 1);
    if t.queue == [] {
      QuietStays(w, t, n - 1);
    } else {
      var c :| c in Unset(w, s.links, s.values, v) && c !in Unset(w, t.links, t.values, v);
      Collections.Smaller(Unset(w, t.links, t.values, v), Unset(w, s.links, s.values, v), c);
      OneValueRests(w, t, v, n - 1);
    }
  }

  /** So it does after a single change of a loop at rest. */
  lemma OneChangeRests(w: Wiring, s: State, c: Cell, v: Value)
    requires Quiet(s) && s.suspended == 0
    ensures var t := Set(w, s, c, v);
            Quiet(Passes(w, t, |Unset(w, t.links, t.values, v)| + 1))
  {
    hide Passes, Unset;
    var t := Set(w, s, c, v);
    SetCarries(w, s, c, v);
    OneValueRests(w, t, v, |Unset(w, t.links, t.values, v)| + 1);
  }

  lemma SetCarries(w: Wiring, s: State, c: Cell, v: Value)
    requires Quiet(s) && s.suspended == 0
    ensures var t := Set(w, s, c, v); t.suspended == 0 && t.events == [] && Carries(w, t, t.queue, v)
  {
    hide Watched, TellUpTo, Queued, Directed, SameStale;
    var s1, t := s.(values := s.values[c := v]), Set(w, s, c, v);
    if t != s1 {
      assert t == SendEvent(w, s1, c);
      assert Queued(s1, []) by { NothingQueued(s1); }
      SendKeeps(w, s1, c, []);
      TellQueues(w, s1, c, |s1.links|);
      forall l | l in t.queue
        ensures l in t.dir ==> Get(t.values, Reads(w, t, l)) == v
      {
        TellUpToDirects(w, s1, c, |s1.links|, l);
        assert s1.links[..|s1.links|] == s1.links;
        assert l in t.dir by { QueuedIsNoted(t, l); }
        DirectedAs(s1, t, l, w(l).from == c, w(l).to == c && !w(l).oneWay);
      }
    }
  }

  // ----- layers

  /**
   Links lead from lower to higher cells, up to `top`; and what a two-way link feeds, no other link feeds, and
   no other two-way link reads from.
   */
  ghost predicate Layered(w: Wiring, links: seq<Link>, rank: Cell -> nat, top: nat) {
    && (forall l :: l in links ==> rank(w(l).from) < rank(w(l).to) <= top)
    && (forall l, k :: l in links && k in links && !w(l).oneWay && k != l ==>
          w(k).to != w(l).to && (!w(k).oneWay ==> w(k).from != w(l).to))
  }

  /** A two-way link of which only the `to` end has changed has equal ends. */
  ghost predicate Settled(w: Wiring, s: State, cells: seq<Cell>) {
    forall l :: l in s.links && !w(l).oneWay && w(l).to in cells && w(l).from !in cells ==> !Differ(w, s, l)
  }

  /** What is left of a round are connected links, and only two-way ones go back. */
  ghost predicate Rest(w: Wiring, s: State, ls: seq<Link>) {
    forall l :: l in ls ==> l in s.links && (l in s.dir && s.dir[l] == Back ==> !w(l).oneWay)
  }

  /** A sync that writes, while changes are held back. */
  ghost predicate Copies(w: Wiring, s: State, l: Link) {
    l.binding in s.ready && l in s.dir && Differ(w, s, l)
  }

  lemma SyncCopied(w: Wiring, s: State, l: Link)
    requires s.suspended > 0
    ensures var t := Sync(w, s, l);
            if Copies(w, s, l) then
              && t.values == s.values[Writes(w, s, l) := Get(s.values, Reads(w, s, l))]
              && (forall c :: c in t.events <==> c in s.events || (c == Writes(w, s, l) && Watched(w, s, c)))
            else t.values == s.values && t.events == s.events
  {
    hide SendEvent, Hears;
    SameWatched(w, s, s.(dir := s.dir - {l}));
    hide Watched;
  }

  lemma HeardIsWatched(w: Wiring, s: State, l: Link)
    requires l in s.links
    ensures Watched(w, s, w(l).from) && (!w(l).oneWay ==> Watched(w, s, w(l).to))
  {
    assert Hears(w, l, w(l).from);
    if !w(l).oneWay {
      assert Hears(w, l, w(l).to);
    }
  }

  /** Each sync of a round leaves what was written settled. */
  lemma SyncSettles(w: Wiring, s: State, l: Link, rest: seq<Link>, rank: Cell -> nat, top: nat)
    requires s.suspended > 0 && Layered(w, s.links, rank, top) && Rest(w, s, [l] + rest) && Settled(w, s, s.events)
    ensures var t := Sync(w, s, l); Settled(w, t, t.events) && Rest(w, t, rest)
  {
    hide Sync, Watched;
    var t := Sync(w, s, l);
    SyncFrames(w, s, l);
    SyncCopied(w, s, l);
    assert l in [l] + rest;
    forall k | k in t.links && !w(k).oneWay && w(k).to in t.events && w(k).from !in t.events
      ensures !Differ(w, t, k)
    {
      HeardIsWatched(w, s, k);
    }
    forall k | k in rest
      ensures k in t.links && (k in t.dir && t.dir[k] == Back ==> !w(k).oneWay)
    {
      assert k in [l] + rest;
    }
  }

  lemma {:induction false} SyncAllSettles(w: Wiring, s: State, ls: seq<Link>, rank: Cell -> nat, top: nat)
    requires s.suspended > 0 && Layered(w, s.links, rank, top) && Rest(w, s, ls) && Settled(w, s, s.events)
    ensures var t := SyncAll(w, s, ls); Settled(w, t, t.events)
    decreases |ls|
  {
    hide Sync, Layered, Rest, Settled;
    if ls != [] {
      assert ls == [ls[0]] + ls[1..];
      SyncSettles(w, s, ls[0], ls[1..], rank, top);
      SyncFrames(w, s, ls[0]);
      SyncAllSettles(w, Sync(w, s, ls[0]), ls[1..], rank, top);
    }
  }

  /**
   What is left goes forward from cells of at least `n`, and back over links that agree or whose `from` end has
   changed in this round.
   */
  ghost predicate Rising(w: Wiring, s: State, ls: seq<Link>, rank: Cell -> nat, n: nat) {
    && (forall l :: l in ls && l in s.dir && s.dir[l] == Fwd ==> rank(w(l).from) >= n)
    && (forall l :: l in ls && l in s.dir && s.dir[l] == Back ==> w(l).from in s.events || !Differ(w, s, l))
    && (forall c :: c in s.events ==> rank(c) > n)
  }

  /** Each sync of a settled round writes a cell above `n`. */
  lemma SyncRises(w: Wiring, s: State, l: Link, rest: seq<Link>, rank: Cell -> nat, top: nat, n: nat)
    requires s.suspended > 0 && Layered(w, s.links, rank, top) && Rest(w, s, [l] + rest) &&
             Rising(w, s, [l] + rest, rank, n)
    ensures Rising(w, Sync(w, s, l), rest, rank, n)
  {
    hide Sync, Watched;
    var t := Sync(w, s, l);
    SyncFrames(w, s, l);
    SyncCopied(w, s, l);
    assert l in [l] + rest;
    forall k | k in rest && k in t.dir
      ensures t.dir[k] == Fwd ==> rank(w(k).from) >= n
      ensures t.dir[k] == Back ==> w(k).from in t.events || !Differ(w, t, k)
    {
      assert k in [l] + rest;
      HeardIsWatched(w, s, k);
    }
  }

  lemma {:induction false} SyncAllRises(w: Wiring, s: State, ls: seq<Link>, rank: Cell -> nat, top: nat, n: nat)
    requires s.suspended > 0 && Layered(w, s.links, rank, top) && Rest(w, s, ls) && Rising(w, s, ls, rank, n)
    ensures forall c :: c in SyncAll(w, s, ls).events ==> rank(c) > n
    decreases |ls|
  {
    hide Sync, Layered, Rest;
    if ls != [] {
      assert ls == [ls[0]] + ls[1..];
      SyncRises(w, s, ls[0], ls[1..], rank, top, n);
      SyncFrames(w, s, ls[0]);
      RestLeft(w, s, ls[0], ls[1..]);
      SyncAllRises(w, Sync(w, s, ls[0]), ls[1..], rank, top, n);
    }
  }

  lemma RestLeft(w: Wiring, s: State, l: Link, rest: seq<Link>)
    requires s.suspended > 0 && Rest(w, s, [l] + rest)
    ensures Rest(w, Sync(w, s, l), rest)
  {
    hide Sync;
    SyncFrames(w, s, l);
    forall k | k in rest
      ensures k in [l] + rest
    {
    }
  }
  // ----- layers round by round

  /** The cells have at least the rank `n`. */
  ghost predicate From(cells: seq<Cell>, rank: Cell -> nat, n: nat) {
    forall c :: c in cells ==> rank(c) >= n
  }

  /** A round from a driven state drives the next from what it changed, and leaves that settled. */
  lemma LayeredPass(w: Wiring, s: State, cells: seq<Cell>, rank: Cell -> nat, top: nat)
    requires Driven(w, s, cells) && Layered(w, s.links, rank, top)
    ensures var t := FlushPass(w, s);
            t.links == s.links && Driven(w, t, Synced(w, s).events) && Settled(w, t, Synced(w, s).events)
  {
    hide SyncAll, EndChanges, Layered;
    var b, m := BeginChanges(s.(queue := [])), Synced(w, s);
    PassDrives(w, s);
    assert Rest(w, b, s.queue);
    SyncAllSettles(w, b, s.queue, rank, top);
    SyncAllFrames(w, b, s.queue);
    SameSettled(w, m, FlushPass(w, s), m.events);
  }

  lemma SameSettled(w: Wiring, s: State, t: State, cells: seq<Cell>)
    requires Settled(w, s, cells) && t.links == s.links && t.values == s.values
    ensures Settled(w, t, cells)
  {
  }

  /** And if what drove it was settled too, the changes have moved up. */
  lemma LayeredPassRises(w: Wiring, s: State, cells: seq<Cell>, rank: Cell -> nat, top: nat, n: nat)
    requires Driven(w, s, cells) && Settled(w, s, cells) && Layered(w, s.links, rank, top) && From(cells, rank, n)
    ensures From(Synced(w, s).events, rank, n + 1)
  {
    hide SyncAll, Layered;
    var b := BeginChanges(s.(queue := []));
    assert Rest(w, b, s.queue);
    forall l | l in s.queue && b.dir[l] == Back
      ensures !Differ(w, b, l)
    {
      assert !Differ(w, s, l);
    }
    SyncAllRises(w, b, s.queue, rank, top, n);
  }

  /** A loop that is not at rest reads a cell no higher than the top. */
  lemma ReadsBelowTop(w: Wiring, s: State, cells: seq<Cell>, rank: Cell -> nat, top: nat)
    requires Driven(w, s, cells) && Layered(w, s.links, rank, top)
    ensures Quiet(s) || exists c :: c in cells && rank(c) <= top
  {
    if s.queue != [] {
      var l := s.queue[0];
      assert l in s.queue && l in s.links;
      assert rank(Reads(w, s, l)) <= top;
    }
  }

  lemma {:induction false} SettledRests(w: Wiring, s: State, cells: seq<Cell>, rank: Cell -> nat, top: nat, n: nat,
                                        rounds: nat)
    requires Driven(w, s, cells) && Settled(w, s, cells) && Layered(w, s.links, rank, top) && From(cells, rank, n) &&
             n + rounds > top
    ensures Quiet(Passes(w, s, rounds))
    decreases rounds
  {
    hide FlushPass, Driven, Settled, Layered, Quiet, Synced;
    if rounds == 0 {
      ReadsBelowTop(w, s, cells, rank, top);
    } else {
      LayeredPass(w, s, cells, rank, top);
      LayeredPassRises(w, s, cells, rank, top, n);
      SettledRests(w, FlushPass(w, s), Synced(w, s).events, rank, top, n + 1, rounds - 1);
      PassesFirst(w, s, rounds - 1);
    }
  }

  /**
   In a layered wiring the loop comes to rest from any state, whatever is pending: after three rounds more
   than there are layers above the lowest.
   */
  lemma LayeredRests(w: Wiring, s: State, rank: Cell -> nat, top: nat)
    requires s.suspended == 0 && s.events == [] && Layered(w, s.links, rank, top)
    ensures Quiet(Passes(w, s, top + 3))
  {
    hide FlushPass, Driven, Settled, Layered, Passes, Synced;
    var t := FlushPass(w, s);
    PassDrives(w, s);
    DrivenIsStill(w, t, Synced(w, s).events);
    LayeredPass(w, t, Synced(w, s).events, rank, top);
    SettledRests(w, FlushPass(w, t), Synced(w, t).events, rank, top, 0, top + 1);
    PassesFirst(w, t, top + 1);
    PassesFirst(w, s, top + 2);
  }

  lemma DrivenIsStill(w: Wiring, s: State, cells: seq<Cell>)
    requires Driven(w, s, cells)
    ensures s.suspended == 0 && s.events == []
  {
  }

  /**
   So user code that keeps to a layered wiring can let the loop flush after any run, and will find the ends of
   every connected two-way link in agreement, but for those of which a sync was skipped.
   */
  lemma LayeredAgree(w: Wiring, actions: seq<Action>, rank: Cell -> nat, top: nat)
    requires Runs(w, NOTHING, actions)
    requires var s := Run(w, NOTHING, actions); s.suspended == 0 && Layered(w, s.links, rank, top)
    ensures var t := Passes(w, Run(w, NOTHING, actions), top + 3);
            && Quiet(t)
            && forall l :: l in t.links && !w(l).oneWay && !Stale(t, [], l) ==> !Differ(w, t, l)
  {
    hide Run, Runs, Passes, Layered, Stale, Differ, Queued, Accounted;
    assert Inv(w, NOTHING, [], {}) by { NothingHolds(w); }
    RunKeeps(w, NOTHING, actions);
    var s := Run(w, NOTHING, actions);
    LayeredRests(w, s, rank, top);
    PassesKeep(w, s, top + 3);
    RestAgrees(w, Passes(w, s, top + 3));
  }

  lemma {:induction false} PassesKeep(w: Wiring, s: State, n: nat)
    requires Inv(w, s, [], {})
    ensures Inv(w, Passes(w, s, n), [], {})
  {
    hide Inv, FlushPass;
    if n > 0 {
      PassesKeep(w, s, n - 1);
      FlushPassKeeps(w, Passes(w, s, n - 1));
    }
  }
}
