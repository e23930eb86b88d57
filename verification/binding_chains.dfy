/** Paths of two-way links, on which the run loop comes to rest whatever is pending. */
module BindingChains {
  import opened JsRuntime
  import opened Collections
  import opened Bindings
  import opened BindingRests

  /** The link connects the cells at `p` and after it, one way round or the other. */
  predicate On(w: Wiring, l: Link, path: seq<Cell>, p: nat) {
    && p + 1 < |path|
    && ((w(l).from == path[p] && w(l).to == path[p + 1]) || (w(l).from == path[p + 1] && w(l).to == path[p]))
  }

  /**
   All links are two-way and connect one cell of the path with the next, whichever end is `from`; there may be
   gaps between them, but no two links the opposite way round.
   */
  ghost predicate Chain(w: Wiring, links: seq<Link>, path: seq<Cell>) {
    && Distinct(path)
    && (forall l :: l in links ==> !w(l).oneWay && exists p: nat :: On(w, l, path, p))
    && forall l, k :: l in links && k in links ==> w(l).from != w(k).to || w(l).to != w(k).from
  }

  /** The cells at `p` and after it are linked and differ. */
  ghost predicate Wall(w: Wiring, s: State, path: seq<Cell>, p: nat) {
    && p + 1 < |path| && (exists l :: l in s.links && On(w, l, path, p))
    && Get(s.values, path[p]) != Get(s.values, path[p + 1])
  }

  /** The number of walls before `n`. */
  ghost function Walls(w: Wiring, s: State, path: seq<Cell>, n: nat): (r: nat)
    ensures r <= n
  {
    if n == 0 then 0 else Walls(w, s, path, n - 1) + if Wall(w, s, path, n - 1) then 1 else 0
  }

  ghost function AllWalls(w: Wiring, s: State, path: seq<Cell>): nat {
    Walls(w, s, path, |path|)
  }

  lemma {:induction false} NoWalls(w: Wiring, s: State, path: seq<Cell>, n: nat)
    ensures Walls(w, s, path, n) == 0 <==> forall p: nat :: p < n ==> !Wall(w, s, path, p)
  {
    hide Wall;
    if n > 0 {
      NoWalls(w, s, path, n - 1);
    }
  }

  lemma {:induction false} FirstWall(w: Wiring, s: State, path: seq<Cell>, n: nat) returns (p: nat)
    requires Walls(w, s, path, n) > 0
    ensures p < n && Wall(w, s, path, p) && Walls(w, s, path, p) == 0
  {
    hide Wall;
    if Walls(w, s, path, n - 1) > 0 {
      p := FirstWall(w, s, path, n - 1);
    } else {
      p := n - 1;
    }
  }

  // ----- a write moves a wall

  /** The cell at `c` of the path has been set. */
  ghost predicate Written(s: State, t: State, path: seq<Cell>, c: nat, v: Value) {
    Distinct(path) && c < |path| && t.links == s.links && t.values == s.values[path[c] := v]
  }

  lemma OtherWalls(w: Wiring, s: State, t: State, path: seq<Cell>, c: nat, v: Value, p: nat)
    requires Written(s, t, path, c, v) && p != c && p + 1 != c
    ensures Wall(w, t, path, p) <==> Wall(w, s, path, p)
  {
    if p + 1 < |path| {
      assert path[p] != path[c] && path[p + 1] != path[c];
    }
  }

  /** It matters to the count only from the cell on, and then by the same amount everywhere. */
  lemma {:induction false} WallsAround(w: Wiring, s: State, t: State, path: seq<Cell>, c: nat, v: Value, n: nat)
    requires Written(s, t, path, c, v)
    ensures n < c ==> Walls(w, t, path, n) == Walls(w, s, path, n)
    ensures n > c ==> Walls(w, t, path, n) - Walls(w, s, path, n) == Walls(w, t, path, c + 1) - Walls(w, s, path, c + 1)
  {
    hide Wall, Written;
    if n > 0 && n < c {
      WallsAround(w, s, t, path, c, v, n - 1);
      OtherWalls(w, s, t, path, c, v, n - 1);
    } else if n > c + 1 {
      WallsAround(w, s, t, path, c, v, n - 1);
      OtherWalls(w, s, t, path, c, v, n - 1);
    }
  }

  lemma WallsAroundAll(w: Wiring, s: State, t: State, path: seq<Cell>, c: nat, v: Value)
    requires Written(s, t, path, c, v)
    ensures forall n: nat :: n < c ==> Walls(w, t, path, n) == Walls(w, s, path, n)
    ensures forall n: nat :: n > c ==>
              Walls(w, t, path, n) - Walls(w, s, path, n) == Walls(w, t, path, c + 1) - Walls(w, s, path, c + 1)
  {
    hide Written, Walls;
    forall n: nat
      ensures n < c ==> Walls(w, t, path, n) == Walls(w, s, path, n)
      ensures n > c ==>
                Walls(w, t, path, n) - Walls(w, s, path, n) == Walls(w, t, path, c + 1) - Walls(w, s, path, c + 1)
    {
      WallsAround(w, s, t, path, c, v, n);
    }
  }

  /** A sync at `p` that writes: the end at `c` takes the value of the other. */
  ghost predicate Copied(w: Wiring, s: State, t: State, path: seq<Cell>, p: nat, c: nat) {
    && Wall(w, s, path, p) && (c == p || c == p + 1)
    && Written(s, t, path, c, Get(s.values, path[p + p + 1 - c]))
  }

  /** The link on the other side of the cell written. */
  function Beyond(p: nat, c: nat): int {
    if c == p then p - 1 else p + 1
  }

  lemma CopiedWithin(w: Wiring, s: State, t: State, path: seq<Cell>, p: nat, c: nat)
    requires Copied(w, s, t, path, p, c)
    ensures p + 1 < |path| && Wall(w, s, path, p) && Distinct(path)
  {
  }

  /** The wall moves on over the cell written, unless there are fewer walls afterwards. */
  lemma WallMoves(w: Wiring, s: State, t: State, path: seq<Cell>, p: nat, c: nat)
    requires Copied(w, s, t, path, p, c)
    ensures AllWalls(w, t, path) <= AllWalls(w, s, path)
    ensures AllWalls(w, t, path) == AllWalls(w, s, path) ==>
              var q := Beyond(p, c); q >= 0 && !Wall(w, s, path, q) && Wall(w, t, path, q)
    ensures !Wall(w, t, path, p)
    ensures forall n: nat :: n > c ==>
              Walls(w, t, path, n) - Walls(w, s, path, n) == AllWalls(w, t, path) - AllWalls(w, s, path)
    ensures forall n: nat :: n < c ==> Walls(w, t, path, n) == Walls(w, s, path, n)
  {
    hide Wall, Written, Walls, Get;
    CopiedWithin(w, s, t, path, p, c);
    EndsAgree(w, s, t, path, p, c);
    var v := Get(s.values, path[p + p + 1 - c]);
    WrittenWithin(s, t, path, c, v);
    WallsAroundAll(w, s, t, path, c, v);
    NextWall(w, s, path, p);
    NextWall(w, t, path, p);
    if c == p + 1 {
      NextWall(w, s, path, p + 1);
      NextWall(w, t, path, p + 1);
    } else if p > 0 {
      NextWall(w, s, path, p - 1);
      NextWall(w, t, path, p - 1);
    } else {
      NoWallsAtAll(w, s, path);
      NoWallsAtAll(w, t, path);
    }
  }

  lemma NextWall(w: Wiring, s: State, path: seq<Cell>, p: nat)
    ensures Walls(w, s, path, p + 1) == Walls(w, s, path, p) + if Wall(w, s, path, p) then 1 else 0
  {
  }

  lemma NoWallsAtAll(w: Wiring, s: State, path: seq<Cell>)
    ensures Walls(w, s, path, 0) == 0
  {
  }

  lemma EndsAgree(w: Wiring, s: State, t: State, path: seq<Cell>, p: nat, c: nat)
    requires Copied(w, s, t, path, p, c)
    ensures !Wall(w, t, path, p)
  {
    assert path[p] != path[p + 1];
  }

  lemma WrittenWithin(s: State, t: State, path: seq<Cell>, c: nat, v: Value)
    requires Written(s, t, path, c, v)
    ensures c < |path|
  {
  }

  // ----- one sync on a chain

  /** The place on the path that a pending sync writes. */
  predicate WritesAt(w: Wiring, s: State, l: Link, path: seq<Cell>, c: nat)
    requires l in s.dir
  {
    c < |path| && Writes(w, s, l) == path[c]
  }

  lemma ChainSync(w: Wiring, s: State, l: Link, path: seq<Cell>) returns (p: nat, c: nat)
    requires s.suspended > 0 && Chain(w, s.links, path) && l in s.links
    ensures On(w, l, path, p)
    ensures var t := Sync(w, s, l);
            if Copies(w, s, l) then
              && WritesAt(w, s, l, path, c) && Copied(w, s, t, path, p, c)
              && (forall e :: e in t.events <==> e in s.events || e == path[c])
            else t.values == s.values && t.events == s.events
  {
    hide Sync, Watched, Distinct;
    SyncFrames(w, s, l);
    SyncCopied(w, s, l);
    HeardIsWatched(w, s, l);
    p :| On(w, l, path, p);
    c := if l in s.dir && Writes(w, s, l) == path[p + 1] then p + 1 else p;
  }

  lemma SameWalls(w: Wiring, s: State, t: State, path: seq<Cell>, n: nat)
    requires s.values == t.values && s.links == t.links
    ensures Walls(w, s, path, n) == Walls(w, t, path, n)
  {
    if n > 0 {
      SameWalls(w, s, t, path, n - 1);
    }
  }

  lemma {:induction false} WallsFall(w: Wiring, s: State, ls: seq<Link>, path: seq<Cell>)
    requires s.suspended > 0 && Chain(w, s.links, path) && forall l :: l in ls ==> l in s.links
    ensures AllWalls(w, SyncAll(w, s, ls), path) <= AllWalls(w, s, path)
    decreases |ls|
  {
    hide Sync, Chain, AllWalls, On, Copied, Copies;
    if ls != [] {
      var t := Sync(w, s, ls[0]);
      var p, c := ChainSync(w, s, ls[0], path);
      SyncFrames(w, s, ls[0]);
      if Copies(w, s, ls[0]) {
        WallMoves(w, s, t, path, p, c);
      } else {
        assert AllWalls(w, t, path) == AllWalls(w, s, path) by { SameAllWalls(w, s, t, path); }
      }
      WallsFall(w, t, ls[1..], path);
    }
  }

  lemma SameAllWalls(w: Wiring, s: State, t: State, path: seq<Cell>)
    requires s.values == t.values && s.links == t.links
    ensures AllWalls(w, s, path) == AllWalls(w, t, path)
  {
    SameWalls(w, s, t, path, |path|);
  }

  // ----- which way syncs go

  /** What is left of a round was queued by the changes of `cells`. */
  ghost predicate Tuned(w: Wiring, s: State, ls: seq<Link>, cells: seq<Cell>) {
    forall l :: l in ls ==> l in s.links && (l in s.dir ==>
                                             Reads(w, s, l) in cells && (s.dir[l] == Back ==> w(l).from !in cells))
  }

  /** Syncs left at `p` go to the cell after it, or to the one before. */
  ghost predicate AllUp(w: Wiring, s: State, ls: seq<Link>, path: seq<Cell>, p: nat) {
    p + 1 < |path| && forall l :: l in ls && l in s.dir && On(w, l, path, p) ==> Writes(w, s, l) == path[p + 1]
  }

  ghost predicate AllDown(w: Wiring, s: State, ls: seq<Link>, path: seq<Cell>, p: nat) {
    p + 1 < |path| && forall l :: l in ls && l in s.dir && On(w, l, path, p) ==> Writes(w, s, l) == path[p]
  }

  lemma OnOne(w: Wiring, l: Link, path: seq<Cell>, p: nat, i: nat)
    requires Distinct(path) && On(w, l, path, p) && On(w, l, path, i)
    ensures p == i
  {
  }

  /** Links at one place lie the same way round, so that their syncs go the same way. */
  lemma SameWay(w: Wiring, s: State, ls: seq<Link>, path: seq<Cell>, cells: seq<Cell>, l: Link, p: nat)
    requires Chain(w, s.links, path) && Tuned(w, s, ls, cells) && l in ls && l in s.dir && On(w, l, path, p)
    ensures Writes(w, s, l) == path[p] ==> AllDown(w, s, ls, path, p)
    ensures Writes(w, s, l) == path[p + 1] ==> AllUp(w, s, ls, path, p)
  {
    hide Distinct;
    forall k | k in ls && k in s.dir && On(w, k, path, p)
      ensures Writes(w, s, k) == Writes(w, s, l)
    {
      assert w(k) == w(l) by { assert w(l).oneWay == w(k).oneWay; }
      assert w(k).from == w(l).from && w(k).to == w(l).to;
    }
  }

  lemma TunedStays(w: Wiring, s: State, l: Link, rest: seq<Link>, cells: seq<Cell>)
    requires s.suspended > 0 && Tuned(w, s, [l] + rest, cells)
    ensures Tuned(w, Sync(w, s, l), rest, cells)
  {
    hide Sync;
    SyncFrames(w, s, l);
    forall k | k in rest
      ensures k in [l] + rest
    {
    }
  }

  lemma WaysStay(w: Wiring, s: State, l: Link, rest: seq<Link>, path: seq<Cell>, p: nat)
    requires s.suspended > 0
    ensures AllUp(w, s, [l] + rest, path, p) ==> AllUp(w, Sync(w, s, l), rest, path, p)
    ensures AllDown(w, s, [l] + rest, path, p) ==> AllDown(w, Sync(w, s, l), rest, path, p)
  {
    hide Sync, On;
    SyncFrames(w, s, l);
    forall k | k in rest
      ensures k in [l] + rest
    {
    }
  }

  // ----- a round with the first wall going up

  /** There is no wall before `i`, what is left there goes up, and no cell up to `i` has changed. */
  ghost predicate Upward(w: Wiring, s: State, ls: seq<Link>, path: seq<Cell>, i: nat) {
    && Walls(w, s, path, i) == 0 && AllUp(w, s, ls, path, i)
    && (forall l :: l in ls ==> l in s.links)
    && forall c: nat :: c <= i && c < |path| ==> path[c] !in s.events
  }

  lemma UpwardStep(w: Wiring, s: State, l: Link, rest: seq<Link>, path: seq<Cell>, i: nat)
    requires s.suspended > 0 && Chain(w, s.links, path) && Upward(w, s, [l] + rest, path, i)
    ensures Upward(w, Sync(w, s, l), rest, path, i)
  {
    hide Sync, Walls, Wall, Written;
    var t := Sync(w, s, l);
    assert l in [l] + rest;
    SyncFrames(w, s, l);
    WaysStay(w, s, l, rest, path, i);
    var p, c := ChainSync(w, s, l, path);
    if Copies(w, s, l) {
      NoWalls(w, s, path, i);
      assert p >= i;
      WrittenWithin(s, t, path, c, Get(s.values, path[p + p + 1 - c]));
      assert c > i;
      WallMoves(w, s, t, path, p, c);
      assert forall d: nat :: d <= i ==> path[d] != path[c];
    } else {
      SameWalls(w, s, t, path, i);
    }
    forall k | k in rest
      ensures k in [l] + rest
    {
    }
  }

  lemma {:induction false} UpwardRound(w: Wiring, s: State, ls: seq<Link>, path: seq<Cell>, i: nat)
    requires s.suspended > 0 && Chain(w, s.links, path) && Upward(w, s, ls, path, i)
    ensures Upward(w, SyncAll(w, s, ls), [], path, i)
    decreases |ls|
  {
    hide Sync, Chain, Upward;
    if ls == [] {
    } else {
      assert ls == [ls[0]] + ls[1..];
      UpwardStep(w, s, ls[0], ls[1..], path, i);
      SyncFrames(w, s, ls[0]);
      UpwardRound(w, Sync(w, s, ls[0]), ls[1..], path, i);
    }
  }

  // ----- a round with the first wall going down

  /**
   The first wall has come from `i` down to `j`, and then, if `up`, one back up over a cell from `floor` on.  What
   is left on its way goes down, and no cell before it has changed.
   */
  ghost predicate Downward(w: Wiring, s: State, ls: seq<Link>, path: seq<Cell>, i: nat, floor: nat, j: nat, up: bool) {
    && j <= i && i + 1 < |path| && Walls(w, s, path, j) == 0 && Wall(w, s, path, j)
    && AllDown(w, s, ls, path, i) && (forall p: nat :: j < p <= i ==> AllDown(w, s, ls, path, p))
    && (forall c: nat :: c < j ==> path[c] !in s.events)
    && (if up then j > floor && path[j] in s.events && AllDown(w, s, ls, path, j)
        else path[j] !in s.events && (j < i ==> path[j + 1] in s.events))
    && (j == i && !up ==> exists l :: l in ls && l in s.dir && On(w, l, path, i))
  }

  lemma WallDiffers(w: Wiring, s: State, l: Link, path: seq<Cell>, i: nat)
    requires Wall(w, s, path, i) && On(w, l, path, i)
    ensures Differ(w, s, l)
  {
  }

  lemma NoneBefore(w: Wiring, s: State, path: seq<Cell>, j: nat)
    requires Walls(w, s, path, j) == 0 && j > 0
    ensures Walls(w, s, path, j - 1) == 0
  {
  }

  /** The ways of what is left, after a sync. */
  lemma DownStays(w: Wiring, s: State, l: Link, rest: seq<Link>, path: seq<Cell>, i: nat, floor: nat, j: nat, up: bool)
    requires s.suspended > 0 && Downward(w, s, [l] + rest, path, i, floor, j, up)
    ensures var t := Sync(w, s, l);
            && AllDown(w, t, rest, path, i) && (forall p: nat :: j < p <= i ==> AllDown(w, t, rest, path, p))
            && (up ==> AllDown(w, t, rest, path, j))
  {
    hide Sync, Walls, Wall, AllDown;
    forall p: nat
      ensures AllDown(w, s, [l] + rest, path, p) ==> AllDown(w, Sync(w, s, l), rest, path, p)
    {
      WaysStay(w, s, l, rest, path, p);
    }
  }

  /** A sync elsewhere, or one that writes nothing, leaves the wall where it is. */
  lemma DownIdles(w: Wiring, s: State, l: Link, rest: seq<Link>, path: seq<Cell>, i: nat, floor: nat, j: nat, up: bool)
    requires s.suspended > 0 && Downward(w, s, [l] + rest, path, i, floor, j, up)
    requires var t := Sync(w, s, l);
             && Walls(w, t, path, j) == 0 && Wall(w, t, path, j) && (forall e :: e in s.events ==> e in t.events)
             && (forall c: nat :: c <= j && path[c] in t.events ==> path[c] in s.events)
    requires !(On(w, l, path, j) && l in s.dir)
    ensures Downward(w, Sync(w, s, l), rest, path, i, floor, j, up)
  {
    hide Sync, Walls, Wall, AllDown, On;
    DownStays(w, s, l, rest, path, i, floor, j, up);
    SyncFrames(w, s, l);
    if j == i && !up {
      var k :| k in [l] + rest && k in s.dir && On(w, k, path, i);
      assert k in rest;
    }
  }

  /** The wall's own sync takes it one down, or one up if it has not gone up yet. */
  lemma DownMoves(w: Wiring, s: State, l: Link, rest: seq<Link>, path: seq<Cell>, cells: seq<Cell>, i: nat, floor: nat,
                  j: nat, up: bool, c: nat)
    requires s.suspended > 0 && Chain(w, s.links, path) && Downward(w, s, [l] + rest, path, i, floor, j, up)
    requires Tuned(w, s, [l] + rest, cells) && forall d: nat :: d < floor && d < |path| ==> path[d] !in cells
    requires l in s.dir && On(w, l, path, j) && WritesAt(w, s, l, path, c)
    requires var t := Sync(w, s, l);
             && Copied(w, s, t, path, j, c) && (forall e :: e in t.events <==> e in s.events || e == path[c])
             && AllWalls(w, t, path) == AllWalls(w, s, path)
    ensures var t := Sync(w, s, l);
            if c == j then j > 0 && Downward(w, t, rest, path, i, floor, j - 1, false)
            else !up && j < i && Downward(w, t, rest, path, i, floor, j + 1, true)
  {
    hide Sync, Walls, Wall, AllWalls, Chain, Written;
    var t := Sync(w, s, l);
    WallMoves(w, s, t, path, j, c);
    CopiedWithin(w, s, t, path, j, c);
    assert l in [l] + rest;
    DownStays(w, s, l, rest, path, i, floor, j, up);
    SameWay(w, s, [l] + rest, path, cells, l, j);
    WaysStay(w, s, l, rest, path, j);
    assert forall d: nat :: d < |path| && d != c ==> path[d] != path[c];
    if c == j {
      assert Beyond(j, c) == j - 1;
      NoneBefore(w, s, path, j);
    } else {
      assert Beyond(j, c) == j + 1;
      assert Writes(w, s, l) == path[j + 1] && Reads(w, s, l) == path[j];
      assert Walls(w, t, path, j + 1) == 0 by { OneMore(w, t, path, j); }
    }
  }

  lemma OneMore(w: Wiring, s: State, path: seq<Cell>, j: nat)
    requires Walls(w, s, path, j) == 0 && !Wall(w, s, path, j)
    ensures Walls(w, s, path, j + 1) == 0
  {
  }

  lemma DownStep(w: Wiring, s: State, l: Link, rest: seq<Link>, path: seq<Cell>, cells: seq<Cell>, i: nat, floor: nat,
                 j: nat, up: bool)
    returns (j': nat, up': bool)
    requires s.suspended > 0 && Chain(w, s.links, path) && Downward(w, s, [l] + rest, path, i, floor, j, up)
    requires Tuned(w, s, [l] + rest, cells) && l.binding in s.ready &&
             forall d: nat :: d < floor && d < |path| ==> path[d] !in cells
    ensures var t := Sync(w, s, l);
            AllWalls(w, t, path) < AllWalls(w, s, path) || Downward(w, t, rest, path, i, floor, j', up')
  {
    hide Sync, Wall, Walls, AllWalls, Differ, Chain, Copied, Downward, WritesAt;
    var t := Sync(w, s, l);
    assert l in [l] + rest;
    SyncFrames(w, s, l);
    var p, c := ChainSync(w, s, l, path);
    j', up' := j, up;
    if Copies(w, s, l) {
      WallMoves(w, s, t, path, p, c);
      if AllWalls(w, t, path) == AllWalls(w, s, path) {
        if p == j {
          DownMoves(w, s, l, rest, path, cells, i, floor, j, up, c);
          j', up' := if c == j then j - 1 else j + 1, c != j;
        } else {
          DownElsewhere(w, s, l, rest, path, i, floor, j, up, p, c);
        }
      }
    } else {
      DownSkips(w, s, l, rest, path, i, floor, j, up);
    }
  }

  lemma DownElsewhere(w: Wiring, s: State, l: Link, rest: seq<Link>, path: seq<Cell>, i: nat, floor: nat, j: nat,
                      up: bool, p: nat, c: nat)
    requires s.suspended > 0 && Downward(w, s, [l] + rest, path, i, floor, j, up) && On(w, l, path, p) && p != j
    requires var t := Sync(w, s, l);
             && Copied(w, s, t, path, p, c) && (forall e :: e in t.events <==> e in s.events || e == path[c])
             && AllWalls(w, t, path) == AllWalls(w, s, path)
    ensures Downward(w, Sync(w, s, l), rest, path, i, floor, j, up)
  {
    hide Sync, Walls, Wall, AllWalls, Written, AllDown, On;
    var t := Sync(w, s, l);
    WallMoves(w, s, t, path, p, c);
    CopiedWithin(w, s, t, path, p, c);
    NoWalls(w, s, path, j);
    assert p > j;
    assert c > j + 1 by { assert c == j + 1 ==> Beyond(p, c) == j; }
    OtherWalls(w, s, t, path, c, Get(s.values, path[p + p + 1 - c]), j);
    if On(w, l, path, j) { OnOne(w, l, path, p, j); }
    assert forall d: nat :: d <= j ==> path[d] != path[c];
    DownIdles(w, s, l, rest, path, i, floor, j, up);
  }

  lemma DownSkips(w: Wiring, s: State, l: Link, rest: seq<Link>, path: seq<Cell>, i: nat, floor: nat, j: nat, up: bool)
    requires s.suspended > 0 && Downward(w, s, [l] + rest, path, i, floor, j, up) && l.binding in s.ready &&
             !Copies(w, s, l)
    requires var t := Sync(w, s, l); t.values == s.values && t.events == s.events
    ensures Downward(w, Sync(w, s, l), rest, path, i, floor, j, up)
  {
    hide Sync, Walls, Wall, AllDown, On, Differ;
    SyncFrames(w, s, l);
    SameWalls(w, s, Sync(w, s, l), path, j);
    SameWall(w, s, Sync(w, s, l), path, j);
    if On(w, l, path, j) { WallDiffers(w, s, l, path, j); }
    DownIdles(w, s, l, rest, path, i, floor, j, up);
  }

  lemma SameWall(w: Wiring, s: State, t: State, path: seq<Cell>, n: nat)
    requires s.values == t.values && s.links == t.links
    ensures Wall(w, s, path, n) <==> Wall(w, t, path, n)
  {
  }

  lemma {:induction false} DownRound(w: Wiring, s: State, ls: seq<Link>, path: seq<Cell>, cells: seq<Cell>, i: nat,
                                     floor: nat, j: nat, up: bool)
    returns (j': nat, up': bool)
    requires s.suspended > 0 && Chain(w, s.links, path) && Downward(w, s, ls, path, i, floor, j, up) &&
             Tuned(w, s, ls, cells)
    requires (forall l :: l in s.links ==> l.binding in s.ready) &&
             forall d: nat :: d < floor && d < |path| ==> path[d] !in cells
    ensures var t := SyncAll(w, s, ls);
            AllWalls(w, t, path) < AllWalls(w, s, path) || Downward(w, t, [], path, i, floor, j', up')
    decreases |ls|
  {
    hide Sync, Chain, Downward, AllWalls;
    j', up' := j, up;
    if ls == [] {
    } else {
      assert ls == [ls[0]] + ls[1..];
      assert ls[0] in ls;
      var t := Sync(w, s, ls[0]);
      j', up' := DownStep(w, s, ls[0], ls[1..], path, cells, i, floor, j, up);
      TunedStays(w, s, ls[0], ls[1..], cells);
      SyncFrames(w, s, ls[0]);
      WallsFall(w, s, [ls[0]], path);
      assert [ls[0]][1..] == [] && SyncAll(w, t, []) == t;
      WallsFall(w, t, ls[1..], path);
      if AllWalls(w, t, path) == AllWalls(w, s, path) {
        j', up' := DownRound(w, t, ls[1..], path, cells, i, floor, j', up');
      }
    }
  }

  // ----- whole rounds

  /** Between rounds: every link is ready, and every wall has its sync in the queue. */
  ghost predicate Live(w: Wiring, s: State, path: seq<Cell>) {
    && Inv(w, s, [], {}) && s.suspended == 0 && Chain(w, s.links, path)
    && forall l :: l in s.links ==> l.binding in s.ready && !Stale(s, [], l)
  }

  lemma LiveStays(w: Wiring, s: State, path: seq<Cell>)
    requires Live(w, s, path)
    ensures Live(w, FlushPass(w, s), path)
  {
    hide FlushPass, Inv, Stale, Chain;
    FlushPassKeeps(w, s);
  }

  lemma LiveIsStill(w: Wiring, s: State, path: seq<Cell>)
    requires Live(w, s, path)
    ensures s.suspended == 0 && s.events == [] && Chain(w, s.links, path) &&
            forall l :: l in s.links ==> l.binding in s.ready
  {
  }

  /** The changes of the round before; and the first wall. */
  ghost predicate First(w: Wiring, s: State, path: seq<Cell>, cells: seq<Cell>, i: nat) {
    Live(w, s, path) && Driven(w, s, cells) && i + 1 < |path| && Wall(w, s, path, i) && Walls(w, s, path, i) == 0
  }

  ghost predicate GoesUp(w: Wiring, s: State, path: seq<Cell>, cells: seq<Cell>, i: nat) {
    First(w, s, path, cells, i) && AllUp(w, s, s.queue, path, i)
  }

  /** And no cell before the floor has changed. */
  ghost predicate GoesDown(w: Wiring, s: State, path: seq<Cell>, cells: seq<Cell>, i: nat, floor: nat) {
    && First(w, s, path, cells, i) && AllDown(w, s, s.queue, path, i)
    && floor <= i + 1 && forall c: nat :: c < floor ==> path[c] !in cells
  }

  /** Delivering the changes of a round moves no wall. */
  lemma PassKeepsWalls(w: Wiring, s: State, path: seq<Cell>)
    requires s.suspended == 0 && s.events == []
    ensures var t, m := FlushPass(w, s), Synced(w, s);
            forall n: nat :: Walls(w, t, path, n) == Walls(w, m, path, n) &&
                (Wall(w, t, path, n) <==> Wall(w, m, path, n))
  {
    hide FlushPass, Synced, Wall, Walls;
    PassDrives(w, s);
    SyncedLinks(w, s);
    forall n: nat
      ensures Walls(w, FlushPass(w, s), path, n) == Walls(w, Synced(w, s), path, n)
      ensures Wall(w, FlushPass(w, s), path, n) <==> Wall(w, Synced(w, s), path, n)
    {
      SameWalls(w, FlushPass(w, s), Synced(w, s), path, n);
      SameWall(w, FlushPass(w, s), Synced(w, s), path, n);
    }
  }

  lemma SyncedLinks(w: Wiring, s: State)
    ensures Synced(w, s).links == s.links
  {
    hide SyncAll;
    SyncAllFrames(w, BeginChanges(s.(queue := [])), s.queue);
  }

  lemma WallQueued(w: Wiring, s: State, path: seq<Cell>, i: nat) returns (l: Link)
    requires Live(w, s, path) && Wall(w, s, path, i)
    ensures l in s.queue && l in s.dir && On(w, l, path, i)
  {
    hide Distinct;
    l :| l in s.links && On(w, l, path, i);
    assert Differ(w, s, l) && !Stale(s, [], l);
    assert [] + s.queue == s.queue;
  }

  lemma DrivenTunes(w: Wiring, s: State, b: State, cells: seq<Cell>)
    requires Driven(w, s, cells) && b.links == s.links && b.dir == s.dir
    ensures Tuned(w, b, s.queue, cells) && forall l :: l in s.queue ==> l in s.links
  {
  }

  lemma SameWays(w: Wiring, s: State, b: State, ls: seq<Link>, path: seq<Cell>, p: nat)
    requires b.dir == s.dir
    ensures (AllUp(w, s, ls, path, p) <==> AllUp(w, b, ls, path, p)) &&
            (AllDown(w, s, ls, path, p) <==> AllDown(w, b, ls, path, p))
  {
  }

  /** The first wall goes one way or the other, and up only from a cell that has changed. */
  lemma OneWay(w: Wiring, s: State, path: seq<Cell>, cells: seq<Cell>, i: nat)
    requires First(w, s, path, cells, i)
    ensures AllUp(w, s, s.queue, path, i) || AllDown(w, s, s.queue, path, i)
    ensures path[i] !in cells ==> AllDown(w, s, s.queue, path, i)
  {
    hide Inv, Wall, Walls, AllUp, AllDown, Chain;
    var l := WallQueued(w, s, path, i);
    DrivenTunes(w, s, s, cells);
    SameWay(w, s, s.queue, path, cells, l, i);
  }

  /** A round that goes down takes the first wall down, or up over a cell from the floor on, or loses walls. */
  lemma DownPass(w: Wiring, s: State, path: seq<Cell>, cells: seq<Cell>, i: nat, floor: nat) returns (j: nat)
    requires GoesDown(w, s, path, cells, i, floor)
    ensures var t, events := FlushPass(w, s), Synced(w, s).events;
            || AllWalls(w, t, path) < AllWalls(w, s, path)
            || (j < i && GoesDown(w, t, path, events, j, j + 1))
            || (floor < j <= i && (GoesUp(w, t, path, events, j) || GoesDown(w, t, path, events, j, j)))
  {
    hide SyncAll, FlushPass, Wall, Walls, Live, Driven, AllUp, AllDown, Chain, Tuned, On;
    var b, t, m := BeginChanges(s.(queue := [])), FlushPass(w, s), Synced(w, s);
    LiveIsStill(w, s, path);
    assert Downward(w, b, s.queue, path, i, floor, i, false) by { DownBegins(w, s, b, path, cells, i, floor); }
    DrivenTunes(w, s, b, cells);
    SameAllWalls(w, s, b, path);
    var up;
    j, up := DownRound(w, b, s.queue, path, cells, i, floor, i, false);
    PassKeepsWalls(w, s, path);
    LiveStays(w, s, path);
    PassDrives(w, s);
    if AllWalls(w, t, path) >= AllWalls(w, s, path) {
      OneWay(w, t, path, m.events, j);
    }
  }

  lemma DownBegins(w: Wiring, s: State, b: State, path: seq<Cell>, cells: seq<Cell>, i: nat, floor: nat)
    requires GoesDown(w, s, path, cells, i, floor)
    requires b.links == s.links && b.dir == s.dir && b.values == s.values && b.events == []
    ensures Downward(w, b, s.queue, path, i, floor, i, false)
  {
    hide Wall, Walls, Live, Driven, AllUp, AllDown, On;
    var l := WallQueued(w, s, path, i);
    SameWalls(w, s, b, path, i);
    SameWall(w, s, b, path, i);
    SameWays(w, s, b, s.queue, path, i);
  }

  /**
   A round that goes up leaves the first wall where it was or above, to go down over cells not changed before;
   or above, to go up.
   */
  lemma UpPass(w: Wiring, s: State, path: seq<Cell>, cells: seq<Cell>, i: nat) returns (j: nat)
    requires GoesUp(w, s, path, cells, i)
    ensures var t, events := FlushPass(w, s), Synced(w, s).events;
            || AllWalls(w, t, path) < AllWalls(w, s, path)
            || (j > i && GoesUp(w, t, path, events, j))
            || (j >= i && GoesDown(w, t, path, events, j, i + 1))
  {
    hide SyncAll, FlushPass, Wall, Walls, Live, Driven, AllUp, AllDown, Chain, Tuned, On;
    var b, t, m := BeginChanges(s.(queue := [])), FlushPass(w, s), Synced(w, s);
    LiveIsStill(w, s, path);
    assert Upward(w, b, s.queue, path, i) by {
      DrivenTunes(w, s, b, cells);
      SameWays(w, s, b, s.queue, path, i);
      SameWalls(w, s, b, path, i);
    }
    UpwardRound(w, b, s.queue, path, i);
    PassKeepsWalls(w, s, path);
    LiveStays(w, s, path);
    PassDrives(w, s);
    SomeWalls(w, s, path, i);
    j := 0;
    if AllWalls(w, t, path) >= AllWalls(w, s, path) {
      j := FirstWall(w, t, path, |path|);
      WallWithin(w, t, path, j);
      NoWalls(w, t, path, i);
      OneWay(w, t, path, m.events, j);
    }
  }

  lemma WallWithin(w: Wiring, s: State, path: seq<Cell>, p: nat)
    requires Wall(w, s, path, p)
    ensures p + 1 < |path|
  {
  }

  lemma SomeWalls(w: Wiring, s: State, path: seq<Cell>, i: nat)
    requires Wall(w, s, path, i)
    ensures AllWalls(w, s, path) > 0
  {
    NoWalls(w, s, path, |path|);
  }

  // ----- the theorem

  /** Rounds enough for so many walls on a path of that length. */
  function Budget(walls: nat, length: nat): (r: nat)
    ensures r > 0
  {
    if walls == 0 then 1 else Budget(walls - 1, length) + 3 * length + 3
  }

  /** Rounds enough to lose a wall that goes up from `i`; and one that goes down. */
  function UpBudget(length: nat, i: nat): int {
    1 + length + 2 * (length - i)
  }

  function DownBudget(length: nat, i: nat, floor: nat): int {
    if floor > i then 1 + i else 2 + length + 2 * (length - floor)
  }

  lemma {:induction false} BudgetGrows(a: nat, b: nat, length: nat)
    requires a <= b
    ensures Budget(a, length) <= Budget(b, length)
  {
    if a < b {
      BudgetGrows(a, b - 1, length);
    }
  }

  /** Without walls the next round is the last. */
  lemma NoWallsRest(w: Wiring, s: State, path: seq<Cell>)
    requires Live(w, s, path) && AllWalls(w, s, path) == 0 && forall l :: l in s.queue ==> l in s.links
    ensures Quiet(FlushPass(w, s))
  {
    hide FlushPass, Inv, Walls, Distinct, Stale;
    assert s.events == [] by { LiveIsStill(w, s, path); }
    NoWalls(w, s, path, |path|);
    forall l | l in s.queue
      ensures !Differ(w, s, l)
    {
      var p: nat :| On(w, l, path, p);
      assert !Wall(w, s, path, p);
    }
    AgreedPassRests(w, s);
  }

  /** What every round keeps. */
  lemma PassFalls(w: Wiring, s: State, path: seq<Cell>, cells: seq<Cell>)
    requires Live(w, s, path) && Driven(w, s, cells)
    ensures var t := FlushPass(w, s);
            Live(w, t, path) && Driven(w, t, Synced(w, s).events) && AllWalls(w, t, path) <= AllWalls(w, s, path)
  {
    hide FlushPass, Inv, Walls, Wall, Distinct, Stale, Chain, SyncAll;
    var b := BeginChanges(s.(queue := []));
    LiveIsStill(w, s, path);
    LiveStays(w, s, path);
    PassDrives(w, s);
    WallsFall(w, b, s.queue, path);
    SameAllWalls(w, s, b, path);
    PassKeepsWalls(w, s, path);
  }

  lemma FirstFacts(w: Wiring, s: State, path: seq<Cell>, cells: seq<Cell>, i: nat)
    requires First(w, s, path, cells, i)
    ensures Live(w, s, path) && Driven(w, s, cells) && i + 1 < |path| && AllWalls(w, s, path) > 0
  {
    hide Live, Driven, Wall, AllWalls;
    SomeWalls(w, s, path, i);
  }

  lemma SomeFirst(w: Wiring, s: State, path: seq<Cell>, cells: seq<Cell>) returns (j: nat)
    requires Live(w, s, path) && Driven(w, s, cells) && AllWalls(w, s, path) > 0
    ensures GoesUp(w, s, path, cells, j) || GoesDown(w, s, path, cells, j, 0)
  {
    hide Live, Driven, Wall, Walls, AllUp, AllDown;
    j := FirstWall(w, s, path, |path|);
    WallWithin(w, s, path, j);
    OneWay(w, s, path, cells, j);
  }

  lemma DrivenLinks(w: Wiring, s: State, cells: seq<Cell>)
    requires Driven(w, s, cells)
    ensures forall l :: l in s.queue ==> l in s.links
  {
  }

  lemma {:induction false} WallsRest(w: Wiring, s: State, path: seq<Cell>, cells: seq<Cell>, rounds: nat)
    requires Live(w, s, path) && Driven(w, s, cells) && rounds >= Budget(AllWalls(w, s, path), |path|)
    ensures Quiet(Passes(w, s, rounds))
    decreases rounds, 1
  {
    hide FlushPass, Live, Driven, AllWalls, Passes, Synced, First, AllUp, AllDown;
    if AllWalls(w, s, path) == 0 {
      var t := FlushPass(w, s);
      PassesFirst(w, s, rounds - 1);
      PassFalls(w, s, path, cells);
      DrivenLinks(w, s, cells);
      NoWallsRest(w, s, path);
      LiveIsStill(w, t, path);
      QuietStays(w, t, rounds - 1);
    } else {
      var j := SomeFirst(w, s, path, cells);
      FirstFacts(w, s, path, cells, j);
      if GoesUp(w, s, path, cells, j) {
        UpRests(w, s, path, cells, j, rounds);
      } else {
        DownRests(w, s, path, cells, j, 0, rounds);
      }
    }
  }

  lemma {:induction false} UpRests(w: Wiring, s: State, path: seq<Cell>, cells: seq<Cell>, i: nat, rounds: nat)
    requires GoesUp(w, s, path, cells, i) && AllWalls(w, s, path) > 0
    requires rounds >= Budget(AllWalls(w, s, path) - 1, |path|) + UpBudget(|path|, i)
    ensures Quiet(Passes(w, s, rounds))
    decreases rounds, 0
  {
    hide FlushPass, Live, Driven, AllWalls, Passes, Synced, First, Quiet, AllUp, AllDown, Budget;
    var t, events := FlushPass(w, s), Synced(w, s).events;
    FirstFacts(w, s, path, cells, i);
    PassesFirst(w, s, rounds - 1);
    PassFalls(w, s, path, cells);
    var j := UpPass(w, s, path, cells, i);
    if AllWalls(w, t, path) < AllWalls(w, s, path) {
      BudgetGrows(AllWalls(w, t, path), AllWalls(w, s, path) - 1, |path|);
      WallsRest(w, t, path, events, rounds - 1);
    } else {
      FirstFacts(w, t, path, events, j);
      if j > i && GoesUp(w, t, path, events, j) {
        UpRests(w, t, path, events, j, rounds - 1);
      } else {
        DownRests(w, t, path, events, j, i + 1, rounds - 1);
      }
    }
  }

  lemma {:induction false} DownRests(w: Wiring, s: State, path: seq<Cell>, cells: seq<Cell>, i: nat, floor: nat,
                                     rounds: nat)
    requires GoesDown(w, s, path, cells, i, floor) && AllWalls(w, s, path) > 0
    requires rounds >= Budget(AllWalls(w, s, path) - 1, |path|) + DownBudget(|path|, i, floor)
    ensures Quiet(Passes(w, s, rounds))
    decreases rounds, 0
  {
    hide FlushPass, Live, Driven, AllWalls, Passes, Synced, First, Quiet, AllUp, AllDown, Budget;
    var t, events := FlushPass(w, s), Synced(w, s).events;
    FirstFacts(w, s, path, cells, i);
    PassesFirst(w, s, rounds - 1);
    PassFalls(w, s, path, cells);
    var j := DownPass(w, s, path, cells, i, floor);
    if AllWalls(w, t, path) < AllWalls(w, s, path) {
      BudgetGrows(AllWalls(w, t, path), AllWalls(w, s, path) - 1, |path|);
      WallsRest(w, t, path, events, rounds - 1);
    } else {
      FirstFacts(w, t, path, events, j);
      if j < i && GoesDown(w, t, path, events, j, j + 1) {
        DownRests(w, t, path, events, j, j + 1, rounds - 1);
      } else if GoesUp(w, t, path, events, j) {
        UpRests(w, t, path, events, j, rounds - 1);
      } else {
        DownRests(w, t, path, events, j, j, rounds - 1);
      }
    }
  }

  /** The number of rounds after which a chain over that many cells is at rest. */
  function Rounds(length: nat): nat {
    Budget(length, length) + 1
  }

  /**
   On paths of two-way links, whichever way round each link lies, the loop comes to rest from any state that a
   run can reach between change brackets, as long as every connected link is ready and has no sync that was
   skipped; and then the ends of all links agree.
   */
  lemma ChainRests(w: Wiring, s: State, path: seq<Cell>)
    requires Live(w, s, path)
    ensures var t := Passes(w, s, Rounds(|path|));
            Quiet(t) && forall l :: l in t.links ==> !Differ(w, t, l)
  {
    hide FlushPass, Passes, Driven, Walls, Differ, Synced, Budget, Inv, Stale, Distinct;
    var t, n := FlushPass(w, s), Budget(|path|, |path|);
    LiveIsStill(w, s, path);
    PassDrives(w, s);
    LiveStays(w, s, path);
    BudgetGrows(AllWalls(w, t, path), |path|, |path|);
    WallsRest(w, t, path, Synced(w, s).events, n);
    PassesFirst(w, s, n);
    LivePasses(w, s, path, Rounds(|path|));
    RestAgrees(w, Passes(w, s, Rounds(|path|)));
  }

  lemma {:induction false} LivePasses(w: Wiring, s: State, path: seq<Cell>, n: nat)
    requires Live(w, s, path)
    ensures Live(w, Passes(w, s, n), path)
  {
    hide Live, FlushPass;
    if n > 0 {
      LivePasses(w, s, path, n - 1);
      LiveStays(w, Passes(w, s, n - 1), path);
    }
  }

  /** So after any run of user code that has left the links connected, ready and on a path. */
  lemma ChainAgrees(w: Wiring, actions: seq<Action>, path: seq<Cell>)
    requires Runs(w, NOTHING, actions)
    requires var s := Run(w, NOTHING, actions);
             && s.suspended == 0 && Chain(w, s.links, path)
             && forall l :: l in s.links ==> l.binding in s.ready && !Skipped(w, NOTHING, actions, l)
    ensures var t := Passes(w, Run(w, NOTHING, actions), Rounds(|path|));
            Quiet(t) && forall l :: l in t.links ==> !Differ(w, t, l)
  {
    hide Run, Runs, Passes, Chain, Stale, Differ, Inv, Skipped, Rounds;
    assert Inv(w, NOTHING, [], {}) by { NothingHolds(w); }
    RunKeeps(w, NOTHING, actions);
    forall l
      ensures !Stale(NOTHING, [], l)
    {
      NothingStale(l);
    }
    ChainRests(w, Run(w, NOTHING, actions), path);
  }
}
