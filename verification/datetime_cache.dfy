/** The bounded cache of `SC.DateTime` instances: one table of instances by key, and a ring of keys. */
module DateTimeCache {
  import opened JsText
  import opened Collections

  const MAX_LENGTH: nat := 1000

  function CacheKey(ms: int, timezone: int): string {
    "nu" + IntText(ms) + IntText(timezone)
  }

  class Instance {
    const ms: int
    const createdFor: int  // the time zone it was created with
    var timezone: int

    constructor (ms: int, timezone: int)
      ensures this.ms == ms && this.createdFor == timezone && this.timezone == timezone
    {
      this.ms, this.createdFor, this.timezone := ms, timezone, timezone;
    }
  }

  // ----- what a first-in first-out set of bounded size does

  /** The live keys after one request, oldest first. */
  function Requested(order: seq<string>, key: string): seq<string> {
    if key in order then order
    else if |order| < MAX_LENGTH then order + [key]
    else order[1..] + [key]
  }

  function RequestedAll(order: seq<string>, keys: seq<string>): seq<string> {
    if keys == [] then order else Requested(RequestedAll(order, keys[..|keys| - 1]), keys[|keys| - 1])
  }

  function Misses(order: seq<string>, keys: seq<string>): (n: nat)
    ensures n <= |keys|
  {
    if keys == [] then 0
    else
      var rest := keys[..|keys| - 1];
      Misses(order, rest) + (if keys[|keys| - 1] in RequestedAll(order, rest) then 0 else 1)
  }

  lemma {:induction false} StaysBounded(order: seq<string>, keys: seq<string>)
    requires Distinct(order) && |order| <= 1000
    ensures var r := RequestedAll(order, keys);
            && Distinct(r)
            && |r| == if |order| + Misses(order, keys) < 1000 then |order| + Misses(order, keys) else 1000
    decreases |keys|
  {
    if keys != [] {
      StaysBounded(order, keys[..|keys| - 1]);
    }
  }

  /** How many of the oldest keys are gone. */
  function Gone(order: seq<string>, keys: seq<string>): nat {
    if |order| + Misses(order, keys) <= MAX_LENGTH then 0 else |order| + Misses(order, keys) - MAX_LENGTH
  }

  /**
   Eviction is oldest first, over any run of requests: the key at position `i` is still there, moved
   up by the number of evictions, as long as at most `i` keys have been evicted; and after that it is gone,
   unless it has been requested again.
   */
  lemma {:induction false} OldestFirst(order: seq<string>, keys: seq<string>, i: nat)
    requires Distinct(order) && i < |order| <= MAX_LENGTH
    ensures Gone(order, keys) <= i ==>
              |RequestedAll(order, keys)| > i - Gone(order, keys) &&
                  RequestedAll(order, keys)[i - Gone(order, keys)] == order[i]
    ensures order[i] !in keys ==> (order[i] in RequestedAll(order, keys) <==> Gone(order, keys) <= i)
    decreases |keys|
  {
    if keys != [] {
      var rest, key := keys[..|keys| - 1], keys[|keys| - 1];
      OldestFirst(order, rest, i);
      StaysBounded(order, rest);
      assert keys == rest + [key];
      if order[i] !in keys {
        OnlyOldestGoes(RequestedAll(order, rest), key, order[i]);
      }
    }
  }

  /** A request loses the oldest key or none. */
  lemma OnlyOldestGoes(order: seq<string>, key: string, k: string)
    requires Distinct(order) && |order| <= MAX_LENGTH && k != key
    ensures k in Requested(order, key) <==> k in order && !(key !in order && |order| == MAX_LENGTH && k == order[0])
  {
    if key !in order {
      KeysAfter(order, key);
    }
  }

  /** A key just created survives at least the next 999 misses. */
  lemma {:induction false} Survives(order: seq<string>, key: string, keys: seq<string>)
    requires Distinct(order) && |order| <= 1000 && key !in order
    requires Misses(Requested(order, key), keys) < 1000
    ensures key in RequestedAll(Requested(order, key), keys)
  {
    StaysBounded(order, [key]);
    var o := Requested(order, key);
    assert RequestedAll(order, [key]) == o by {
      assert [key][..0] == [];
      assert RequestedAll(order, [key][..0]) == order;
    }
    OldestFirst(o, keys, |o| - 1);
  }

  // ----- the keys

  lemma SameLengthParts(a: string, b: string, x: string, y: string)
    requires a + x == b + y && |a| == |b|
    ensures a == b && x == y
  {
    assert a == (a + x)[..|a|] == (b + y)[..|b|] == b;
    assert x == (a + x)[|a|..] == (b + y)[|b|..] == y;
  }

  /** The key tells two requests apart as long as the milliseconds have the same number of digits. */
  lemma KeyInjective(ms: int, timezone: int, ms': int, timezone': int)
    requires CacheKey(ms, timezone) == CacheKey(ms', timezone') && |IntText(ms)| == |IntText(ms')|
    ensures ms == ms' && timezone == timezone'
  {
    SameLengthParts("nu" + IntText(ms), "nu" + IntText(ms'), IntText(timezone), IntText(timezone'));
    SameLengthParts("nu", "nu", IntText(ms), IntText(ms'));
    IntTextInjective(ms, ms');
    IntTextInjective(timezone, timezone');
  }

  lemma ThirteenDigits(ms: int)
    requires 1000000000000 <= ms < 10000000000000
    ensures |IntText(ms)| == 13
  {
    Width(ms, 12);
    Width(ms, 13);
    PowersUsed();
  }

  lemma PowersUsed()
    ensures Pow10(12) == 1000000000000 && Pow10(13) == 10000000000000
  {
    assert Pow10(4) == 10000;
    assert Pow10(8) == 100000000;
    assert Pow10(12) == 1000000000000;
    assert Pow10(13) == 10 * Pow10(12);
  }

  /** The text `s` goes on after `t`, and not with a zero. */
  predicate Extends(s: string, t: string) {
    |t| < |s| && s[..|t|] == t && s[|t|] != '0'
  }

  ghost predicate Collide(ms: int, ms': int) {
    exists timezone, timezone' :: CacheKey(ms, timezone) == CacheKey(ms', timezone')
  }

  /** A longer text of milliseconds leaves the rest of the key to a time zone that starts with its own digits. */
  lemma LongerCollides(ms: int, ms': int)
    requires Extends(IntText(ms'), IntText(ms))
    ensures Collide(ms, ms')
  {
    var t, t' := IntText(ms), IntText(ms');
    var rest := t'[|t|..];
    assert AllDigits(rest) by { TailDigits(ms', |t|); }
    TextOfParsed(rest + "0");
    assert t + (rest + "0") == t' + "0";
    assert "nu" + t + IntText(ParseNat(rest + "0")) == "nu" + t' + IntText(0);
    assert CacheKey(ms, ParseNat(rest + "0")) == CacheKey(ms', 0);
  }

  lemma TailDigits(n: int, k: nat)
    requires 0 < k <= |IntText(n)|
    ensures AllDigits(IntText(n)[k..])
  {
    if n < 0 {
      assert IntText(n)[k..] == NatText(-n)[k - 1..];
    }
  }

  lemma OnlyExtended(ms: int, timezone: int, ms': int, timezone': int)
    requires CacheKey(ms, timezone) == CacheKey(ms', timezone') && |IntText(ms)| < |IntText(ms')|
    ensures Extends(IntText(ms'), IntText(ms))
  {
    var t, t', z, z' := IntText(ms), IntText(ms'), IntText(timezone), IntText(timezone');
    SameLengthParts("nu", "nu", t + z, t' + z');
    assert t + z == t' + z' by { assert "nu" + t + z == "nu" + (t + z) && "nu" + t' + z' == "nu" + (t' + z'); }
    assert t' == t'[..|t|] + t'[|t|..];
    SameLengthParts(t, t'[..|t|], z, t'[|t|..] + z');
    assert IsDigit(t'[|t|..][0]) by { TailDigits(ms', |t|); }
    assert z[0] == t'[|t|] && |z| >= 2;
    if z[0] == '0' {
      NoLeadingZero(timezone);
    }
  }

  /**
   Two different instants share a key in some pair of time zones exactly if the text of one of them goes on
   after that of the other with anything but a zero.
   */
  lemma CollideExactly(ms: int, ms': int)
    requires ms != ms'
    ensures Collide(ms, ms') <==> Extends(IntText(ms'), IntText(ms)) || Extends(IntText(ms), IntText(ms'))
  {
    hide CacheKey, Extends, IntText;
    if timezone, timezone' :| CacheKey(ms, timezone) == CacheKey(ms', timezone') {
      if |IntText(ms)| == |IntText(ms')| {
        KeyInjective(ms, timezone, ms', timezone');
      } else if |IntText(ms)| < |IntText(ms')| {
        OnlyExtended(ms, timezone, ms', timezone');
      } else {
        OnlyExtended(ms', timezone', ms, timezone);
      }
    }
    if Extends(IntText(ms'), IntText(ms)) {
      LongerCollides(ms, ms');
    } else if Extends(IntText(ms), IntText(ms')) {
      LongerCollides(ms', ms);
    }
  }

  /** One millisecond an hour west of Greenwich has the key of 16 milliseconds at Greenwich. */
  lemma KeysCollide()
    ensures CacheKey(1, 60) == CacheKey(16, 0)
  {
    assert IntText(60) == "60" by { assert NatText(60) == NatText(6) + NatText(0); }
    assert IntText(16) == "16" by { assert NatText(16) == NatText(1) + NatText(6); }
  }

  // ----- the ring

  /** The slot of the `i`-th oldest of `n` keys, when the last one written is `index`. */
  function Slot(index: int, n: nat, i: int): int {
    var k := index + 1 - n + i;
    if k < 0 then k + MAX_LENGTH else k
  }

  function Next(index: int): int {
    (index + 1) % MAX_LENGTH
  }

  /** Ring slots and the keys in `order` are in bijection. */
  ghost predicate RingHolds(ring: map<int, string>, index: int, order: seq<string>) {
    && |order| <= MAX_LENGTH && Distinct(order)
    && -1 <= index < MAX_LENGTH && (|order| < MAX_LENGTH ==> index == |order| - 1)
    && (forall i :: i in ring <==> 0 <= i < |order|)
    && (forall i :: 0 <= i < |order| ==> Slot(index, |order|, i) in ring && ring[Slot(index, |order|, i)] == order[i])
  }

  /** The next slot is free, or holds the oldest key. */
  lemma NextSlot(ring: map<int, string>, index: int, order: seq<string>)
    requires RingHolds(ring, index, order)
    ensures Next(index) == if |order| < MAX_LENGTH then |order| else Slot(index, |order|, 0)
    ensures Next(index) in ring <==> |order| == MAX_LENGTH
    ensures Next(index) in ring ==> ring[Next(index)] == order[0]
  {
  }

  lemma RingMoves(ring: map<int, string>, index: int, order: seq<string>, key: string)
    requires RingHolds(ring, index, order) && key !in order
    ensures RingHolds(ring[Next(index) := key], Next(index), Requested(order, key))
  {
    NextSlot(ring, index, order);
    var order', index' := Requested(order, key), Next(index);
    forall i | 0 <= i < |order'|
      ensures var s := Slot(index', |order'|, i); s in ring[index' := key] && ring[index' := key][s] == order'[i]
    {
      var k := if |order| < MAX_LENGTH then i else i + 1;
      if k < |order| {
        assert Slot(index', |order'|, i) == Slot(index, |order|, k) != index';
      } else {
        assert Slot(index', |order'|, i) == index';
      }
    }
  }

  lemma RingIsOrder(ring: map<int, string>, index: int, order: seq<string>)
    requires RingHolds(ring, index, order)
    ensures |order| <= MAX_LENGTH && Distinct(order)
  {
  }

  /** The keys that stay. */
  lemma KeysAfter(order: seq<string>, key: string)
    requires Distinct(order) && key !in order && |order| <= MAX_LENGTH
    ensures forall k :: k in Requested(order, key) <==>
            (k == key || (k in order && !(|order| == MAX_LENGTH && k == order[0])))
  {
    if |order| == MAX_LENGTH {
      assert order == [order[0]] + order[1..];
    }
  }

  lemma NewKeys(order: seq<string>, key: string)
    ensures forall k :: k in Requested(order, key) ==> k in order || k == key
    ensures key in Requested(order, key)
    ensures key in order ==> Requested(order, key) == order
  {
  }

  class InstanceCache {
    var live: map<string, Instance>  // cache['nu...']
    var ring: map<int, string>  // cache[0], cache[1], ...
    var index: int

    ghost var order: seq<string>  // the live keys, oldest first

    /** Ring slots and live keys are in bijection, and every instance sits under its own key. */
    ghost predicate Valid()
      reads this
    {
      && RingHolds(ring, index, order)
      && (forall key :: key in live <==> key in order)
      && (forall key :: key in live ==> key == CacheKey(live[key].ms, live[key].createdFor))
    }

    /** Every live instance has the same number of digits. */
    ghost predicate Wide(w: nat)
      reads this
    {
      forall key :: key in live ==> |IntText(live[key].ms)| == w
    }

    /** No live instance has been moved to another zone since it was created. */
    ghost predicate Untouched()
      reads this, live.Values
    {
      forall key :: key in live ==> live[key].timezone == live[key].createdFor
    }

    /** The instant of the instance that a request is answered with. */
    ghost function InstantFor(ms: int, timezone: int): int
      reads this
    {
      var key := CacheKey(ms, timezone);
      if key in live then live[key].ms else ms
    }

    /** The zone that this instance is labelled with. */
    ghost function LabelFor(ms: int, timezone: int): int
      reads this, live.Values
    {
      var key := CacheKey(ms, timezone);
      if key in live then live[key].timezone else timezone
    }

    constructor ()
      ensures Valid() && order == []
    {
      live, ring, index, order := map[], map[], -1, [];
    }

    /** `create`, once the milliseconds and the time zone are known. */
    method Create(milliseconds: int, timezone: int) returns (ret: Instance)
      requires Valid()
      modifies `live, `ring, `index, `order
      ensures Valid()
      ensures order == Requested(old(order), CacheKey(milliseconds, timezone))
      ensures CacheKey(milliseconds, timezone) in live && live[CacheKey(milliseconds, timezone)] == ret
      ensures forall key :: key in live && key in old(live) ==> live[key] == old(live[key])
      ensures CacheKey(ret.ms, ret.createdFor) == CacheKey(milliseconds, timezone)
      ensures CacheKey(milliseconds, timezone) in old(live) || (fresh(ret) && ret.timezone == timezone)
      ensures fresh(ret) || ret in old(live.Values)
      ensures ret.ms == old(InstantFor(milliseconds, timezone)) && ret.timezone == old(LabelFor(milliseconds, timezone))
      ensures ret.timezone == timezone <==>
              CacheKey(milliseconds, timezone) !in old(live) ||
                  old(live[CacheKey(milliseconds, timezone)].timezone) == timezone
      ensures old(Untouched()) ==> Untouched()
      ensures CacheKey(milliseconds, timezone) !in old(live) ==> ret.ms == milliseconds && ret.createdFor == timezone
      ensures old(Wide(|IntText(milliseconds)|)) ==>
                Wide(|IntText(milliseconds)|) && ret.ms == milliseconds && ret.createdFor == timezone
      ensures old(Untouched()) && old(Wide(|IntText(milliseconds)|)) ==> ret.timezone == timezone
    {
      hide CacheKey, IntText, RingHolds, Requested;
      var key := CacheKey(milliseconds, timezone);
      NewKeys(order, key);
      if key !in live {
        ret := new Instance(milliseconds, timezone);
        Insert(key, ret);
      } else {
        ret := live[key];
        if Wide(|IntText(milliseconds)|) {
          KeyInjective(ret.ms, ret.createdFor, milliseconds, timezone);
        }
      }
    }

    /** Puts a new instance in the next ring slot, in place of the oldest one if the ring is full. */
    method Insert(key: string, ret: Instance)
      requires Valid() && key !in live && key == CacheKey(ret.ms, ret.createdFor)
      modifies `live, `ring, `index, `order
      ensures Valid() && order == Requested(old(order), key)
      ensures key in live && live[key] == ret
      ensures forall k :: k in live && k in old(live) ==> live[k] == old(live[k])
    {
      hide CacheKey, Next, RingHolds, Requested;
      assert |order| <= MAX_LENGTH && Distinct(order) && key !in order by { RingIsOrder(ring, index, order); }
      NextSlot(ring, index, order);
      RingMoves(ring, index, order, key);
      KeysAfter(order, key);
      live := live[key := ret];
      index := Next(index);
      if index in ring && ring[index] in live {
        live := live - {ring[index]};
      }
      ring := ring[index := key];
      order := Requested(order, key);
    }
  }
}
