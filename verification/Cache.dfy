/** The passphrase cache of cns/gnupg-2.0.22/agent/cache.c. */
module PassphraseCache {

  import opened Wrappers

  datatype Mode = Ignore | Any | Normal | User | Ssh

  /** The four lifetimes of the agent's options. */
  datatype Options = Options(defTtl: int, defTtlSsh: int, maxTtl: nat, maxTtlSsh: nat)

  /** `id` stands for the address of the item: it is what a cache handle points to. */
  datatype Item = Item(id: nat, created: int, accessed: int, ttl: int, lockcount: nat,
                       pw: Option<string>, mode: Mode, key: string)

  /** The list from its head, and the next address that an allocation will give. */
  datatype Cache = Cache(items: seq<Item>, nextId: nat)

  function MaxAge(opt: Options, mode: Mode): nat {
    if mode == Ssh then opt.maxTtlSsh else opt.maxTtl
  }

  function DefaultTtl(opt: Options, mode: Mode): int {
    if mode == Ssh then opt.defTtlSsh else opt.defTtl
  }

  // ---------------------------------------------------------------------------------
  // Housekeeping, item by item.

  predicate IdleExpired(it: Item, now: int) {
    it.lockcount == 0 && it.pw.Some? && it.ttl >= 0 && it.accessed + it.ttl < now
  }

  predicate AgeExpired(opt: Options, it: Item, now: int) {
    it.lockcount == 0 && it.pw.Some? && it.created + MaxAge(opt, it.mode) < now
  }

  function DropData(it: Item, now: int): Item {
    it.(pw := None, accessed := now)
  }

  function ExpireIdle(it: Item, now: int): Item {
    if IdleExpired(it, now) then DropData(it, now) else it
  }

  function ExpireAged(opt: Options, it: Item, now: int): Item {
    if AgeExpired(opt, it, now) then DropData(it, now) else it
  }

  /** An empty slot that has not been used for 30 minutes. */
  predicate Unused(it: Item, now: int) {
    it.pw.None? && it.ttl >= 0 && it.accessed + 60 * 30 < now
  }

  /** What the third pass leaves of an item. */
  function Sweep(it: Item, now: int): seq<Item> {
    if !Unused(it, now) then [it]
    else if it.lockcount > 0 then [it.(accessed := it.accessed + 60 * 10)]
    else []
  }

  function Tend(opt: Options, it: Item, now: int): seq<Item> {
    Sweep(ExpireAged(opt, ExpireIdle(it, now), now), now)
  }

  function Housekeep(opt: Options, items: seq<Item>, now: int): seq<Item> {
    if items == [] then [] else Tend(opt, items[0], now) + Housekeep(opt, items[1..], now)
  }

  // ---------------------------------------------------------------------------------
  // The operations.

  function Find(items: seq<Item>, p: Item -> bool): (i: nat)
    ensures i <= |items|
    ensures i < |items| ==> p(items[i])
    ensures forall j | 0 <= j < i :: !p(items[j])
  {
    if items == [] || p(items[0]) then 0 else 1 + Find(items[1..], p)
  }

  predicate Free(it: Item, key: string) { it.lockcount == 0 && it.key == key }
  predicate FreeHit(it: Item, key: string) { it.lockcount == 0 && it.pw.Some? && it.key == key }
  predicate AnyHit(it: Item, key: string) { it.pw.Some? && it.key == key }

  function FirstFree(items: seq<Item>, key: string): nat { Find(items, (it: Item) => Free(it, key)) }
  function FirstFreeHit(items: seq<Item>, key: string): nat { Find(items, (it: Item) => FreeHit(it, key)) }
  function FirstAnyHit(items: seq<Item>, key: string): nat { Find(items, (it: Item) => AnyHit(it, key)) }

  function FlushItem(it: Item): Item {
    if it.pw.None? then it
    else if it.lockcount == 0 then it.(pw := None, accessed := 0)
    else it.(accessed := 0, ttl := 0)
  }

  function Flush(c: Cache): Cache {
    c.(items := seq(|c.items|, i requires 0 <= i < |c.items| => FlushItem(c.items[i])))
  }

  function Tidy(opt: Options, c: Cache, now: int): Cache {
    c.(items := Housekeep(opt, c.items, now))
  }

  /** The lifetime a put gives, and whether it goes on at all. */
  function Lifetime(opt: Options, mode: Mode, ttl: int): int {
    if ttl == 0 then DefaultTtl(opt, mode) else ttl
  }

  /** What a put does after housekeeping.  `memory` says whether the allocation succeeds. */
  function Store(c: Cache, key: string, mode: Mode, data: Option<string>, ttl: int, stamp: int, memory: bool): Cache {
    var i := FirstFree(c.items, key);
    if i < |c.items| then
      var it := if data.None? then c.items[i].(pw := None)
                else c.items[i].(created := stamp, accessed := stamp, ttl := ttl, mode := mode,
                                 pw := if memory then data else None);
      c.(items := c.items[i := it])
    else if data.Some? && memory then
      Cache([Item(c.nextId, stamp, stamp, ttl, 0, data, mode, key)] + c.items, c.nextId + 1)
    else c
  }

  /** `now` is the clock as housekeeping reads it, `stamp` as the item is stamped later. */
  function Put(opt: Options, c: Cache, key: string, mode: Mode, data: Option<string>, ttl: int,
               now: int, stamp: int, memory: bool): Cache
  {
    if Lifetime(opt, mode, ttl) == 0 || mode == Ignore then Tidy(opt, c, now)
    else Store(Tidy(opt, c, now), key, mode, data, Lifetime(opt, mode, ttl), stamp, memory)
  }

  /** A hit: the handle and the data behind it. */
  datatype Hit = Hit(id: nat, data: string)

  /** Unlocked items are preferred; they are the later ones. */
  function HitIndex(items: seq<Item>, key: string): (j: nat)
    ensures j <= |items|
    ensures j < |items| ==> AnyHit(items[j], key)
  {
    var i := FirstFreeHit(items, key);
    if i < |items| then i else FirstAnyHit(items, key)
  }

  function Take(c: Cache, key: string, stamp: int): (Cache, Option<Hit>) {
    var j := HitIndex(c.items, key);
    if j < |c.items| then
      var it := c.items[j];
      (c.(items := c.items[j := it.(accessed := stamp, lockcount := it.lockcount + 1)]), Some(Hit(it.id, it.pw.value)))
    else (c, None)
  }

  function Get(opt: Options, c: Cache, key: string, mode: Mode, now: int, stamp: int): (Cache, Option<Hit>) {
    if mode == Ignore then (c, None) else Take(Tidy(opt, c, now), key, stamp)
  }

  function Unlock(c: Cache, id: nat): Cache {
    var i := Find(c.items, (it: Item) => it.id == id);
    if i < |c.items| && c.items[i].lockcount > 0 then
      c.(items := c.items[i := c.items[i].(lockcount := c.items[i].lockcount - 1)])
    else c
  }

  // ---------------------------------------------------------------------------------
  // Runs of the cache with its clients.

  datatype Event =
    | DoPut(key: string, mode: Mode, data: Option<string>, ttl: int, now: nat, stamp: nat, memory: bool)
    | DoGet(key: string, mode: Mode, now: nat, stamp: nat)
    | DoFlush
    | DoUnlock(id: nat)

  /** The cache, the handles that clients hold, what the last hit on each handle returned,
      and when each item was last filled and last used. */
  datatype System = System(cache: Cache, handles: multiset<nat>, returned: map<nat, string>,
                           filled: map<nat, nat>, used: map<nat, nat>)

  const Start: System := System(Cache([], 0), multiset{}, map[], map[], map[])

  /** Clients only unlock handles they hold. */
  predicate Allowed(s: System, e: Event) {
    e.DoUnlock? ==> e.id in s.handles
  }

  function Tidied(opt: Options, s: System, now: int): System {
    s.(cache := Tidy(opt, s.cache, now))
  }

  function Stored(s: System, key: string, mode: Mode, data: Option<string>, ttl: int, stamp: nat, memory: bool): System {
    var i := FirstFree(s.cache.items, key);
    var id := if i < |s.cache.items| then s.cache.items[i].id else s.cache.nextId;
    var s' := s.(cache := Store(s.cache, key, mode, data, ttl, stamp, memory));
    if data.Some? && memory then s'.(filled := s.filled[id := stamp], used := s.used[id := stamp]) else s'
  }

  function Taken(s: System, key: string, stamp: nat): System {
    var (c, hit) := Take(s.cache, key, stamp);
    if hit.None? then s.(cache := c)
    else s.(cache := c, handles := s.handles + multiset{hit.value.id},
            returned := s.returned[hit.value.id := hit.value.data],
            used := s.used[hit.value.id := stamp])
  }

  function Step(opt: Options, s: System, e: Event): System {
    match e
    case DoPut(key, mode, data, ttl, now, stamp, memory) =>
      if Lifetime(opt, mode, ttl) == 0 || mode == Ignore then Tidied(opt, s, now)
      else Stored(Tidied(opt, s, now), key, mode, data, Lifetime(opt, mode, ttl), stamp, memory)
    case DoGet(key, mode, now, stamp) =>
      if mode == Ignore then s else Taken(Tidied(opt, s, now), key, stamp)
    case DoFlush => s.(cache := Flush(s.cache))
    case DoUnlock(id) => s.(cache := Unlock(s.cache, id), handles := s.handles - multiset{id})
  }

  function Run(opt: Options, s: System, events: seq<Event>): Option<System>
    decreases |events|
  {
    if events == [] then Some(s)
    else if Allowed(s, events[0]) then Run(opt, Step(opt, s, events[0]), events[1..])
    else None
  }

  /** What an item owes to the clients that hold it and to the events that filled it. */
  predicate ItemOk(s: System, it: Item) {
    && it.id < s.cache.nextId
    && it.lockcount == s.handles[it.id]
    && (it.lockcount > 0 ==> it.id in s.returned && it.pw == Some(s.returned[it.id]))
    && (it.pw.Some? ==>
          && it.id in s.filled && it.created == s.filled[it.id]
          && it.id in s.used && (it.accessed == s.used[it.id] || it.accessed == 0))
  }

  predicate Distinct(items: seq<Item>) {
    forall i, j | 0 <= i < j < |items| :: items[i].id != items[j].id
  }

  predicate Has(items: seq<Item>, id: nat) {
    exists i :: 0 <= i < |items| && items[i].id == id
  }

  ghost predicate Inv(s: System) {
    && Distinct(s.cache.items)
    && (forall i | 0 <= i < |s.cache.items| :: ItemOk(s, s.cache.items[i]))
    && (forall id | id in s.handles :: Has(s.cache.items, id))
  }

  // ---------------------------------------------------------------------------------
  // Handle safety.

  /** How an item can look after housekeeping: data is kept whole or dropped, and what is
      locked and filled is not touched at all. */
  predicate Tended(now: Item, was: Item) {
    && now.id == was.id && now.lockcount == was.lockcount && now.key == was.key
    && (now.pw.Some? ==> now == was)
    && (was.lockcount > 0 && was.pw.Some? ==> now == was)
  }

  /** Every item after housekeeping comes from an item before it. */
  lemma {:induction false} HousekeepFrom(opt: Options, items: seq<Item>, now: int, i: nat) returns (j: nat)
    requires i < |Housekeep(opt, items, now)|
    ensures j < |items| && Tended(Housekeep(opt, items, now)[i], items[j])
  {
    var here := Tend(opt, items[0], now);
    if i < |here| {
      j := 0;
    } else {
      var k := HousekeepFrom(opt, items[1..], now, i - |here|);
      j := k + 1;
    }
  }

  lemma {:induction false} HousekeepDistinct(opt: Options, items: seq<Item>, now: int)
    requires Distinct(items)
    ensures Distinct(Housekeep(opt, items, now))
  {
    if items != [] {
      var here, rest := Tend(opt, items[0], now), Housekeep(opt, items[1..], now);
      assert Distinct(items[1..]);
      HousekeepDistinct(opt, items[1..], now);
      forall i | 0 <= i < |rest| ensures rest[i].id != items[0].id {
        var j := HousekeepFrom(opt, items[1..], now, i);
        assert items[1..][j] == items[j + 1];
      }
    }
  }

  /** An item with data that is locked, or not expired, survives housekeeping unchanged. */
  lemma {:induction false} HousekeepKeeps(opt: Options, items: seq<Item>, now: int, i: nat)
    requires i < |items| && items[i].pw.Some? && !IdleExpired(items[i], now) && !AgeExpired(opt, items[i], now)
    ensures items[i] in Housekeep(opt, items, now)
  {
    if i > 0 {
      HousekeepKeeps(opt, items[1..], now, i - 1);
    }
  }

  lemma HousekeepInv(opt: Options, s: System, now: int)
    requires Inv(s)
    ensures Inv(Tidied(opt, s, now))
  {
    var items, s' := s.cache.items, Tidied(opt, s, now);
    var swept := s'.cache.items;
    HousekeepDistinct(opt, items, now);
    forall i | 0 <= i < |swept| ensures ItemOk(s', swept[i]) {
      var j := HousekeepFrom(opt, items, now, i);
      assert ItemOk(s, items[j]);
    }
    forall id | id in s.handles ensures Has(swept, id) {
      var i :| 0 <= i < |items| && items[i].id == id;
      assert ItemOk(s, items[i]);
      HousekeepKeeps(opt, items, now, i);
      var k :| 0 <= k < |swept| && swept[k] == items[i];
    }
  }

  /** The two systems say the same about every handle but `id`. */
  ghost predicate SameElsewhere(s: System, s': System, id: nat) {
    && s'.cache.nextId >= s.cache.nextId
    && (forall x: nat | x != id :: s'.handles[x] == s.handles[x])
    && (forall x | x != id && x in s.returned :: x in s'.returned && s'.returned[x] == s.returned[x])
    && (forall x | x != id && x in s.filled :: x in s'.filled && s'.filled[x] == s.filled[x])
    && (forall x | x != id && x in s.used :: x in s'.used && s'.used[x] == s.used[x])
  }

  lemma UpdateInv(s: System, s': System, i: nat, it: Item)
    requires Inv(s) && i < |s.cache.items| && it.id == s.cache.items[i].id
    requires s'.cache.items == s.cache.items[i := it]
    requires SameElsewhere(s, s', it.id) && ItemOk(s', it)
    ensures Inv(s')
  {
    var items, items' := s.cache.items, s'.cache.items;
    forall k | 0 <= k < |items'| ensures ItemOk(s', items'[k]) {
      if k != i {
        assert items'[k] == items[k] && ItemOk(s, items[k]);
      }
    }
    forall id | id in s'.handles ensures Has(items', id) {
      if id == it.id {
        assert items'[i].id == id;
      } else {
        assert s.handles[id] == s'.handles[id];
        var k :| 0 <= k < |items| && items[k].id == id;
        assert items'[k].id == id;
      }
    }
  }

  lemma FlushedItemOk(s: System, s': System, it: Item)
    requires s' == s.(cache := Flush(s.cache)) && ItemOk(s, it)
    ensures ItemOk(s', FlushItem(it)) && FlushItem(it).id == it.id
  {
  }

  lemma FlushInv(opt: Options, s: System)
    requires Inv(s)
    ensures Inv(Step(opt, s, DoFlush))
  {
    var s' := Step(opt, s, DoFlush);
    var items, items' := s.cache.items, s'.cache.items;
    assert |items'| == |items|;
    forall i | 0 <= i < |items| ensures ItemOk(s', items'[i]) && items'[i].id == items[i].id {
      assert ItemOk(s, items[i]) && items'[i] == FlushItem(items[i]);
      FlushedItemOk(s, s', items[i]);
    }
    forall id | id in s'.handles ensures Has(items', id) {
      var k :| 0 <= k < |items| && items[k].id == id;
      assert items'[k].id == id;
    }
  }

  lemma StoreInv(s: System, key: string, mode: Mode, data: Option<string>, ttl: int, stamp: nat, memory: bool)
    requires Inv(s)
    ensures Inv(Stored(s, key, mode, data, ttl, stamp, memory))
  {
    var s' := Stored(s, key, mode, data, ttl, stamp, memory);
    var i := FirstFree(s.cache.items, key);
    if i < |s.cache.items| {
      assert ItemOk(s, s.cache.items[i]);
      UpdateInv(s, s', i, s'.cache.items[i]);
    } else if data.Some? && memory {
      InsertInv(s, s', s'.cache.items[0]);
    }
  }

  lemma HandlesBelow(s: System, id: nat)
    requires Inv(s) && id in s.handles
    ensures id < s.cache.nextId
  {
    var k :| 0 <= k < |s.cache.items| && s.cache.items[k].id == id;
    assert ItemOk(s, s.cache.items[k]);
  }

  lemma InsertInv(s: System, s': System, it: Item)
    requires Inv(s) && it.id == s.cache.nextId && it.lockcount == 0
    requires s'.cache.items == [it] + s.cache.items && s'.cache.nextId == s.cache.nextId + 1
    requires SameElsewhere(s, s', it.id) && s'.handles == s.handles
    requires it.id in s'.filled && it.created == s'.filled[it.id] && it.id in s'.used && it.accessed == s'.used[it.id]
    ensures Inv(s')
  {
    var items, items' := s.cache.items, s'.cache.items;
    if it.id in s.handles {
      HandlesBelow(s, it.id);
    }
    forall k | 0 <= k < |items'| ensures ItemOk(s', items'[k]) && (k > 0 ==> items'[k].id != it.id) {
      if k > 0 {
        assert items'[k] == items[k - 1] && ItemOk(s, items[k - 1]);
      }
    }
    forall id | id in s'.handles ensures Has(items', id) {
      var k :| 0 <= k < |items| && items[k].id == id;
      assert items'[k + 1].id == id;
    }
  }

  lemma TakeInv(s: System, key: string, stamp: nat)
    requires Inv(s)
    ensures Inv(Taken(s, key, stamp))
  {
    var j, s' := HitIndex(s.cache.items, key), Taken(s, key, stamp);
    if j < |s.cache.items| {
      assert ItemOk(s, s.cache.items[j]);
      UpdateInv(s, s', j, s'.cache.items[j]);
    }
  }

  lemma UnlockInv(opt: Options, s: System, id: nat)
    requires Inv(s) && id in s.handles
    ensures Inv(Step(opt, s, DoUnlock(id)))
  {
    var items := s.cache.items;
    assert Has(items, id);
    var i := Find(items, (it: Item) => it.id == id);
    assert ItemOk(s, items[i]);
    UpdateInv(s, Step(opt, s, DoUnlock(id)), i, items[i].(lockcount := items[i].lockcount - 1));
  }

  lemma PutInv(opt: Options, s: System, e: Event)
    requires Inv(s) && Allowed(s, e) && e.DoPut?
    ensures Inv(Step(opt, s, e))
  {
    HousekeepInv(opt, s, e.now);
    StoreInv(Tidied(opt, s, e.now), e.key, e.mode, e.data, Lifetime(opt, e.mode, e.ttl), e.stamp, e.memory);
  }

  lemma GetInv(opt: Options, s: System, e: Event)
    requires Inv(s) && Allowed(s, e) && e.DoGet?
    ensures Inv(Step(opt, s, e))
  {
    HousekeepInv(opt, s, e.now);
    TakeInv(Tidied(opt, s, e.now), e.key, e.stamp);
  }

  lemma StepInv(opt: Options, s: System, e: Event)
    requires Inv(s) && Allowed(s, e)
    ensures Inv(Step(opt, s, e))
  {
    match e {
      case DoPut(_, _, _, _, _, _, _) => PutInv(opt, s, e);
      case DoGet(_, _, _, _) => GetInv(opt, s, e);
      case DoFlush => FlushInv(opt, s);
      case DoUnlock(id) => UnlockInv(opt, s, id);
    }
  }

  /** The cache part of a step is exactly what the operation does. */
  lemma StepIsOperation(opt: Options, s: System, e: Event)
    ensures Step(opt, s, e).cache ==
              match e
              case DoPut(key, mode, data, ttl, now, stamp, memory) => Put(opt, s.cache, key, mode, data, ttl, now, stamp, memory)
              case DoGet(key, mode, now, stamp) => Get(opt, s.cache, key, mode, now, stamp).0
              case DoFlush => Flush(s.cache)
              case DoUnlock(id) => Unlock(s.cache, id)
  {
  }

  /** In every run each lock count is the number of handles held, and a held item is in the
      list with the data its holders were given. */
  lemma {:induction false} HandleSafety(opt: Options, s: System, events: seq<Event>)
    requires Inv(s) && Run(opt, s, events).Some?
    ensures Inv(Run(opt, s, events).value)
    decreases |events|
  {
    if events != [] {
      StepInv(opt, s, events[0]);
      HandleSafety(opt, Step(opt, s, events[0]), events[1..]);
    }
  }

  /** While a handle is held, its data does not change: not by other hits either. */
  lemma HeldDataIsStable(opt: Options, s: System, e: Event, id: nat)
    requires Inv(s) && Allowed(s, e) && id in s.handles
    ensures id in s.returned && id in Step(opt, s, e).returned
    ensures Step(opt, s, e).returned[id] == s.returned[id]
  {
    var k :| 0 <= k < |s.cache.items| && s.cache.items[k].id == id;
    assert ItemOk(s, s.cache.items[k]);
    if e.DoGet? && e.mode != Ignore {
      HousekeepInv(opt, s, e.now);
      var t := Tidied(opt, s, e.now);
      var j := HitIndex(t.cache.items, e.key);
      if j < |t.cache.items| {
        assert ItemOk(t, t.cache.items[j]);
      }
    }
  }

  // ---------------------------------------------------------------------------------
  // Freshness.

  /** After housekeeping, unlocked data is neither idle for too long nor too old. */
  lemma TidyIsFresh(opt: Options, items: seq<Item>, now: int, i: nat)
    requires i < |Housekeep(opt, items, now)|
    ensures var it := Housekeep(opt, items, now)[i];
            it.lockcount == 0 && it.pw.Some? ==>
              (it.ttl < 0 || now <= it.accessed + it.ttl) && now <= it.created + MaxAge(opt, it.mode)
  {
    var here := Tend(opt, items[0], now);
    if i >= |here| {
      TidyIsFresh(opt, items[1..], now, i - |here|);
    }
  }

  /** In every run, a hit on an unlocked item returns data that was put no longer ago than
      the maximum age and used no longer ago than its idle lifetime. */
  lemma HitIsFresh(opt: Options, events: seq<Event>, key: string, mode: Mode, now: int, stamp: int)
    requires Run(opt, Start, events).Some?
    ensures var s := Run(opt, Start, events).value;
            var items := Housekeep(opt, s.cache.items, now);
            var i := FirstFreeHit(items, key);
            mode != Ignore && i < |items| ==>
              var id := items[i].id;
              && Get(opt, s.cache, key, mode, now, stamp).1 == Some(Hit(id, items[i].pw.value))
              && id in s.filled && now <= s.filled[id] + MaxAge(opt, items[i].mode)
              && id in s.used && (items[i].ttl >= 0 ==> now <= s.used[id] + items[i].ttl)
  {
    assert Inv(Start);
    HandleSafety(opt, Start, events);
    var s := Run(opt, Start, events).value;
    HousekeepInv(opt, s, now);
    var items := Housekeep(opt, s.cache.items, now);
    var i := FirstFreeHit(items, key);
    if i < |items| {
      TidyIsFresh(opt, s.cache.items, now, i);
      assert ItemOk(Tidied(opt, s, now), items[i]);
    }
  }

  /** `it` is the first unlocked item of its key. */
  predicate Leads(items: seq<Item>, it: Item) {
    it.lockcount == 0 && items != [] && (items[0] == it || (!Free(items[0], it.key) && Leads(items[1..], it)))
  }

  lemma {:induction false} LeadsIsFirst(items: seq<Item>, it: Item)
    requires Leads(items, it) && it.pw.Some?
    ensures FirstFreeHit(items, it.key) < |items| && items[FirstFreeHit(items, it.key)] == it
  {
    if items[0] != it {
      LeadsIsFirst(items[1..], it);
    }
  }

  /** The item has data that is not due to expire at `now`. */
  predicate Current(opt: Options, it: Item, now: int) {
    it.pw.Some? && !IdleExpired(it, now) && !AgeExpired(opt, it, now)
  }

  lemma {:induction false} TidyKeepsLead(opt: Options, items: seq<Item>, it: Item, now: int)
    requires Leads(items, it) && Current(opt, it, now)
    ensures Leads(Housekeep(opt, items, now), it)
  {
    var here, rest := Tend(opt, items[0], now), Housekeep(opt, items[1..], now);
    if items[0] == it {
      assert here == [it];
    } else {
      TidyKeepsLead(opt, items[1..], it, now);
      if here == [] {
        assert here + rest == rest;
      } else {
        assert !Free(here[0], it.key);
        assert (here + rest)[1..] == rest;
      }
    }
  }

  /** Changing an item of another key does not matter. */
  lemma {:induction false} UpdateKeepsLead(items: seq<Item>, it: Item, i: nat, other: Item)
    requires Leads(items, it) && i < |items| && items[i].key != it.key && other.key == items[i].key
    ensures Leads(items[i := other], it)
  {
    if items[0] != it {
      if i == 0 {
        assert items[i := other][1..] == items[1..];
      } else {
        assert items[i := other][1..] == items[1..][i - 1 := other];
        UpdateKeepsLead(items[1..], it, i - 1, other);
      }
    } else if i > 0 {
      assert items[i := other][0] == it;
    }
  }

  /** A put that fills an item makes that item lead. */
  lemma {:induction false} StoreLeads(c: Cache, key: string, mode: Mode, data: string, ttl: int, stamp: int)
    ensures var c' := Store(c, key, mode, Some(data), ttl, stamp, true);
            exists id :: Leads(c'.items, Item(id, stamp, stamp, ttl, 0, Some(data), mode, key))
  {
    var c' := Store(c, key, mode, Some(data), ttl, stamp, true);
    var i := FirstFree(c.items, key);
    if i < |c.items| {
      FirstLeads(c'.items, i);
    } else {
      assert Leads(c'.items, c'.items[0]);
    }
  }

  lemma {:induction false} FirstLeads(items: seq<Item>, i: nat)
    requires i < |items| && items[i].lockcount == 0
    requires forall j | 0 <= j < i :: !Free(items[j], items[i].key)
    ensures Leads(items, items[i])
  {
    if i > 0 {
      assert !Free(items[0], items[i].key);
      FirstLeads(items[1..], i - 1);
    }
  }

  /** An event that leaves `key` alone and happens while the item is current. */
  predicate Elsewhere(opt: Options, s: System, e: Event, it: Item) {
    match e
    case DoPut(key, _, _, _, now, _, _) => key != it.key && Current(opt, it, now)
    case DoGet(key, _, now, _) => key != it.key && Current(opt, it, now)
    case DoFlush => false
    case DoUnlock(id) => forall i | 0 <= i < |s.cache.items| && s.cache.items[i].id == id :: s.cache.items[i].key != it.key
  }

  lemma StoreKeepsLead(c: Cache, key: string, mode: Mode, data: Option<string>, ttl: int, stamp: int, memory: bool, it: Item)
    requires Leads(c.items, it) && key != it.key
    ensures Leads(Store(c, key, mode, data, ttl, stamp, memory).items, it)
  {
    var items' := Store(c, key, mode, data, ttl, stamp, memory).items;
    var i := FirstFree(c.items, key);
    if i < |c.items| {
      UpdateKeepsLead(c.items, it, i, items'[i]);
    } else if data.Some? && memory {
      assert items'[1..] == c.items;
    }
  }

  lemma TakeKeepsLead(c: Cache, key: string, stamp: int, it: Item)
    requires Leads(c.items, it) && key != it.key
    ensures Leads(Take(c, key, stamp).0.items, it)
  {
    var j := HitIndex(c.items, key);
    if j < |c.items| {
      UpdateKeepsLead(c.items, it, j, Take(c, key, stamp).0.items[j]);
    }
  }

  lemma UnlockKeepsLead(c: Cache, id: nat, it: Item)
    requires Leads(c.items, it)
    requires forall i | 0 <= i < |c.items| && c.items[i].id == id :: c.items[i].key != it.key
    ensures Leads(Unlock(c, id).items, it)
  {
    var i := Find(c.items, (x: Item) => x.id == id);
    if i < |c.items| && c.items[i].lockcount > 0 {
      UpdateKeepsLead(c.items, it, i, Unlock(c, id).items[i]);
    }
  }

  lemma StepKeepsLead(opt: Options, s: System, e: Event, it: Item)
    requires Leads(s.cache.items, it) && Elsewhere(opt, s, e, it)
    ensures Leads(Step(opt, s, e).cache.items, it)
  {
    match e {
      case DoPut(key, mode, data, ttl, now, stamp, memory) =>
        TidyKeepsLead(opt, s.cache.items, it, now);
        StoreKeepsLead(Tidy(opt, s.cache, now), key, mode, data, Lifetime(opt, mode, ttl), stamp, memory, it);
      case DoGet(key, mode, now, stamp) =>
        TidyKeepsLead(opt, s.cache.items, it, now);
        TakeKeepsLead(Tidy(opt, s.cache, now), key, stamp, it);
      case DoUnlock(id) =>
        UnlockKeepsLead(s.cache, id, it);
    }
  }

  ghost predicate AllElsewhere(opt: Options, s: System, events: seq<Event>, it: Item)
    decreases |events|
  {
    events == [] ||
    (Elsewhere(opt, s, events[0], it) && AllElsewhere(opt, Step(opt, s, events[0]), events[1..], it))
  }

  lemma {:induction false} RunKeepsLead(opt: Options, s: System, events: seq<Event>, it: Item)
    requires Leads(s.cache.items, it) && AllElsewhere(opt, s, events, it) && Run(opt, s, events).Some?
    ensures Leads(Run(opt, s, events).value.cache.items, it)
    decreases |events|
  {
    if events != [] {
      StepKeepsLead(opt, s, events[0], it);
      RunKeepsLead(opt, Step(opt, s, events[0]), events[1..], it);
    }
  }

  /** After a successful put the item that was filled leads. */
  lemma PutLeads(opt: Options, s: System, put: Event) returns (it: Item)
    requires put.DoPut? && put.data.Some? && put.memory && put.mode != Ignore && Lifetime(opt, put.mode, put.ttl) != 0
    ensures it.key == put.key && it.pw == put.data && it.created == it.accessed == put.stamp && it.lockcount == 0
    ensures it.ttl == Lifetime(opt, put.mode, put.ttl) && it.mode == put.mode
    ensures Leads(Step(opt, s, put).cache.items, it)
  {
    var ttl := Lifetime(opt, put.mode, put.ttl);
    StoreLeads(Tidy(opt, s.cache, put.now), put.key, put.mode, put.data.value, ttl, put.stamp);
    var items := Step(opt, s, put).cache.items;
    var id :| Leads(items, Item(id, put.stamp, put.stamp, ttl, 0, put.data, put.mode, put.key));
    it := Item(id, put.stamp, put.stamp, ttl, 0, put.data, put.mode, put.key);
  }

  /** A put followed by any events on other keys and a get of the key before expiry returns
      the data just put, also when older items of the key are still locked. */
  lemma GetReturnsPut(opt: Options, s: System, put: Event, between: seq<Event>, mode: Mode, now: int, stamp: int)
      returns (it: Item)
    requires put.DoPut? && put.data.Some? && put.memory && put.mode != Ignore && mode != Ignore
    requires Lifetime(opt, put.mode, put.ttl) != 0
    ensures it.key == put.key && it.pw == put.data && it.created == it.accessed == put.stamp && it.lockcount == 0
    ensures it.ttl == Lifetime(opt, put.mode, put.ttl) && it.mode == put.mode
    ensures var s1 := Step(opt, s, put);
            AllElsewhere(opt, s1, between, it) && Run(opt, s1, between).Some? && Current(opt, it, now) ==>
              Get(opt, Run(opt, s1, between).value.cache, put.key, mode, now, stamp).1 == Some(Hit(it.id, put.data.value))
  {
    var s1 := Step(opt, s, put);
    it := PutLeads(opt, s, put);
    if AllElsewhere(opt, s1, between, it) && Run(opt, s1, between).Some? && Current(opt, it, now) {
      RunKeepsLead(opt, s1, between, it);
      var items := Run(opt, s1, between).value.cache.items;
      TidyKeepsLead(opt, items, it, now);
      LeadsIsFirst(Housekeep(opt, items, now), it);
    }
  }

  // ---------------------------------------------------------------------------------
  // What does not hold, and when.

  /** A flush does not hide data that is locked at that moment: right after it a get of the
      key hits exactly when some item of the key is locked and filled. */
  lemma FlushHidesUnlocked(opt: Options, c: Cache, key: string, mode: Mode, now: int, stamp: int)
    requires mode != Ignore
    ensures Get(opt, Flush(c), key, mode, now, stamp).1.Some? <==>
              exists i :: 0 <= i < |c.items| && AnyHit(c.items[i], key) && c.items[i].lockcount > 0
  {
    var flushed := Flush(c).items;
    var items := Housekeep(opt, flushed, now);
    var j := HitIndex(items, key);
    if j < |items| {
      var k := HousekeepFrom(opt, flushed, now, j);
      assert flushed[k] == FlushItem(c.items[k]);
      assert AnyHit(c.items[k], key) && c.items[k].lockcount > 0;
    }
    if i :| 0 <= i < |c.items| && AnyHit(c.items[i], key) && c.items[i].lockcount > 0 {
      assert flushed[i] == FlushItem(c.items[i]);
      HousekeepKeeps(opt, flushed, now, i);
      var k :| 0 <= k < |items| && items[k] == flushed[i];
      assert AnyHit(items[k], key);
    }
  }

  /** A get at `now` can return the item without looking at locked ones. */
  predicate Live(opt: Options, it: Item, key: string, now: int) {
    FreeHit(it, key) && Current(opt, it, now)
  }

  /** The first such item. */
  function FirstLive(opt: Options, items: seq<Item>, key: string, now: int): (i: nat)
    ensures i <= |items| && (i < |items| ==> Live(opt, items[i], key, now))
    ensures forall j | 0 <= j < i :: !Live(opt, items[j], key, now)
  {
    if items == [] || Live(opt, items[0], key, now) then 0 else 1 + FirstLive(opt, items[1..], key, now)
  }

  lemma TendLive(opt: Options, it: Item, key: string, now: int)
    ensures Live(opt, it, key, now) ==> Tend(opt, it, now) == [it]
    ensures !Live(opt, it, key, now) ==>
              Tend(opt, it, now) == [] || (|Tend(opt, it, now)| == 1 && !FreeHit(Tend(opt, it, now)[0], key))
  {
  }

  lemma HitBehind(here: Item, rest: seq<Item>, key: string)
    ensures FirstFreeHit([here] + rest, key) == if FreeHit(here, key) then 0 else 1 + FirstFreeHit(rest, key)
  {
    assert ([here] + rest)[1..] == rest;
  }

  /** Housekeeping leaves as the first unlocked hit the first one that has not expired. */
  lemma {:induction false} TidyFindsLive(opt: Options, items: seq<Item>, key: string, now: int)
    requires FirstLive(opt, items, key, now) < |items|
    ensures var tidy := Housekeep(opt, items, now); var i := FirstFreeHit(tidy, key);
            i < |tidy| && tidy[i] == items[FirstLive(opt, items, key, now)]
  {
    var here, rest := Tend(opt, items[0], now), Housekeep(opt, items[1..], now);
    TendLive(opt, items[0], key, now);
    if Live(opt, items[0], key, now) {
      HitBehind(items[0], rest, key);
    } else {
      TidyFindsLive(opt, items[1..], key, now);
      if here == [] {
        assert here + rest == rest;
      } else {
        assert here == [here[0]];
        HitBehind(here[0], rest, key);
      }
    }
  }

  lemma GetFindsLive(opt: Options, c: Cache, key: string, mode: Mode, now: int, stamp: int)
    requires mode != Ignore && FirstLive(opt, c.items, key, now) < |c.items|
    ensures var it := c.items[FirstLive(opt, c.items, key, now)];
            Get(opt, c, key, mode, now, stamp).1 == Some(Hit(it.id, it.pw.value))
  {
    TidyFindsLive(opt, c.items, key, now);
  }

  /** In every state, a get returns the data of an unlocked item that has not expired exactly if
      no other such item of the key stands in front of it. */
  lemma GetDecides(opt: Options, c: Cache, j: nat, mode: Mode, now: int, stamp: int)
    requires Distinct(c.items) && mode != Ignore && j < |c.items| && Live(opt, c.items[j], c.items[j].key, now)
    ensures var it := c.items[j];
            (Get(opt, c, it.key, mode, now, stamp).1 == Some(Hit(it.id, it.pw.value))) <==>
              forall i | 0 <= i < j :: !Live(opt, c.items[i], it.key, now)
  {
    var k := FirstLive(opt, c.items, c.items[j].key, now);
    GetFindsLive(opt, c, c.items[j].key, mode, now, stamp);
    if k < j {
      assert c.items[k].id != c.items[j].id;
    }
  }

  /** Giving back handle `id` uncovers older data: it is the last handle to an item of the key that
      stands in front of the leading item, and whose data has not expired. */
  predicate Uncovers(opt: Options, items: seq<Item>, id: nat, j: nat, now: int)
    requires j < |items|
  {
    exists i :: 0 <= i < j && items[i].id == id && items[i].lockcount == 1
             && items[i].key == items[j].key && Current(opt, items[i].(lockcount := 0), now)
  }

  lemma {:induction false} LeadIndex(items: seq<Item>, it: Item) returns (j: nat)
    requires Leads(items, it)
    ensures j < |items| && items[j] == it && forall i | 0 <= i < j :: !Free(items[i], it.key)
  {
    if items[0] == it {
      j := 0;
    } else {
      j := LeadIndex(items[1..], it);
      j := j + 1;
      assert forall i | 1 <= i < j :: items[i] == items[1..][i - 1];
    }
  }

  /** After a release, some item in front of the leading one is live exactly if the release has
      uncovered it. */
  lemma ReleasedLive(opt: Options, c: Cache, id: nat, j: nat, now: int)
    requires Distinct(c.items) && j < |c.items| && c.items[j].lockcount == 0
    requires forall i | 0 <= i < j :: !Free(c.items[i], c.items[j].key)
    ensures var after := Unlock(c, id).items;
            && |after| == |c.items| && after[j] == c.items[j] && Distinct(after)
            && (Uncovers(opt, c.items, id, j, now) <==> exists i :: 0 <= i < j && Live(opt, after[i], c.items[j].key, now))
  {
    var k, after := Find(c.items, (it: Item) => it.id == id), Unlock(c, id).items;
    if Uncovers(opt, c.items, id, j, now) {
      var i :| 0 <= i < j && c.items[i].id == id && c.items[i].lockcount == 1
            && c.items[i].key == c.items[j].key && Current(opt, c.items[i].(lockcount := 0), now);
      assert i == k;
      assert Live(opt, after[i], c.items[j].key, now);
    }
    forall i | 0 <= i < j && Live(opt, after[i], c.items[j].key, now) ensures Uncovers(opt, c.items, id, j, now) {
      assert !Free(c.items[i], c.items[j].key);
      assert i == k;
    }
  }

  lemma ReleaseAtLead(opt: Options, c: Cache, it: Item, id: nat, mode: Mode, now: int, stamp: int) returns (j: nat)
    requires Distinct(c.items) && Leads(c.items, it) && mode != Ignore && Current(opt, it, now)
    ensures j < |c.items| && c.items[j] == it
    ensures Get(opt, Unlock(c, id), it.key, mode, now, stamp).1 == Some(Hit(it.id, it.pw.value)) <==>
              !Uncovers(opt, c.items, id, j, now)
  {
    j := LeadIndex(c.items, it);
    ReleasedLive(opt, c, id, j, now);
    GetDecides(opt, Unlock(c, id), j, mode, now, stamp);
  }

  /** A put stays in force until a handle is given back, and from then on exactly if this does not
      uncover older data. */
  lemma ReleaseDecides(opt: Options, s: System, put: Event, between: seq<Event>, id: nat, mode: Mode, now: int, stamp: int)
      returns (it: Item, j: nat)
    requires Inv(s) && put.DoPut? && put.data.Some? && put.memory && put.mode != Ignore && mode != Ignore
    requires Lifetime(opt, put.mode, put.ttl) != 0
    ensures it.key == put.key && it.pw == put.data && it.created == it.accessed == put.stamp && it.lockcount == 0
    ensures it.ttl == Lifetime(opt, put.mode, put.ttl) && it.mode == put.mode
    ensures var s1 := Step(opt, s, put);
            AllElsewhere(opt, s1, between, it) && Run(opt, s1, between).Some? && Current(opt, it, now) ==>
              var c := Run(opt, s1, between).value.cache;
              && j < |c.items| && c.items[j] == it
              && (Get(opt, Unlock(c, id), put.key, mode, now, stamp).1 == Some(Hit(it.id, put.data.value)) <==>
                    !Uncovers(opt, c.items, id, j, now))
  {
    var s1 := Step(opt, s, put);
    it := PutLeads(opt, s, put);
    j := 0;
    if AllElsewhere(opt, s1, between, it) && Run(opt, s1, between).Some? && Current(opt, it, now) {
      RunKeepsLead(opt, s1, between, it);
      StepInv(opt, s, put);
      HandleSafety(opt, s1, between);
      j := ReleaseAtLead(opt, Run(opt, s1, between).value.cache, it, id, mode, now, stamp);
    }
  }

  /** Nothing to do: housekeeping leaves a list of current items alone. */
  lemma {:induction false} TidyCurrent(opt: Options, items: seq<Item>, now: int)
    requires forall i | 0 <= i < |items| :: Current(opt, items[i], now)
    ensures Housekeep(opt, items, now) == items
  {
    if items != [] {
      TidyCurrent(opt, items[1..], now);
    }
  }

  function Sample(id: nat, data: string, lockcount: nat): Item {
    Item(id, 1, 1, 60, lockcount, Some(data), Normal, "k")
  }

  lemma FindIs(items: seq<Item>, p: Item -> bool, i: nat)
    requires i <= |items| && (i < |items| ==> p(items[i])) && forall j | 0 <= j < i :: !p(items[j])
    ensures Find(items, p) == i
  {
  }

  function PutK(opt: Options, c: Cache, data: string): Cache {
    Put(opt, c, "k", Normal, Some(data), 60, 1, 1, true)
  }

  function GetK(opt: Options, c: Cache): (Cache, Option<Hit>) {
    Get(opt, c, "k", Normal, 1, 1)
  }

  lemma PutSamples(opt: Options, c: Cache, data: string, i: nat)
    requires opt.maxTtl >= 100 && i <= |c.items|
    requires forall j | 0 <= j < |c.items| :: Current(opt, c.items[j], 1)
    requires i < |c.items| ==> c.items[i] == Sample(c.items[i].id, "a", 0)
    requires forall j | 0 <= j < i :: !Free(c.items[j], "k")
    ensures PutK(opt, c, data) ==
              if i < |c.items| then c.(items := c.items[i := Sample(c.items[i].id, data, 0)])
              else Cache([Sample(c.nextId, data, 0)] + c.items, c.nextId + 1)
  {
    TidyCurrent(opt, c.items, 1);
    FindIs(c.items, (it: Item) => Free(it, "k"), i);
  }

  lemma GetSample(opt: Options, c: Cache, id: nat, data: string)
    requires opt.maxTtl >= 100 && c.items != [] && c.items[0] == Sample(id, data, 0)
    requires forall j | 0 <= j < |c.items| :: Current(opt, c.items[j], 1)
    ensures GetK(opt, c) == (c.(items := c.items[0 := Sample(id, data, 1)]), Some(Hit(id, data)))
  {
    TidyCurrent(opt, c.items, 1);
    FindIs(c.items, (it: Item) => FreeHit(it, "k"), 0);
  }

  /** Putting is not final while handles to older items of the key are out.  Here "b" is
      put into a second item because the first is locked, then locked itself; "c" goes to
      the first item, which is free again; and once "b" is released, a get returns it
      although "c" was put later. */
  lemma ReleaseBringsBackOldData(opt: Options)
    requires opt.maxTtl >= 100
    ensures var locked := GetK(opt, PutK(opt, GetK(opt, PutK(opt, Start.cache, "a")).0, "b")).0;
            var last := Unlock(PutK(opt, Unlock(locked, 0), "c"), 1);
            GetK(opt, last).1 == Some(Hit(1, "b"))
  {
    BothLocked(opt);
    ReleaseBoth(opt);
  }

  lemma UnlockAt(c: Cache, i: nat)
    requires i < |c.items| && c.items[i].lockcount > 0
    requires forall j | 0 <= j < i :: c.items[j].id != c.items[i].id
    ensures Unlock(c, c.items[i].id) == c.(items := c.items[i := c.items[i].(lockcount := c.items[i].lockcount - 1)])
  {
    var id := c.items[i].id;
    FindIs(c.items, (it: Item) => it.id == id, i);
  }

  lemma ReleaseBoth(opt: Options)
    requires opt.maxTtl >= 100
    ensures var last := Unlock(PutK(opt, Unlock(Cache([Sample(1, "b", 1), Sample(0, "a", 1)], 2), 0), "c"), 1);
            GetK(opt, last).1 == Some(Hit(1, "b"))
  {
    var b1, a0, c0 := Sample(1, "b", 1), Sample(0, "a", 0), Sample(0, "c", 0);
    UnlockAt(Cache([b1, Sample(0, "a", 1)], 2), 1);
    assert [b1, Sample(0, "a", 1)][1 := a0] == [b1, a0];
    PutSamples(opt, Cache([b1, a0], 2), "c", 1);
    assert [b1, a0][1 := c0] == [b1, c0];
    UnlockAt(Cache([b1, c0], 2), 0);
    assert [b1, c0][0 := Sample(1, "b", 0)] == [Sample(1, "b", 0), c0];
    GetSample(opt, Cache([Sample(1, "b", 0), c0], 2), 1, "b");
  }

  lemma BothLocked(opt: Options)
    requires opt.maxTtl >= 100
    ensures GetK(opt, PutK(opt, GetK(opt, PutK(opt, Start.cache, "a")).0, "b")).0 ==
              Cache([Sample(1, "b", 1), Sample(0, "a", 1)], 2)
  {
    var a0, a1, b0 := Sample(0, "a", 0), Sample(0, "a", 1), Sample(1, "b", 0);
    PutSamples(opt, Start.cache, "a", 0);
    assert [a0] + [] == [a0];
    GetSample(opt, Cache([a0], 1), 0, "a");
    assert [a0][0 := a1] == [a1];
    PutSamples(opt, Cache([a1], 1), "b", 1);
    assert [b0] + [a1] == [b0, a1];
    GetSample(opt, Cache([b0, a1], 2), 1, "b");
    assert [b0, a1][0 := Sample(1, "b", 1)] == [Sample(1, "b", 1), a1];
  }
}

/** The list in memory and the functions that walk along it. */
module CacheList {
  import opened Wrappers
  import opened Spec = PassphraseCache

  /** The third pass on its own. */
  function SweepAll(items: seq<Item>, now: int): seq<Item> {
    if items == [] then [] else Sweep(items[0], now) + SweepAll(items[1..], now)
  }

  /** Three passes over the list come to one pass over each item. */
  lemma {:induction false} SweepAllIsHousekeep(opt: Options, was: seq<Item>, items: seq<Item>, now: int)
    requires |items| == |was|
    requires forall k | 0 <= k < |items| :: items[k] == ExpireAged(opt, ExpireIdle(was[k], now), now)
    ensures SweepAll(items, now) == Housekeep(opt, was, now)
  {
    if items != [] {
      SweepAllIsHousekeep(opt, was[1..], items[1..], now);
    }
  }

  lemma SweepNext(items: seq<Item>, i: nat, now: int)
    requires i < |items|
    ensures items[..i] + SweepAll(items[i..], now) == (items[..i] + Sweep(items[i], now)) + SweepAll(items[i + 1..], now)
  {
    assert items[i..][1..] == items[i + 1..];
  }

  class AgentCache {
    var items: seq<Item>
    var nextId: nat
    const opt: Options

    ghost function Abs(): Cache
      reads this
    {
      Cache(items, nextId)
    }

    constructor (opt: Options)
      ensures Abs() == Start.cache && this.opt == opt
    {
      this.opt := opt;
      items, nextId := [], 0;
    }

    /** Three walks along the list. */
    method Housekeeping(current: int)
      modifies this`items
      ensures Abs() == Tidy(opt, old(Abs()), current)
    {
      ExpireByAccess(current);
      ExpireByCreation(current);
      SweepAllIsHousekeep(opt, old(items), items, current);
      RemoveUnused(current);
    }

    method ExpireByAccess(current: int)
      modifies this`items
      ensures |items| == |old(items)| && forall k | 0 <= k < |items| :: items[k] == ExpireIdle(old(items)[k], current)
    {
      ghost var was := items;
      var i := 0;
      while i < |items|
        invariant 0 <= i <= |items| == |was|
        invariant forall k | 0 <= k < i :: items[k] == ExpireIdle(was[k], current)
        invariant forall k | i <= k < |items| :: items[k] == was[k]
      {
        var r := items[i];
        if r.lockcount == 0 && r.pw.Some? && r.ttl >= 0 && r.accessed + r.ttl < current {
          items := items[i := r.(pw := None, accessed := current)];
        }
        i := i + 1;
      }
    }

    method ExpireByCreation(current: int)
      modifies this`items
      ensures |items| == |old(items)| && forall k | 0 <= k < |items| :: items[k] == ExpireAged(opt, old(items)[k], current)
    {
      ghost var was := items;
      var i := 0;
      while i < |items|
        invariant 0 <= i <= |items| == |was|
        invariant forall k | 0 <= k < i :: items[k] == ExpireAged(opt, was[k], current)
        invariant forall k | i <= k < |items| :: items[k] == was[k]
      {
        var r := items[i];
        var maxttl := if r.mode == Ssh then opt.maxTtlSsh else opt.maxTtl;
        if r.lockcount == 0 && r.pw.Some? && r.created + maxttl < current {
          items := items[i := r.(pw := None, accessed := current)];
        }
        i := i + 1;
      }
    }

    /** The walk that unlinks items; items[..i] has been passed. */
    method RemoveUnused(current: int)
      modifies this`items
      ensures items == SweepAll(old(items), current)
    {
      var i := 0;
      while i < |items|
        invariant 0 <= i <= |items|
        invariant items[..i] + SweepAll(items[i..], current) == SweepAll(old(items), current)
        decreases |items| - i
      {
        var r := items[i];
        ghost var before := items;
        SweepNext(before, i, current);
        if r.pw.None? && r.ttl >= 0 && r.accessed + 60 * 30 < current {
          if r.lockcount > 0 {
            items := items[i := r.(accessed := r.accessed + 60 * 10)];
            i := i + 1;
            assert items[..i] == before[..i - 1] + Sweep(r, current);
            assert items[i..] == before[i..];
          } else {
            items := items[..i] + items[i + 1..];
            assert items[..i] == before[..i] + Sweep(r, current) && items[i..] == before[i + 1..];
          }
        } else {
          i := i + 1;
          assert items[..i] == before[..i - 1] + Sweep(r, current);
        }
      }
      assert items[..i] == items && items[i..] == [];
    }

    method Flush()
      modifies this`items
      ensures Abs() == Spec.Flush(old(Abs()))
    {
      ghost var was := items;
      var i := 0;
      while i < |items|
        invariant 0 <= i <= |items| == |was|
        invariant forall k | 0 <= k < i :: items[k] == FlushItem(was[k])
        invariant forall k | i <= k < |items| :: items[k] == was[k]
      {
        var r := items[i];
        if r.lockcount == 0 && r.pw.Some? {
          items := items[i := r.(pw := None, accessed := 0)];
        } else if r.lockcount > 0 && r.pw.Some? {
          items := items[i := r.(accessed := 0, ttl := 0)];
        }
        i := i + 1;
      }
    }

    method Put(key: string, mode: Mode, data: Option<string>, ttl: int, now: int, stamp: int, memory: bool)
      modifies this`items, this`nextId
      ensures Abs() == Spec.Put(opt, old(Abs()), key, mode, data, ttl, now, stamp, memory)
    {
      Housekeeping(now);
      var life := ttl;
      if life == 0 {
        life := if mode == Ssh then opt.defTtlSsh else opt.defTtl;
      }
      if life == 0 || mode == Ignore {
        return;
      }
      StoreItem(key, mode, data, life, stamp, memory);
    }

    /** Behind the housekeeping: an unlocked item of the key is replaced, or one is inserted. */
    method StoreItem(key: string, mode: Mode, data: Option<string>, life: int, stamp: int, memory: bool)
      modifies this`items, this`nextId
      ensures Abs() == Store(old(Abs()), key, mode, data, life, stamp, memory)
    {
      var i := 0;
      while i < |items| && !(items[i].lockcount == 0 && items[i].key == key)
        invariant 0 <= i <= |items|
        invariant forall k | 0 <= k < i :: !Free(items[k], key)
      {
        i := i + 1;
      }
      FindIs(items, (it: Item) => Free(it, key), i);
      if i < |items| {
        var r := items[i].(pw := None);
        if data.Some? {
          r := r.(created := stamp, accessed := stamp, ttl := life, mode := mode, pw := if memory then data else None);
        }
        items := items[i := r];
      } else if data.Some? {
        if memory {
          items := [Item(nextId, stamp, stamp, life, 0, data, mode, key)] + items;
          nextId := nextId + 1;
        }
      }
    }

    method Get(key: string, mode: Mode, now: int, stamp: int) returns (hit: Option<Hit>)
      modifies this`items
      ensures (Abs(), hit) == Spec.Get(opt, old(Abs()), key, mode, now, stamp)
    {
      if mode == Ignore {
        return None;
      }
      Housekeeping(now);
      hit := TakeUnlocked(key, stamp);
      if hit.None? {
        hit := TakeAny(key, stamp);
      }
    }

    /** The first walk of a get: entries without a lock are the updated ones. */
    method TakeUnlocked(key: string, stamp: int) returns (hit: Option<Hit>)
      modifies this`items
      ensures var i := FirstFreeHit(old(items), key);
              if i < |old(items)| then (Abs(), hit) == Take(old(Abs()), key, stamp) && hit.Some?
              else items == old(items) && hit.None?
    {
      var i := 0;
      while i < |items|
        invariant 0 <= i <= |items| && items == old(items)
        invariant forall k | 0 <= k < i :: !FreeHit(items[k], key)
      {
        var r := items[i];
        if r.lockcount == 0 && r.pw.Some? && r.key == key {
          FindIs(items, (it: Item) => FreeHit(it, key), i);
          items := items[i := r.(accessed := stamp, lockcount := r.lockcount + 1)];
          return Some(Hit(r.id, r.pw.value));
        }
        i := i + 1;
      }
      FindIs(items, (it: Item) => FreeHit(it, key), |items|);
      hit := None;
    }

    /** The second walk: take even one with a lock. */
    method TakeAny(key: string, stamp: int) returns (hit: Option<Hit>)
      requires FirstFreeHit(items, key) == |items|
      modifies this`items
      ensures (Abs(), hit) == Take(old(Abs()), key, stamp)
    {
      var i := 0;
      while i < |items|
        invariant 0 <= i <= |items| && items == old(items)
        invariant forall k | 0 <= k < i :: !AnyHit(items[k], key)
      {
        var r := items[i];
        if r.pw.Some? && r.key == key {
          FindIs(items, (it: Item) => AnyHit(it, key), i);
          items := items[i := r.(accessed := stamp, lockcount := r.lockcount + 1)];
          return Some(Hit(r.id, r.pw.value));
        }
        i := i + 1;
      }
      FindIs(items, (it: Item) => AnyHit(it, key), |items|);
      hit := None;
    }

    method Unlock(id: nat)
      modifies this`items
      ensures Abs() == Spec.Unlock(old(Abs()), id)
    {
      var i := 0;
      while i < |items|
        invariant 0 <= i <= |items| && unchanged(this)
        invariant forall k | 0 <= k < i :: items[k].id != id
      {
        var r := items[i];
        if r.id == id {
          FindIs(items, (it: Item) => it.id == id, i);
          if r.lockcount > 0 {
            items := items[i := r.(lockcount := r.lockcount - 1)];
          }
          return;
        }
        i := i + 1;
      }
    }
  }
}
