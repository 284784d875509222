/** What the operations of the passphrase cache mean for their callers, in seconds. */
module CacheContract {
  import opened Wrappers
  import opened PassphraseCache

  /** The data of an item is still there at `now`: it is locked, or neither idle for longer than
      its lifetime nor older than the limit for its kind. */
  predicate Lasts(opt: Options, it: Item, now: int) {
    && it.pw.Some?
    && (it.lockcount > 0
        || ((it.ttl < 0 || now <= it.accessed + it.ttl)
            && now <= it.created + (if it.mode == Ssh then opt.maxTtlSsh else opt.maxTtl)))
  }

  /** An empty slot that has not been touched for half an hour. */
  predicate Stale(it: Item, now: int) { it.pw.None? && it.ttl >= 0 && it.accessed + 1800 < now }

  /** The three passes of housekeeping come to this for each item: expired data is wiped, stale
      slots are removed unless they are locked, and everything else stays as it is. */
  lemma TendMeans(opt: Options, it: Item, now: int)
    ensures Tend(opt, it, now) ==
              if it.pw.Some? then if Lasts(opt, it, now) then [it] else [it.(pw := None, accessed := now)]
              else if !Stale(it, now) then [it]
              else if it.lockcount == 0 then [] else [it.(accessed := it.accessed + 600)]
  {
  }

  // ---------------------------------------------------------------------------------
  // Positions before and after housekeeping.

  /** The item leaves the list. */
  predicate Removed(it: Item, now: int) { it.lockcount == 0 && Stale(it, now) }

  /** Where item j has come to: the number of items in front of it that stay. */
  function Place(items: seq<Item>, now: int, j: nat): nat
    requires j <= |items|
  {
    if j == 0 then 0 else (if Removed(items[0], now) then 0 else 1) + Place(items[1..], now, j - 1)
  }

  /** What stays of an item that stays. */
  function Tidied1(opt: Options, it: Item, now: int): Item {
    if it.pw.Some? then if Lasts(opt, it, now) then it else it.(pw := None, accessed := now)
    else if Stale(it, now) then it.(accessed := it.accessed + 600) else it
  }

  lemma {:induction false} PlaceHolds(opt: Options, items: seq<Item>, now: int, j: nat)
    requires j < |items| && !Removed(items[j], now)
    ensures var tidy := Housekeep(opt, items, now);
            Place(items, now, j) < |tidy| && tidy[Place(items, now, j)] == Tidied1(opt, items[j], now)
  {
    TendMeans(opt, items[0], now);
    if j > 0 {
      PlaceHolds(opt, items[1..], now, j - 1);
    }
  }

  lemma {:induction false} PlaceFrom(opt: Options, items: seq<Item>, now: int, i: nat) returns (j: nat)
    requires i < |Housekeep(opt, items, now)|
    ensures j < |items| && !Removed(items[j], now) && Place(items, now, j) == i
  {
    TendMeans(opt, items[0], now);
    if Removed(items[0], now) {
      j := PlaceFrom(opt, items[1..], now, i);
      j := j + 1;
    } else if i == 0 {
      j := 0;
    } else {
      j := PlaceFrom(opt, items[1..], now, i - 1);
      j := j + 1;
    }
  }

  lemma {:induction false} PlaceOrdered(items: seq<Item>, now: int, i: nat, j: nat)
    requires i < j <= |items| && !Removed(items[i], now)
    ensures Place(items, now, i) < Place(items, now, j)
  {
    if i > 0 {
      PlaceOrdered(items[1..], now, i - 1, j - 1);
    } else {
      assert Place(items, now, j) >= 1;
    }
  }

  // ---------------------------------------------------------------------------------
  // A get.

  /** The item can answer a get of the key. */
  predicate Serves(opt: Options, it: Item, key: string, now: int) { it.key == key && Lasts(opt, it, now) }

  ghost predicate SomeServes(opt: Options, items: seq<Item>, key: string, now: int) {
    exists j :: 0 <= j < |items| && Serves(opt, items[j], key, now)
  }

  /** A hit at a place of the tidied list is an item that serves. */
  lemma HitServes(opt: Options, items: seq<Item>, key: string, now: int, i: nat) returns (j: nat)
    requires i < |Housekeep(opt, items, now)| && AnyHit(Housekeep(opt, items, now)[i], key)
    ensures j < |items| && Place(items, now, j) == i && Serves(opt, items[j], key, now)
    ensures Housekeep(opt, items, now)[i] == items[j] && !Removed(items[j], now)
  {
    j := PlaceFrom(opt, items, now, i);
    PlaceHolds(opt, items, now, j);
  }

  /** And an item that serves is a hit at its place. */
  lemma ServesHit(opt: Options, items: seq<Item>, key: string, now: int, j: nat)
    requires j < |items| && Serves(opt, items[j], key, now)
    ensures Place(items, now, j) < |Housekeep(opt, items, now)| && Housekeep(opt, items, now)[Place(items, now, j)] == items[j]
    ensures AnyHit(items[j], key) && !Removed(items[j], now)
  {
    PlaceHolds(opt, items, now, j);
  }

  /** A get hits if and only if an item of the key still has its data.  It returns the first one
      that is not locked, and a locked one only if there is no other; that item is stamped and
      locked once more, and nothing else changes besides housekeeping. */
  lemma GetMeans(opt: Options, c: Cache, key: string, mode: Mode, now: int, stamp: int) returns (i: nat)
    requires mode != Ignore
    ensures Get(opt, c, key, mode, now, stamp).1.Some? <==> SomeServes(opt, c.items, key, now)
    ensures var (c', hit) := Get(opt, c, key, mode, now, stamp);
            if hit.None? then c' == Tidy(opt, c, now)
            else
              && i < |c.items| && Serves(opt, c.items[i], key, now)
              && hit == Some(Hit(c.items[i].id, c.items[i].pw.value))
              && Place(c.items, now, i) < |Housekeep(opt, c.items, now)|
              && c' == c.(items := Housekeep(opt, c.items, now)
                            [Place(c.items, now, i) := c.items[i].(accessed := stamp, lockcount := c.items[i].lockcount + 1)])
              && (forall j | 0 <= j < |c.items| && Serves(opt, c.items[j], key, now) ::
                    if c.items[i].lockcount == 0 then j >= i || c.items[j].lockcount > 0
                    else j >= i && c.items[j].lockcount > 0)
  {
    var items := c.items;
    var tidy := Housekeep(opt, items, now);
    var h := HitIndex(tidy, key);
    i := 0;
    forall j | 0 <= j < |items| && Serves(opt, items[j], key, now) ensures h < |tidy| {
      ServesHit(opt, items, key, now, j);
    }
    if h < |tidy| {
      i := HitServes(opt, items, key, now, h);
      forall j | 0 <= j < |items| && Serves(opt, items[j], key, now)
        ensures if items[i].lockcount == 0 then j >= i || items[j].lockcount > 0 else j >= i && items[j].lockcount > 0
      {
        ServesHit(opt, items, key, now, j);
        if j < i {
          PlaceOrdered(items, now, j, i);
        }
      }
    }
  }

  /** A get in the mode that ignores the cache does nothing at all. */
  lemma IgnoredGet(opt: Options, c: Cache, key: string, now: int, stamp: int)
    ensures Get(opt, c, key, Ignore, now, stamp) == (c, None)
  {
  }

  // ---------------------------------------------------------------------------------
  // A put and a get.

  /** The lifetime of data that is put. */
  function Life(opt: Options, mode: Mode, ttl: int): int {
    if ttl != 0 then ttl else if mode == Ssh then opt.defTtlSsh else opt.defTtl
  }

  /** An item that a put of the key can use again. */
  predicate Slot(it: Item, key: string, now: int) { it.key == key && it.lockcount == 0 && !Removed(it, now) }

  /** The first such item. */
  function FirstSlot(items: seq<Item>, key: string, now: int): (f: nat)
    ensures f <= |items| && (f < |items| ==> Slot(items[f], key, now))
    ensures forall j | 0 <= j < f :: !Slot(items[j], key, now)
  {
    if items == [] || Slot(items[0], key, now) then 0 else 1 + FirstSlot(items[1..], key, now)
  }

  lemma FreeIsSlot(opt: Options, items: seq<Item>, key: string, now: int, i: nat) returns (j: nat)
    requires i < |Housekeep(opt, items, now)| && Free(Housekeep(opt, items, now)[i], key)
    ensures j < |items| && Place(items, now, j) == i && Slot(items[j], key, now)
  {
    j := PlaceFrom(opt, items, now, i);
    PlaceHolds(opt, items, now, j);
  }

  lemma SlotIsFree(opt: Options, items: seq<Item>, key: string, now: int, f: nat)
    requires f < |items| && Slot(items[f], key, now)
    ensures Place(items, now, f) < |Housekeep(opt, items, now)| && Free(Housekeep(opt, items, now)[Place(items, now, f)], key)
  {
    PlaceHolds(opt, items, now, f);
  }

  /** The search of a put stops at the place of that item. */
  lemma SlotFound(opt: Options, items: seq<Item>, key: string, now: int)
    ensures var f, tidy := FirstSlot(items, key, now), Housekeep(opt, items, now);
            if f < |items| then Place(items, now, f) < |tidy| && FirstFree(tidy, key) == Place(items, now, f)
            else FirstFree(tidy, key) == |tidy|
  {
    var f, tidy := FirstSlot(items, key, now), Housekeep(opt, items, now);
    var i := FirstFree(tidy, key);
    if f < |items| {
      SlotIsFree(opt, items, key, now, f);
    }
    if i < |tidy| {
      var j := FreeIsSlot(opt, items, key, now, i);
      if f < j {
        PlaceOrdered(items, now, f, j);
      }
    }
  }

  /** A put with the mode that ignores the cache, or without a lifetime, only tidies up. */
  lemma PutOff(opt: Options, c: Cache, key: string, mode: Mode, data: Option<string>, ttl: int, now: int, stamp: int, memory: bool)
    requires mode == Ignore || Life(opt, mode, ttl) == 0
    ensures Put(opt, c, key, mode, data, ttl, now, stamp, memory) == c.(items := Housekeep(opt, c.items, now))
  {
  }

  /** Without an item to use again, the data goes into a new one in front. */
  lemma PutNew(opt: Options, c: Cache, key: string, mode: Mode, data: Option<string>, ttl: int, now: int, stamp: int, memory: bool)
    requires mode != Ignore && Life(opt, mode, ttl) != 0 && FirstSlot(c.items, key, now) == |c.items|
    ensures var tidy := Housekeep(opt, c.items, now);
            Put(opt, c, key, mode, data, ttl, now, stamp, memory) ==
              if data.Some? && memory then Cache([Item(c.nextId, stamp, stamp, Life(opt, mode, ttl), 0, data, mode, key)] + tidy, c.nextId + 1)
              else c.(items := tidy)
  {
    SlotFound(opt, c.items, key, now);
  }

  /** What a put makes of the item that it uses again. */
  function Refilled(it: Item, key: string, mode: Mode, data: Option<string>, life: int, stamp: int, memory: bool): Item {
    if data.None? then it.(pw := None)
    else Item(it.id, stamp, stamp, life, 0, if memory then data else None, mode, key)
  }

  lemma PutAgain(opt: Options, c: Cache, key: string, mode: Mode, data: Option<string>, ttl: int, now: int, stamp: int, memory: bool,
                 f: nat, p: nat)
    requires mode != Ignore && Life(opt, mode, ttl) != 0 && f == FirstSlot(c.items, key, now) < |c.items| && p == Place(c.items, now, f)
    ensures var tidy := Housekeep(opt, c.items, now);
            && p < |tidy|
            && Put(opt, c, key, mode, data, ttl, now, stamp, memory) ==
                 c.(items := tidy[p := Refilled(tidy[p], key, mode, data, Life(opt, mode, ttl), stamp, memory)])
  {
    SlotFound(opt, c.items, key, now);
    var tidy := Housekeep(opt, c.items, now);
    PlaceHolds(opt, c.items, now, f);
    assert tidy[p].key == key && tidy[p].lockcount == 0;
    StoreAgain(Tidy(opt, c, now), key, mode, data, Life(opt, mode, ttl), stamp, memory, p);
  }

  lemma StoreAgain(c: Cache, key: string, mode: Mode, data: Option<string>, life: int, stamp: int, memory: bool, p: nat)
    requires p == FirstFree(c.items, key) < |c.items|
    ensures Store(c, key, mode, data, life, stamp, memory) ==
              c.(items := c.items[p := if data.None? then c.items[p].(pw := None)
                                       else Item(c.items[p].id, stamp, stamp, life, 0, if memory then data else None, mode, key)])
  {
  }

  /** The item has its data at both times. */
  predicate Remains(opt: Options, it: Item, key: string, now: int, later: int) {
    Serves(opt, it, key, now) && Lasts(opt, it, later)
  }

  /** In the tidied list, but for one place, an item serves later exactly if it remains. */
  lemma RemainsAt(opt: Options, items: seq<Item>, key: string, now: int, later: int, i: nat) returns (j: nat)
    requires i < |Housekeep(opt, items, now)| && Serves(opt, Housekeep(opt, items, now)[i], key, later)
    ensures j < |items| && Place(items, now, j) == i && Remains(opt, items[j], key, now, later)
  {
    j := HitServes(opt, items, key, now, i);
  }

  lemma OthersDiffer(items: seq<Item>, now: int, f: nat, j: nat)
    requires f < |items| && j < |items| && j != f && !Removed(items[f], now) && !Removed(items[j], now)
    ensures Place(items, now, f) != Place(items, now, j)
  {
    if f < j {
      PlaceOrdered(items, now, f, j);
    } else {
      PlaceOrdered(items, now, j, f);
    }
  }

  /** The data that was put is still there. */
  predicate StillFresh(opt: Options, mode: Mode, life: int, stamp: int, later: int) {
    (life < 0 || later <= stamp + life) && later <= stamp + (if mode == Ssh then opt.maxTtlSsh else opt.maxTtl)
  }

  /** Some item but f remains. */
  ghost predicate OtherRemains(opt: Options, items: seq<Item>, f: nat, key: string, now: int, later: int) {
    exists j :: 0 <= j < |items| && j != f && Remains(opt, items[j], key, now, later)
  }

  lemma ServedByOther(opt: Options, items: seq<Item>, f: nat, key: string, now: int, later: int, it: Item)
    requires f < |items| && !Removed(items[f], now)
    ensures Place(items, now, f) < |Housekeep(opt, items, now)|
    ensures var list := Housekeep(opt, items, now)[Place(items, now, f) := it];
            SomeServes(opt, list, key, later) <==>
              Serves(opt, it, key, later) || OtherRemains(opt, items, f, key, now, later)
  {
    PlaceHolds(opt, items, now, f);
    var p, tidy := Place(items, now, f), Housekeep(opt, items, now);
    var list := tidy[p := it];
    if i :| 0 <= i < |list| && Serves(opt, list[i], key, later) && i != p {
      var j := RemainsAt(opt, items, key, now, later, i);
      assert j != f && Remains(opt, items[j], key, now, later);
    }
    if j :| 0 <= j < |items| && j != f && Remains(opt, items[j], key, now, later) {
      ServesHit(opt, items, key, now, j);
      OthersDiffer(items, now, f, j);
      assert Serves(opt, list[Place(items, now, j)], key, later);
    }
    assert list[p] == it;
  }

  lemma ServedByAny(opt: Options, items: seq<Item>, front: seq<Item>, key: string, now: int, later: int)
    requires |front| <= 1
    ensures var list := front + Housekeep(opt, items, now);
            SomeServes(opt, list, key, later) <==>
              (|front| == 1 && Serves(opt, front[0], key, later)) || OtherRemains(opt, items, |items|, key, now, later)
  {
    var tidy := Housekeep(opt, items, now);
    var list := front + tidy;
    if i :| 0 <= i < |list| && Serves(opt, list[i], key, later) && i >= |front| {
      var j := RemainsAt(opt, items, key, now, later, i - |front|);
      assert Remains(opt, items[j], key, now, later);
    }
    if j :| 0 <= j < |items| && Remains(opt, items[j], key, now, later) {
      ServesHit(opt, items, key, now, j);
      assert Serves(opt, list[|front| + Place(items, now, j)], key, later);
    }
    if |front| == 1 {
      assert list[0] == front[0];
    }
  }

  lemma ServedNew(opt: Options, c: Cache, key: string, mode: Mode, data: Option<string>, ttl: int, now: int, stamp: int, memory: bool,
                  getKey: string, later: int)
    requires mode != Ignore && Life(opt, mode, ttl) != 0 && FirstSlot(c.items, key, now) == |c.items|
    ensures SomeServes(opt, Put(opt, c, key, mode, data, ttl, now, stamp, memory).items, getKey, later) <==>
              || (data.Some? && memory && getKey == key && StillFresh(opt, mode, Life(opt, mode, ttl), stamp, later))
              || OtherRemains(opt, c.items, |c.items|, getKey, now, later)
  {
    var tidy, it := Housekeep(opt, c.items, now), Item(c.nextId, stamp, stamp, Life(opt, mode, ttl), 0, data, mode, key);
    PutNew(opt, c, key, mode, data, ttl, now, stamp, memory);
    if data.Some? && memory {
      ServedByAny(opt, c.items, [it], getKey, now, later);
    } else {
      ServedByAny(opt, c.items, [], getKey, now, later);
      assert [] + tidy == tidy;
    }
  }

  lemma ServedAgain(opt: Options, c: Cache, key: string, mode: Mode, data: Option<string>, ttl: int, now: int, stamp: int, memory: bool,
                    getKey: string, later: int, f: nat)
    requires mode != Ignore && Life(opt, mode, ttl) != 0 && f == FirstSlot(c.items, key, now) < |c.items|
    ensures SomeServes(opt, Put(opt, c, key, mode, data, ttl, now, stamp, memory).items, getKey, later) <==>
              || (data.Some? && memory && getKey == key && StillFresh(opt, mode, Life(opt, mode, ttl), stamp, later))
              || OtherRemains(opt, c.items, f, getKey, now, later)
  {
    var p, tidy := Place(c.items, now, f), Housekeep(opt, c.items, now);
    PutAgain(opt, c, key, mode, data, ttl, now, stamp, memory, f, p);
    ServedByOther(opt, c.items, f, getKey, now, later, Refilled(tidy[p], key, mode, data, Life(opt, mode, ttl), stamp, memory));
  }

  /** After any put, a get of any key hits if and only if the data put is still fresh, or some item
      other than the one that the put used had its data at the put and has it at the get.  Without
      data, or without memory for it, nothing is put: the item that was used is empty. */
  lemma PutThenGet(opt: Options, c: Cache, key: string, mode: Mode, data: Option<string>, ttl: int, now: int, stamp: int, memory: bool,
                   getKey: string, getMode: Mode, later: int, last: int)
    requires getMode != Ignore
    ensures var on := mode != Ignore && Life(opt, mode, ttl) != 0;
            Get(opt, Put(opt, c, key, mode, data, ttl, now, stamp, memory), getKey, getMode, later, last).1.Some? <==>
              || (on && data.Some? && memory && getKey == key && StillFresh(opt, mode, Life(opt, mode, ttl), stamp, later))
              || OtherRemains(opt, c.items, if on then FirstSlot(c.items, key, now) else |c.items|, getKey, now, later)
  {
    var _ := GetMeans(opt, Put(opt, c, key, mode, data, ttl, now, stamp, memory), getKey, getMode, later, last);
    var f := FirstSlot(c.items, key, now);
    if mode == Ignore || Life(opt, mode, ttl) == 0 {
      PutOff(opt, c, key, mode, data, ttl, now, stamp, memory);
      ServedByAny(opt, c.items, [], getKey, now, later);
      assert [] + Housekeep(opt, c.items, now) == Housekeep(opt, c.items, now);
    } else if f == |c.items| {
      ServedNew(opt, c, key, mode, data, ttl, now, stamp, memory, getKey, later);
    } else {
      ServedAgain(opt, c, key, mode, data, ttl, now, stamp, memory, getKey, later, f);
    }
  }

  /** So a put of nothing deletes: what a get can still return are other items of the key, those
      with data that is locked or has not expired. */
  lemma PutNothingDeletes(opt: Options, c: Cache, key: string, mode: Mode, ttl: int, now: int, stamp: int, memory: bool,
                          getMode: Mode, later: int, last: int)
    requires getMode != Ignore && mode != Ignore && Life(opt, mode, ttl) != 0
    ensures Get(opt, Put(opt, c, key, mode, None, ttl, now, stamp, memory), key, getMode, later, last).1.Some? <==>
              exists j :: 0 <= j < |c.items| && j != FirstSlot(c.items, key, now) && Remains(opt, c.items[j], key, now, later)
  {
    PutThenGet(opt, c, key, mode, None, ttl, now, stamp, memory, key, getMode, later, last);
  }

  /** And data that is still fresh is what a get of the key returns, whatever else is there. */
  lemma FreshIsReturned(opt: Options, c: Cache, key: string, mode: Mode, data: string, ttl: int, now: int, stamp: int,
                        getMode: Mode, later: int, last: int)
    requires getMode != Ignore && mode != Ignore && Life(opt, mode, ttl) != 0
    requires StillFresh(opt, mode, Life(opt, mode, ttl), stamp, later)
    ensures var hit := Get(opt, Put(opt, c, key, mode, Some(data), ttl, now, stamp, true), key, getMode, later, last).1;
            hit.Some? && hit.value.data == data
  {
    var life, c' := Life(opt, mode, ttl), Put(opt, c, key, mode, Some(data), ttl, now, stamp, true);
    StoreLeads(Tidy(opt, c, now), key, mode, data, life, stamp);
    var id :| Leads(c'.items, Item(id, stamp, stamp, life, 0, Some(data), mode, key));
    var it := Item(id, stamp, stamp, life, 0, Some(data), mode, key);
    TidyKeepsLead(opt, c'.items, it, later);
    LeadsIsFirst(Housekeep(opt, c'.items, later), it);
  }

  // ---------------------------------------------------------------------------------
  // A flush.

  /** What is locked at a flush is not given out any more once the last handle is back. */
  lemma FlushedOnRelease(opt: Options, c: Cache, id: nat, key: string, mode: Mode, now: int, stamp: int)
    requires Distinct(c.items) && mode != Ignore && now > 0
    ensures Get(opt, Unlock(Flush(c), id), key, mode, now, stamp).1.Some? <==>
              exists i :: 0 <= i < |c.items| && c.items[i].key == key && c.items[i].pw.Some? && c.items[i].lockcount > 0
                       && !(c.items[i].id == id && c.items[i].lockcount == 1)
  {
    var flushed, after := Flush(c).items, Unlock(Flush(c), id).items;
    var _ := GetMeans(opt, Unlock(Flush(c), id), key, mode, now, stamp);
    assert |flushed| == |c.items|;
    forall i | 0 <= i < |c.items|
      ensures |after| == |c.items|
      ensures Serves(opt, after[i], key, now) <==>
                c.items[i].key == key && c.items[i].pw.Some? && c.items[i].lockcount > 0
                && !(c.items[i].id == id && c.items[i].lockcount == 1)
    {
      ReleasedAt(c, flushed, id, i);
    }
  }

  lemma ReleasedAt(c: Cache, flushed: seq<Item>, id: nat, i: nat)
    requires Distinct(c.items) && flushed == Flush(c).items && i < |c.items| == |flushed|
    ensures |Unlock(Flush(c), id).items| == |c.items|
    ensures flushed[i] == FlushItem(c.items[i])
    ensures Unlock(Flush(c), id).items[i] ==
              if flushed[i].id == id && flushed[i].lockcount > 0 then flushed[i].(lockcount := flushed[i].lockcount - 1) else flushed[i]
  {
    assert forall k | 0 <= k < |flushed| :: flushed[k] == FlushItem(c.items[k]) && flushed[k].id == c.items[k].id;
    var k := Find(flushed, (it: Item) => it.id == id);
    assert flushed[i].id == id ==> k == i;
  }

  /** A flush leaves items without data alone; it empties the others, or, where they are locked, gives
      them no lifetime beyond their lock. */
  lemma FlushMeans(c: Cache, i: nat)
    requires i < |c.items|
    ensures var it := c.items[i];
            && |Flush(c).items| == |c.items| && Flush(c).nextId == c.nextId
            && Flush(c).items[i] == if it.pw.None? then it
                                    else if it.lockcount > 0 then it.(accessed := 0, ttl := 0)
                                    else it.(pw := None, accessed := 0)
  {
  }

  // ---------------------------------------------------------------------------------
  // Runs.

  /** A run goes on by any event that is allowed, and by the step of that event. */
  lemma {:induction false} RunGoesOn(opt: Options, s: System, events: seq<Event>, e: Event)
    ensures Run(opt, s, []) == Some(s)
    ensures Run(opt, s, events + [e]) ==
              match Run(opt, s, events)
              case None => None
              case Some(t) => if Allowed(t, e) then Some(Step(opt, t, e)) else None
    decreases |events|
  {
    if events == [] {
      assert events + [e] == [e] && [e][1..] == [];
    } else {
      assert (events + [e])[0] == events[0] && (events + [e])[1..] == events[1..] + [e];
      RunGoesOn(opt, Step(opt, s, events[0]), events[1..], e);
    }
  }
}
