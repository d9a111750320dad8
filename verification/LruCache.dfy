// The mutable cache of internal/enhancer/cache.go: a hash map into a doubly linked ring with a
// sentinel root. Each method takes exactly the step of LruModel.
module LruCache {
  import opened Common
  import opened M = LruModel

  class Element {
    var next: Element?
    var prev: Element?
    var entry: Entry

    constructor (entry: Entry)
      ensures this.entry == entry
    {
      this.entry := entry;
      next, prev := null, null;
    }
  }

  /** A ring of elements around a root that holds no entry; `ring` lists it from the root on. */
  class List {
    const root: Element
    var len: nat
    ghost var ring: seq<Element>
    ghost var Repr: set<Element>

    /** The entries from front to back. */
    ghost var contents: seq<Entry>

    ghost predicate Valid()
      reads this, Repr
    {
      && |ring| == len + 1 && ring[0] == root && |contents| == len
      && (forall i :: 0 <= i < |ring| ==> ring[i] in Repr)
      && (forall i, j {:trigger ring[i].next, ring[j].next} {:trigger ring[i].prev, ring[j].prev} ::
            0 <= i < j < |ring| ==> ring[i] != ring[j])
      && (forall i {:trigger ring[i].next} :: 0 <= i < |ring| - 1 ==> ring[i].next == ring[i + 1])
      && (forall i {:trigger ring[i].prev} :: 0 < i < |ring| ==> ring[i].prev == ring[i - 1])
      && (forall i {:trigger ring[i].entry} :: 0 < i < |ring| ==> ring[i].entry == contents[i - 1])
      && ring[len].next == root && root.prev == ring[len]
    }

    lemma Apart()
      requires Valid()
      ensures forall i, j :: 0 <= i < j < |ring| ==> ring[i] != ring[j]
    {
      forall i, j | 0 <= i < j < |ring| ensures ring[i] != ring[j] {
        var x, y := ring[i].next, ring[j].next;
      }
    }

    constructor ()
      ensures Valid() && contents == [] && fresh(Repr)
    {
      root := new Element(Entry(0, 0, 0));
      len := 0;
      new;
      root.next, root.prev := root, root;
      ring, Repr, contents := [root], {root}, [];
    }

    /** Empties the list; the elements are abandoned. */
    method Init()
      requires Valid()
      modifies this`len, this`ring, this`contents, this`Repr, root`next, root`prev
      ensures Valid() && contents == [] && Repr == {root}
    {
      root.next, root.prev := root, root;
      len := 0;
      ring, contents, Repr := [root], [], {root};
    }

    /** Takes `e` out between its neighbours. */
    method Remove(e: Element, ghost i: nat)
      requires Valid() && 0 < i < |ring| && ring[i] == e
      modifies this`len, this`ring, this`contents, Repr`next, Repr`prev
      ensures Valid() && ring == RemoveAt(old(ring), i)
      ensures contents == RemoveAt(old(contents), i - 1)
    {
      Apart();
      assert ring[i].prev == ring[i - 1];
      assert ring[i].next == if i < len then ring[i + 1] else root;
      e.prev.next := e.next;
      e.next.prev := e.prev;
      e.next := null;
      e.prev := null;
      len := len - 1;
      ring, contents := RemoveAt(ring, i), RemoveAt(contents, i - 1);
    }

    /** Links `e` in behind the root. */
    method InsertFront(e: Element)
      requires Valid() && forall i :: 0 <= i < |ring| ==> ring[i] != e
      modifies this`len, this`ring, this`contents, this`Repr, Repr`next, Repr`prev, e`next, e`prev
      ensures Valid() && Repr == old(Repr) + {e} && ring == [root, e] + old(ring)[1..]
      ensures contents == [e.entry] + old(contents)
    {
      Apart();
      assert ring[0].next == if len > 0 then ring[1] else root;
      ghost var was := ring;
      e.prev := root;
      e.next := root.next;
      e.prev.next := e;
      e.next.prev := e;
      len := len + 1;
      ring, Repr, contents := [root, e] + ring[1..], Repr + {e}, [e.entry] + contents;
      assert forall j :: 2 <= j < |ring| ==> ring[j] == was[j - 1];
    }

    method MoveToFront(e: Element, ghost i: nat)
      requires Valid() && 0 < i < |ring| && ring[i] == e
      modifies this`len, this`ring, this`contents, this`Repr, Repr`next, Repr`prev
      ensures Valid() && Repr == old(Repr)
      ensures Moved(old(ring), i, 1, ring) && Moved(old(contents), i - 1, 0, contents)
    {
      Apart();
      assert ring[0].next == ring[1];
      if root.next == e {
        return;
      }
      Remove(e, i);
      InsertFront(e);
    }

    /** Overwrites the entry an element holds. */
    method SetEntry(e: Element, x: Entry, ghost i: nat)
      requires Valid() && 0 < i < |ring| && ring[i] == e
      modifies this`contents, e`entry
      ensures Valid() && contents == old(contents)[i - 1 := x]
    {
      Apart();
      e.entry := x;
      contents := contents[i - 1 := x];
    }

    method Back() returns (e: Element?)
      requires Valid()
      ensures e == if len == 0 then null else ring[len]
    {
      e := if len == 0 then null else root.prev;
    }
  }

  class EnhancerCache {
    var items: map<Key, Element>
    const order: List
    const maxSize: nat
    const ttl: int
    var hits: nat
    var misses: nat
    var evictions: nat

    ghost predicate Valid()
      reads this, order, order.Repr
    {
      order.Valid() && maxSize > 0 && Filed(order.ring, items, order.contents)
    }

    /** The cache as a recency sequence. */
    ghost function Abs(): Cache
      reads this, order
    {
      Cache(order.contents, hits, misses, evictions)
    }

    constructor (maxSize: int, ttl: int)
      ensures Valid() && Abs() == EMPTY && fresh(order) && fresh(order.Repr)
      ensures this.maxSize == (if maxSize <= 0 then 256 else maxSize) && this.ttl == if ttl <= 0 then 600 else ttl
    {
      this.maxSize := if maxSize <= 0 then 256 else maxSize;
      this.ttl := if ttl <= 0 then 600 else ttl;
      order := new List();
      items := map[];
      hits, misses, evictions := 0, 0, 0;
    }

    /** Unlinks one entry from the list and the map. */
    method Delete(k: Key)
      requires Valid() && k in items
      modifies this`items, order`len, order`ring, order`contents, order.Repr`next, order.Repr`prev
      ensures Valid() && items == old(items) - {k}
      ensures order.contents == Without(old(order.contents), k)
    {
      var rest := items - {k};
      ghost var p := FiledWithout(order.ring, items, rest, order.contents, k);
      order.Remove(items[k], p + 1);
      items := rest;
    }

    /** Moves one entry to the front of the list. */
    method Promote(k: Key)
      requires Valid() && k in items
      modifies order`len, order`ring, order`contents, order`Repr, order.Repr`next, order.Repr`prev
      ensures Valid() && order.Repr == old(order.Repr)
      ensures order.contents == Promoted(old(order.contents), k)
    {
      ghost var ring, s := order.ring, order.contents;
      ghost var p := FiledAt(ring, items, s, k);
      order.MoveToFront(items[k], p + 1);
      FiledMove(ring, order.ring, items, s, order.contents, k);
    }

    /** The end of Get when the entry has outlived its TTL. */
    method Expire(k: Key)
      requires Valid() && k in items
      modifies this`items, this`misses, order`len, order`ring, order`contents, order.Repr`next, order.Repr`prev
      ensures Valid()
      ensures Abs() == Cache(Without(old(order.contents), k), hits, old(misses) + 1, evictions)
    {
      misses := misses + 1;
      Delete(k);
    }

    /** The end of Get when the entry counts as a hit. */
    method Hit(k: Key) returns (value: Value)
      requires Valid() && k in items
      modifies this`hits, order`len, order`ring, order`contents, order`Repr, order.Repr`next, order.Repr`prev
      ensures Valid() && order.Repr == old(order.Repr)
      ensures Has(old(order.contents), k) && value == Lookup(old(order.contents), k).value
      ensures Abs() == Cache(Promoted(old(order.contents), k), old(hits) + 1, misses, evictions)
    {
      ghost var p := FiledAt(order.ring, items, order.contents, k);
      value := items[k].entry.value;
      hits := hits + 1;
      Promote(k);
    }

    method Get(k: Key, now: int) returns (result: Option<Value>)
      requires Valid()
      modifies this`items, this`hits, this`misses
      modifies order`len, order`ring, order`contents, order`Repr, order.Repr`next, order.Repr`prev
      ensures Valid() && order.Repr == old(order.Repr)
      ensures (Abs(), result) == GetStep(old(Abs()), k, now, ttl)
      ensures result.Some? <==> k in old(items) && now - old(items[k].entry.createdAt) <= ttl
      ensures result.Some? ==> result.value == old(items[k].entry.value)
    {
      if k !in items {
        misses := misses + 1;
        return None;
      }
      ghost var p := FiledAt(order.ring, items, order.contents, k);
      if now - items[k].entry.createdAt > ttl {
        Expire(k);
        return None;
      }
      var value := Hit(k);
      result := Some(value);
    }

    /** Overwrites a cached entry and moves it to the front. */
    method Refresh(k: Key, v: Value, now: int)
      requires Valid() && k in items
      modifies order`len, order`ring, order`contents, order`Repr, order.Repr
      ensures Valid() && order.Repr == old(order.Repr)
      ensures order.contents == ToFront(old(order.contents), Entry(k, v, now))
    {
      ghost var s := order.contents;
      ghost var p := FiledAt(order.ring, items, s, k);
      Promote(k);
      p := FiledRenew(order.ring, items, s, Entry(k, v, now));
      order.SetEntry(items[k], Entry(k, v, now), 1);
    }

    /** Removes the entry at the back of the list, if there is one. */
    method EvictLru()
      requires Valid()
      modifies this`items, this`evictions, order`len, order`ring, order`contents, order.Repr`next, order.Repr`prev
      ensures Valid() && forall x :: x in items ==> x in old(items)
      ensures old(order.contents) == [] ==> Abs() == old(Abs())
      ensures old(order.contents) != [] ==>
                order.contents == old(order.contents)[..|old(order.contents)| - 1] && evictions == old(evictions) + 1
    {
      ghost var s := order.contents;
      var tail := order.Back();
      if tail == null {
        return;
      }
      Delete(tail.entry.key);
      evictions := evictions + 1;
      assert Position(s, s[|s| - 1].key) == |s| - 1;
    }

    /** Links an element in at the front and files it under its key. */
    method Link(e: Element)
      requires Valid() && e !in order.Repr && e.entry.key !in items
      modifies this`items, order`len, order`ring, order`contents, order`Repr
      modifies order.Repr`next, order.Repr`prev, e`next, e`prev
      ensures Valid() && order.Repr == old(order.Repr) + {e}
      ensures order.contents == [e.entry] + old(order.contents)
    {
      var more := items[e.entry.key := e];
      FiledFront(order.ring, items, more, order.contents, e, e.entry);
      order.InsertFront(e);
      items := more;
    }

    /** The eviction loop of Put. */
    method EvictToFit(ghost k: Key)
      requires Valid() && k !in items
      modifies this`items, this`evictions, order`len, order`ring, order`contents, order.Repr`next, order.Repr`prev
      ensures Valid() && k !in items
      ensures Abs() == MakeRoom(old(Abs()), maxSize)
    {
      ghost var c := Abs();
      while order.len >= maxSize
        invariant Valid() && k !in items && order.contents <= c.entries
        invariant |order.contents| < |c.entries| ==> |order.contents| >= maxSize - 1
        invariant evictions + |order.contents| == c.evictions + |c.entries|
        decreases order.len
      {
        EvictLru();
      }
    }

    method Put(k: Key, v: Value, now: int)
      requires Valid()
      modifies this`items, this`evictions
      modifies order`len, order`ring, order`contents, order`Repr, order.Repr
      ensures Valid() && fresh(order.Repr - old(order.Repr))
      ensures Abs() == PutStep(old(Abs()), k, v, now, maxSize)
    {
      if k in items {
        Refresh(k, v, now);
        return;
      }
      EvictToFit(k);
      var e := new Element(Entry(k, v, now));
      Link(e);
    }

    /** Drops the entries of a prompt: one key for each known provider. */
    method Invalidate(keys: seq<Key>)
      requires Valid()
      modifies this`items, order`len, order`ring, order`contents, order.Repr`next, order.Repr`prev
      ensures Valid()
      ensures order.contents == Drop(old(order.contents), keys)
    {
      for i := 0 to |keys|
        invariant Valid() && Drop(order.contents, keys[i..]) == Drop(old(order.contents), keys)
      {
        assert keys[i..][0] == keys[i] && keys[i..][1..] == keys[i + 1..];
        if keys[i] in items {
          Delete(keys[i]);
        }
      }
    }

    method Clear()
      requires Valid()
      modifies this`items, this`hits, this`misses, this`evictions
      modifies order`len, order`ring, order`contents, order`Repr, order.root`next, order.root`prev
      ensures Valid() && Abs() == EMPTY
    {
      items := map[];
      hits, misses, evictions := 0, 0, 0;
      order.Init();
    }
  }

  /** The map files each listed entry's element under its key, and nothing else. */
  ghost predicate Filed(ring: seq<Element>, items: map<Key, Element>, s: seq<Entry>) {
    && |ring| == |s| + 1 && Distinct(s)
    && (forall i {:trigger s[i]} :: 0 <= i < |s| ==> s[i].key in items && items[s[i].key] == ring[i + 1])
    && (forall k :: k in items ==> Has(s, k))
  }

  lemma FiledAt(ring: seq<Element>, items: map<Key, Element>, s: seq<Entry>, k: Key) returns (p: nat)
    requires Filed(ring, items, s) && k in items
    ensures p == Position(s, k) < |s| && Has(s, k) && items[k] == ring[p + 1]
  {
    p := Position(s, k);
  }

  lemma FiledWithout(ring: seq<Element>, items: map<Key, Element>, rest: map<Key, Element>, s: seq<Entry>, k: Key)
    returns (p: nat)
    requires Filed(ring, items, s) && k in items
    requires forall x :: x in rest <==> x in items && x != k
    requires forall x :: x in rest ==> rest[x] == items[x]
    ensures p < |s| && items[k] == ring[p + 1]
    ensures Without(s, k) == RemoveAt(s, p)
    ensures Filed(RemoveAt(ring, p + 1), rest, RemoveAt(s, p))
  {
    p := FiledAt(ring, items, s, k);
    WithoutFacts(s, k);
    WithoutHas(s, k);
    forall i | 0 <= i < |s| - 1
      ensures RemoveAt(s, p)[i].key in rest && rest[RemoveAt(s, p)[i].key] == RemoveAt(ring, p + 1)[i + 1]
    {
      FiledShift(ring, items, rest, s, p, i);
    }
  }

  lemma FiledShift(ring: seq<Element>, items: map<Key, Element>, rest: map<Key, Element>, s: seq<Entry>, p: nat, i: nat)
    requires p < |s| && i < |s| - 1 && |ring| == |s| + 1 && Distinct(s)
    requires forall j {:trigger s[j]} :: 0 <= j < |s| ==> s[j].key in items && items[s[j].key] == ring[j + 1]
    requires forall x :: x in rest <==> x in items && x != s[p].key
    requires forall x :: x in rest ==> rest[x] == items[x]
    ensures RemoveAt(s, p)[i].key in rest && rest[RemoveAt(s, p)[i].key] == RemoveAt(ring, p + 1)[i + 1]
  {
    if i < p {
      assert RemoveAt(s, p)[i] == s[i] && RemoveAt(ring, p + 1)[i + 1] == ring[i + 1];
    } else {
      assert RemoveAt(s, p)[i] == s[i + 1] && RemoveAt(ring, p + 1)[i + 1] == ring[i + 2];
    }
  }

  lemma FiledMove(ring: seq<Element>, ring': seq<Element>, items: map<Key, Element>, s: seq<Entry>, f: seq<Entry>,
                  k: Key)
    requires Filed(ring, items, s) && k in items
    requires var p := Position(s, k); p < |s| && Moved(ring, p + 1, 1, ring') && Moved(s, p, 0, f)
    ensures Has(s, k) && Promoted(s, k) == f
    ensures Filed(ring', items, f)
  {
    var p := Position(s, k);
    hide Position;
    ToFrontFacts(s, s[p]);
    assert ToFront(s, s[p]) == f;
    forall i | 0 <= i < |f| ensures f[i].key in items && items[f[i].key] == ring'[i + 1] {
      assert ring'[i + 1] == if i == 0 then ring[p + 1] else if i <= p then ring[i] else ring[i + 1];
    }
  }

  /** Overwriting the front entry under its own key. */
  lemma FiledRenew(ring: seq<Element>, items: map<Key, Element>, s: seq<Entry>, x: Entry) returns (p: nat)
    requires Distinct(s) && Has(s, x.key) && x.key in items
    requires Filed(ring, items, Promoted(s, x.key))
    ensures |ring| > 1 && items[x.key] == ring[1]
    ensures Promoted(s, x.key)[0 := x] == ToFront(s, x)
    ensures Filed(ring, items, ToFront(s, x))
  {
    p := Position(s, x.key);
    ToFrontFacts(s, s[p]);
    ToFrontFacts(s, x);
    var f, f' := Promoted(s, x.key), ToFront(s, x);
    assert f[0] == s[p] && f == [s[p]] + Without(s, x.key);
    forall i | 0 <= i < |f'| ensures f'[i].key == f[i].key {
      if i > 0 { assert f'[i] == Without(s, x.key)[i - 1] == f[i]; }
    }
    forall k | k in items ensures Has(f', k) {
      var i :| 0 <= i < |f| && f[i].key == k;
      assert f'[i].key == k;
    }
  }

  lemma FiledFront(ring: seq<Element>, items: map<Key, Element>, more: map<Key, Element>, s: seq<Entry>, e: Element,
                   x: Entry)
    requires Filed(ring, items, s) && x.key !in items && x.key in more && more[x.key] == e
    requires forall k :: k in more <==> k in items || k == x.key
    requires forall k :: k in items ==> more[k] == items[k]
    ensures Filed([ring[0], e] + ring[1..], more, [x] + s)
  {
    var s', ring' := [x] + s, [ring[0], e] + ring[1..];
    forall i | 0 <= i < |s'|
      ensures s'[i].key in more && more[s'[i].key] == ring'[i + 1]
      ensures i > 0 ==> s'[i].key != x.key
    {
      if i > 0 { assert s'[i] == s[i - 1] && ring'[i + 1] == ring[i]; }
    }
    forall k | k in more ensures Has(s', k) {
      if k == x.key { assert s'[0].key == k; } else { assert s'[Position(s, k) + 1].key == k; }
    }
  }
}
