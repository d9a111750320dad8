// The mutable blackboard of internal/blackboard: a map of entries and the lines of its log file.
// Each method takes exactly its BlackboardModel step.
module BlackboardStore {
  import opened Common
  import opened M = BlackboardModel

  class Blackboard {
    var entries: map<Slot, Entry>
    var file: seq<Entry>
    const persistent: bool
    const defaultTtl: int

    function Abs(): Store
      reads this
    {
      Store(entries, file, persistent, defaultTtl)
    }

    /** Entries are filed under their own slots. */
    ghost predicate Valid()
      reads this
    {
      forall k :: k in entries ==> entries[k].Slot() == k
    }

    /** Opens a blackboard on what its state directory holds; without one nothing is read. */
    constructor (persistent: bool, defaultTtl: int, found: seq<Entry>)
      ensures Valid()
      ensures this.persistent == persistent && this.defaultTtl == defaultTtl
      ensures file == (if persistent then found else []) && entries == Replay(file)
    {
      this.persistent, this.defaultTtl := persistent, defaultTtl;
      file := if persistent then found else [];
      entries := map[];
      new;
      Load();
    }

    /** Reads the file line by line; later lines win. */
    method Load()
      requires entries == map[]
      modifies this`entries
      ensures Valid() && entries == Replay(file)
    {
      for i := 0 to |file|
        invariant Valid() && entries == Replay(file[..i])
      {
        assert file[..i + 1] == file[..i] + [file[i]];
        ReplayPush(file[..i], file[i]);
        entries := entries[file[i].Slot() := file[i]];
      }
      assert file[..|file|] == file;
    }

    method Put(e: Entry, now: int) returns (ok: bool)
      requires Valid()
      modifies this
      ensures Valid()
      ensures ok <==> !CasFails(old(Abs()), e)
      ensures Abs() == PutStep(old(Abs()), e, now)
      ensures ok ==>
                && e.Slot() in entries
                && var x := entries[e.Slot()];
                && x.ns == e.ns && x.key == e.key && x.value == e.value && x.writer == e.writer && x.updatedAt == now
                && x.version == (if e.Slot() in old(entries) then old(entries)[e.Slot()].version + 1 else 1)
                && x.createdAt == (if e.Slot() in old(entries) then old(entries)[e.Slot()].createdAt else now)
                && x.ttl == (if e.ttl == 0 && defaultTtl > 0 then defaultTtl else e.ttl)
    {
      var slot := e.Slot();
      if e.version > 0 {
        if slot !in entries {
          return false;
        }
        if entries[slot].version != e.version {
          return false;
        }
      }
      var x := e;
      if x.ttl == 0 && defaultTtl > 0 {
        x := x.(ttl := defaultTtl);
      }
      if slot in entries {
        x := x.(version := entries[slot].version + 1, createdAt := entries[slot].createdAt);
      } else {
        x := x.(version := 1, createdAt := now);
      }
      x := x.(updatedAt := now);
      assert x == Stored(Abs(), e, now);
      entries := entries[slot := x];
      if persistent {
        file := file + [x];
      }
      ok := true;
    }

    method Get(slot: Slot) returns (e: Option<Entry>)
      requires Valid()
      ensures e.Some? <==> slot in entries
      ensures e.Some? ==> e.value == entries[slot] && e.value.Slot() == slot
    {
      e := if slot in entries then Some(entries[slot]) else None;
    }

    /** Visits the entries in any order and removes the expired ones. */
    method Gc(now: int)
      requires Valid()
      modifies this`entries
      ensures Valid() && Abs() == GcStep(old(Abs()), now)
    {
      ghost var was := entries;
      var todo := entries.Keys;
      while todo != {}
        invariant todo <= entries.Keys <= was.Keys
        invariant forall k :: k in entries ==> entries[k] == was[k]
        invariant forall k :: k in was && k !in todo ==> (k in entries <==> !Expired(was[k], now))
        decreases todo
      {
        var k :| k in todo;
        todo := todo - {k};
        if entries[k].ttl > 0 && now - entries[k].updatedAt > entries[k].ttl {
          entries := entries - {k};
        }
      }
    }

    method SetTtl(slot: Slot, d: int, now: int) returns (ok: bool)
      requires Valid()
      modifies this`entries
      ensures Valid() && ok == (slot in old(entries)) && Abs() == SetTtlStep(old(Abs()), slot, d, now)
    {
      if slot !in entries {
        return false;
      }
      entries := entries[slot := entries[slot].(ttl := d, updatedAt := now)];
      ok := true;
    }

    /** Replaces the file by one line for each entry, in the map's iteration order. */
    method Snapshot() returns (ghost lines: seq<Entry>)
      requires Valid()
      modifies this`file
      ensures Valid() && Lists(lines, entries) && Abs() == SnapshotStep(old(Abs()), lines)
    {
      hide Lists;
      var out: seq<Entry> := [];
      var todo := entries.Keys;
      ghost var written: map<Slot, Entry> := map[];
      NothingListed();
      while todo != {}
        invariant todo <= entries.Keys && written == entries - todo
        invariant Lists(out, written) && Abs() == old(Abs())
        decreases todo
      {
        var k :| k in todo;
        ListOneMore(out, written, entries[k]);
        assert entries - (todo - {k}) == written[k := entries[k]];
        todo := todo - {k};
        out := out + [entries[k]];
        written := written[k := entries[k]];
      }
      assert written == entries;
      lines := out;
      if persistent {
        file := out;
      }
    }
  }
}
