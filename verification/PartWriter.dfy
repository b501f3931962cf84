/**
 * The on-disk half of the archive: a partition directory and the writer that appends parts to it.
 * Each file operation is one atomic step; `Faults` says which of them fail.
 */
module PartWriters {
  import opened Options
  import opened PartLog

  // ---------------------------------------------------------------- published parts in index order

  predicate IsHighest<T>(h: nat, parts: map<nat, seq<T>>) {
    (forall k | k in parts :: k <= h) && (h in parts || h == 0)
  }

  lemma {:induction false} HighestKeyExists(keys: set<nat>)
    requires keys != {}
    ensures exists h | h in keys :: forall k | k in keys :: k <= h
  {
    var x :| x in keys;
    var rest := keys - {x};
    if rest == {} {
      assert keys == {x};
    } else {
      HighestKeyExists(rest);
      var h :| h in rest && forall k | k in rest :: k <= h;
      var m := if x > h then x else h;
      forall k | k in keys
        ensures k <= m
      {
        assert k == x || k in rest;
      }
      assert m in keys;
    }
  }

  ghost function HighestKey(keys: set<nat>): (h: nat)
    requires keys != {}
    ensures h in keys && forall k | k in keys :: k <= h
  {
    HighestKeyExists(keys);
    var h :| h in keys && forall k | k in keys :: k <= h;
    h
  }

  ghost function InOrder<T>(parts: map<nat, seq<T>>): seq<seq<T>>
    decreases |parts|
  {
    if parts == map[] then []
    else
      var h := HighestKey(parts.Keys);
      assert |(parts - {h}).Keys| == |parts.Keys - {h}| by { assert (parts - {h}).Keys == parts.Keys - {h}; }
      InOrder(parts - {h}) + [parts[h]]
  }

  /** Publishing above every existing index appends the new part and leaves the others in order. */
  lemma PublishAbove<T>(parts: map<nat, seq<T>>, index: nat, part: seq<T>)
    requires forall k | k in parts :: k < index
    ensures InOrder(parts[index := part]) == InOrder(parts) + [part]
  {
    var next := parts[index := part];
    assert index in next;
    assert HighestKey(next.Keys) == index;
    assert next - {index} == parts;
  }

  // ---------------------------------------------------------------- the directory

  datatype Entry = PublishedPart(index: nat) | TemporaryPart(index: nat, modified: int)

  datatype CreateResult = Created | Exists | Failed

  /** A partition directory: published parts by index, and temporary parts with their modification time. */
  class Partition<T> {
    var parts: map<nat, seq<T>>
    var temps: map<nat, int>

    constructor ()
      ensures parts == map[] && temps == map[]
    {
      parts, temps := map[], map[];
    }

    /** The directory listing, in whatever order the file system gives it. */
    method List() returns (entries: seq<Entry>)
      ensures forall k :: k in parts <==> PublishedPart(k) in entries
      ensures forall k, m :: k in temps && temps[k] == m <==> TemporaryPart(k, m) in entries
    {
      entries := [];
      var left := parts.Keys;
      while left != {}
        invariant left <= parts.Keys
        invariant forall k :: k in parts.Keys - left <==> PublishedPart(k) in entries
        invariant forall k, m :: TemporaryPart(k, m) !in entries
        decreases |left|
      {
        var k :| k in left;
        left := left - {k};
        entries := entries + [PublishedPart(k)];
      }
      left := temps.Keys;
      while left != {}
        invariant left <= temps.Keys
        invariant forall k :: k in parts <==> PublishedPart(k) in entries
        invariant forall k, m :: k in temps.Keys - left && temps[k] == m <==> TemporaryPart(k, m) in entries
        decreases |left|
      {
        var k :| k in left;
        left := left - {k};
        entries := entries + [TemporaryPart(k, temps[k])];
      }
    }

    /** An exclusive create: a taken index is reported, never disturbed. */
    method CreateTemp(index: nat, now: int, fault: bool) returns (r: CreateResult)
      modifies this`temps
      ensures r == if index in old(temps) then Exists else if fault then Failed else Created
      ensures temps == if r.Created? then old(temps)[index := now] else old(temps)
    {
      if index in temps {
        return Exists;
      }
      if fault {
        return Failed;
      }
      temps := temps[index := now];
      return Created;
    }

    method RemoveTemp(index: nat)
      modifies this`temps
      ensures temps == old(temps) - {index}
    {
      temps := temps - {index};
    }

    /** rename(2) of a temporary part onto its final name. It would silently replace an existing part. */
    method Rename(index: nat, content: seq<T>)
      requires index in temps
      modifies this
      ensures parts == old(parts)[index := content] && temps == old(temps) - {index}
    {
      parts := parts[index := content];
      temps := temps - {index};
    }
  }

  const STALE_AFTER := 3600
  const MAX_INDEX_SKIPS := 64

  /** One listing decides both the next index and which temporary parts were abandoned. */
  method ScanPartDir<T>(dir: Partition<T>, now: int) returns (index: nat, stale: set<nat>)
    ensures index >= 1 && IsHighest(index - 1, dir.parts)
    ensures stale == set k | k in dir.temps && dir.temps[k] < now - STALE_AFTER
  {
    var entries := dir.List();
    var highest: nat := 0;
    stale := {};
    for i := 0 to |entries|
      invariant forall j | 0 <= j < i :: entries[j].PublishedPart? ==> entries[j].index <= highest
      invariant highest == 0 || highest in dir.parts
      invariant forall k :: k in stale <==>
        exists j | 0 <= j < i ::
          entries[j].TemporaryPart? && entries[j].index == k && entries[j].modified < now - STALE_AFTER
    {
      match entries[i]
      case PublishedPart(n) =>
        assert PublishedPart(n) in entries;
        if n > highest {
          highest := n;
        }
      case TemporaryPart(n, modified) =>
        if modified < now - STALE_AFTER {
          stale := stale + {n};
        }
    }
    forall k | k in dir.parts
      ensures k <= highest
    {
      assert PublishedPart(k) in entries;
    }
    forall k
      ensures k in stale <==> k in dir.temps && dir.temps[k] < now - STALE_AFTER
    {
      if k in dir.temps && dir.temps[k] < now - STALE_AFTER {
        assert TemporaryPart(k, dir.temps[k]) in entries;
        var j :| 0 <= j < |entries| && entries[j] == TemporaryPart(k, dir.temps[k]);
      }
      if k in stale {
        var j :| 0 <= j < |entries| && entries[j].TemporaryPart? && entries[j].index == k
          && entries[j].modified < now - STALE_AFTER;
        assert entries[j] == TemporaryPart(k, entries[j].modified) && entries[j] in entries;
      }
    }
    index := highest + 1;
  }

  // ---------------------------------------------------------------- the writer

  /** The writer of one partition. `encoding` stands for an encoder over an open temporary file. */
  class PartWriter<T> {
    const dir: Partition<T>
    const rowsPerPart: nat
    var encoding: bool
    var held: seq<T>
    var index: nat
    var rows: nat

    /** While a part is open its temporary file exists and its final name is above every published one. */
    ghost predicate Valid()
      reads this, dir
    {
      && rowsPerPart >= 1
      && (encoding ==> index in dir.temps && forall k | k in dir.parts :: k < index)
    }

    ghost function View(): Log<T>
      reads this, dir
    {
      Log(InOrder(dir.parts), if encoding then Some(held) else None, rows)
    }

    /** A new process over an existing directory: whatever it left behind, only published parts count. */
    constructor (dir: Partition<T>, rowsPerPart: nat)
      requires rowsPerPart >= 1
      ensures Valid() && this.dir == dir && this.rowsPerPart == rowsPerPart
      ensures View() == Log(InOrder(dir.parts), None, 0)
    {
      this.dir, this.rowsPerPart := dir, rowsPerPart;
      encoding, held, index, rows := false, [], 0, 0;
    }

    method Append(row: T, now: int, f: Faults) returns (ok: bool, ghost hit: Faults)
      requires Valid()
      modifies this, dir
      ensures Valid()
      ensures (View(), ok) == AfterAppend(old(View()), row, rowsPerPart, hit)
      ensures hit.write == f.write && hit.finalize == f.finalize && (f.create ==> hit.create)
      ensures hit.create && !f.create ==> !old(encoding) && IndicesTaken(old(dir.parts), old(dir.temps))
      ensures NothingReplaced(old(dir.parts), dir.parts)
    {
      hit := f;
      if !encoding {
        ok := Open(now, f.create);
        if !ok {
          hit := f.(create := true);
          return;
        }
      }
      if f.write {
        ok := false;
        return;
      }
      held := held + [row];
      rows := rows + 1;
      if rows >= rowsPerPart {
        ok := Finalize(f.finalize);
      } else {
        ok := true;
      }
    }

    /** Open succeeds unless the create fails or the first indices above the published ones are all taken. */
    method Open(now: int, fault: bool) returns (ok: bool)
      requires Valid() && !encoding
      modifies this, dir`temps
      ensures Valid() && encoding == ok && rows == old(rows)
      ensures dir.parts == old(dir.parts)
      ensures ok ==> held == [] && index !in dir.parts
      ensures !ok ==> fault || IndicesTaken(old(dir.parts), old(dir.temps))
      ensures fault ==> !ok
    {
      var first, stale := ScanPartDir(dir, now);
      Reap(stale);
      ok := Create(first, now, fault);
    }

    /** Best-effort housekeeping: any subset of the abandoned files may go. */
    method Reap(stale: set<nat>)
      modifies dir`temps
      ensures dir.temps.Keys <= old(dir.temps.Keys)
      ensures forall k | k in dir.temps :: dir.temps[k] == old(dir.temps)[k]
    {
      var left := stale;
      while left != {}
        invariant dir.temps.Keys <= old(dir.temps.Keys)
        invariant forall k | k in dir.temps :: dir.temps[k] == old(dir.temps)[k]
        decreases |left|
      {
        var k :| k in left;
        left := left - {k};
        if * {
          dir.RemoveTemp(k);
        }
      }
    }

    method Create(first: nat, now: int, fault: bool) returns (ok: bool)
      requires first >= 1 && IsHighest(first - 1, dir.parts) && !encoding && rowsPerPart >= 1
      modifies this, dir`temps
      ensures Valid() && encoding == ok && rows == old(rows)
      ensures ok ==> held == [] && first <= index < first + MAX_INDEX_SKIPS && index !in old(dir.temps)
      ensures ok ==> forall k | first <= k < index :: k in old(dir.temps)
      ensures !ok ==> fault || forall k | first <= k < first + MAX_INDEX_SKIPS :: k in old(dir.temps)
      ensures fault ==> !ok
    {
      var skip := 0;
      while skip < MAX_INDEX_SKIPS
        invariant 0 <= skip <= MAX_INDEX_SKIPS
        invariant !encoding && rows == old(rows) && dir.temps == old(dir.temps)
        invariant forall k | first <= k < first + skip :: k in old(dir.temps)
      {
        index := first + skip;
        var r := dir.CreateTemp(index, now, fault);
        if r.Created? {
          encoding, held := true, [];
          return true;
        }
        if r.Failed? {
          return false;
        }
        skip := skip + 1;
      }
      return false;
    }

    /** Footer, sync, close, rename. Any failure removes the temporary file and keeps the row counter. */
    method Finalize(fails: bool) returns (ok: bool)
      requires Valid()
      modifies this, dir
      ensures Valid()
      ensures View() == AfterFinalize(old(View()), fails)
      ensures ok == (old(encoding) ==> !fails)
      ensures NothingReplaced(old(dir.parts), dir.parts)
    {
      if !encoding {
        return true;
      }
      encoding := false;
      if fails {
        dir.RemoveTemp(index);
        return false;
      }
      PublishAbove(dir.parts, index, held);
      dir.Rename(index, held);
      rows := 0;
      return true;
    }
  }

  /** Every published part is still there with the rows it was published with. */
  ghost predicate NothingReplaced<T>(before: map<nat, seq<T>>, now: map<nat, seq<T>>) {
    forall k | k in before :: k in now && now[k] == before[k]
  }

  /** The only state of the directory that refuses a writer: a run of leftovers directly above the last part. */
  ghost predicate IndicesTaken<T>(parts: map<nat, seq<T>>, temps: map<nat, int>) {
    forall highest: nat | IsHighest(highest, parts) ::
      forall k | highest < k <= highest + MAX_INDEX_SKIPS :: k in temps
  }
}
