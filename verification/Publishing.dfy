/**
 * Publishing by directory renames with a rollback. Every file operation is one atomic step that may fail; `seen`
 * keeps the live tree after each of them, so what is said of `seen` holds for a reader at any moment.
 */
module Publishing {

  type Path = string

  datatype Entry = Directory(content: string) | File(content: string)

  type Tree = map<Path, Entry>

  const MANIFEST_PATH := "v1/manifest.json"

  datatype Stage = ParentCreate | Displace | Move | Manifest

  datatype Outcome = Published | Refused | Unprepared | FailedAt(stage: Stage, item: nat)

  // ---------------------------------------------------------------- specification

  predicate Distinct(paths: seq<Path>) {
    forall i, j | 0 <= i < j < |paths| :: paths[i] != paths[j]
  }

  /** The live tree once the first k listed paths are the staged ones and the others are as before. */
  function Swapped(prior: Tree, staged: Tree, listed: seq<Path>, k: nat): Tree
    requires k <= |listed| && forall p | p in listed :: p in staged
  {
    if k == 0 then prior
    else Swapped(prior, staged, listed, k - 1)[listed[k - 1] := staged[listed[k - 1]]]
  }

  lemma {:induction false} SwappedAt(prior: Tree, staged: Tree, listed: seq<Path>, k: nat, p: Path)
    requires k <= |listed| && Distinct(listed) && forall q | q in listed :: q in staged
    ensures var t := Swapped(prior, staged, listed, k);
      && (p in listed[..k] ==> p in t && t[p] == staged[p])
      && (p !in listed[..k] ==> (p in t <==> p in prior) && (p in prior ==> t[p] == prior[p]))
  {
    if k > 0 {
      SwappedAt(prior, staged, listed, k - 1, p);
      assert listed[..k] == listed[..k - 1] + [listed[k - 1]];
    }
  }

  /** A partial publish is no change at all exactly when the swapped-in paths already held their staged content. */
  lemma SwappedIsPrior(prior: Tree, staged: Tree, listed: seq<Path>, k: nat)
    requires k <= |listed| && Distinct(listed) && forall q | q in listed :: q in staged
    ensures Swapped(prior, staged, listed, k) == prior
      <==> forall i | 0 <= i < k :: listed[i] in prior && prior[listed[i]] == staged[listed[i]]
  {
    var t := Swapped(prior, staged, listed, k);
    forall p
      ensures p in listed[..k] ==> p in t && t[p] == staged[p]
      ensures p !in listed[..k] ==> (p in t <==> p in prior) && (p in prior ==> t[p] == prior[p])
    {
      SwappedAt(prior, staged, listed, k, p);
    }
    if t == prior {
      forall i | 0 <= i < k
        ensures listed[i] in prior && prior[listed[i]] == staged[listed[i]]
      {
        assert listed[..k][i] == listed[i];
      }
    }
    if forall i | 0 <= i < k :: listed[i] in prior && prior[listed[i]] == staged[listed[i]] {
      forall p
        ensures p in t <==> p in prior
        ensures p in t ==> t[p] == prior[p]
      {
        if p in listed[..k] {
          var i :| 0 <= i < k && listed[..k][i] == p;
        }
      }
    }
  }

  predicate Changes(prior: Tree, staged: Tree, p: Path)
    requires p in staged
  {
    p !in prior || prior[p] != staged[p]
  }

  /** One of the listed paths from i up to j changes. */
  predicate ChangesIn(prior: Tree, staged: Tree, listed: seq<Path>, i: nat, j: nat)
    requires j <= |listed| && forall q | q in listed :: q in staged
  {
    exists k | i <= k < j :: Changes(prior, staged, listed[k])
  }

  lemma NotYetSwapped(prior: Tree, staged: Tree, listed: seq<Path>, k: nat, i: nat)
    requires k <= i < |listed| && Distinct(listed) && forall q | q in listed :: q in staged
    ensures SameAt(Swapped(prior, staged, listed, k), prior, listed[i])
    ensures var done := Swapped(prior, staged, listed, |listed|);
      listed[i] in done && done[listed[i]] == staged[listed[i]]
  {
    assert listed[..|listed|] == listed;
    SwappedAt(prior, staged, listed, k, listed[i]);
    SwappedAt(prior, staged, listed, |listed|, listed[i]);
  }

  lemma {:induction false} NothingLeftToSwap(prior: Tree, staged: Tree, listed: seq<Path>, k: nat, n: nat)
    requires k <= n <= |listed| && Distinct(listed) && forall q | q in listed :: q in staged
    requires forall i | k <= i < n :: !Changes(prior, staged, listed[i])
    ensures Swapped(prior, staged, listed, k) == Swapped(prior, staged, listed, n)
  {
    if k < n {
      NothingLeftToSwap(prior, staged, listed, k, n - 1);
      assert listed[n - 1] !in listed[..n - 1];
      SwappedAt(prior, staged, listed, n - 1, listed[n - 1]);
    }
  }

  /** It is the complete publish exactly when the paths still to come already held theirs. */
  lemma SwappedIsComplete(prior: Tree, staged: Tree, listed: seq<Path>, k: nat)
    requires k <= |listed| && Distinct(listed) && forall q | q in listed :: q in staged
    ensures Swapped(prior, staged, listed, k) == Swapped(prior, staged, listed, |listed|)
      <==> forall i | k <= i < |listed| :: listed[i] in prior && prior[listed[i]] == staged[listed[i]]
  {
    forall i | k <= i < |listed|
      ensures SameAt(Swapped(prior, staged, listed, k), prior, listed[i])
      ensures var done := Swapped(prior, staged, listed, |listed|);
        listed[i] in done && done[listed[i]] == staged[listed[i]]
    {
      NotYetSwapped(prior, staged, listed, k, i);
    }
    if forall i | k <= i < |listed| :: listed[i] in prior && prior[listed[i]] == staged[listed[i]] {
      NothingLeftToSwap(prior, staged, listed, k, |listed|);
    }
  }

  /**
   * What a move that fails on item k leaves is neither the prior nor the complete publish exactly when a path
   * before it and a path from it on both change: two directories that differ are enough, one never is.
   */
  lemma MixedExactlyWhenBothSidesChange(prior: Tree, staged: Tree, listed: seq<Path>, k: nat)
    requires k <= |listed| && Distinct(listed) && forall q | q in listed :: q in staged
    ensures var t := Swapped(prior, staged, listed, k);
      t != prior && t != Swapped(prior, staged, listed, |listed|)
      <==> ChangesIn(prior, staged, listed, 0, k) && ChangesIn(prior, staged, listed, k, |listed|)
  {
    SwappedIsPrior(prior, staged, listed, k);
    SwappedIsComplete(prior, staged, listed, k);
  }

  /** What a reader may find: per listed path the old entry, nothing or the staged entry; elsewhere no change. */
  ghost predicate Allowed(live: Tree, prior: Tree, staged: Tree, listed: seq<Path>, manifest: Path) {
    && (forall p | p in listed && p in live ::
          (p in prior && live[p] == prior[p]) || (p in staged && live[p] == staged[p]))
    && (forall p | p !in listed && p != manifest ::
      (p in live <==> p in prior) && (p in prior && p in live ==> live[p] == prior[p]))
    && (SameAt(live, prior, manifest) || (AllIn(live, staged, listed) && SameAt(live, staged, manifest)))
  }

  predicate SameAt(a: Tree, b: Tree, p: Path) {
    (p in a <==> p in b) && (p in a && p in b ==> a[p] == b[p])
  }

  predicate AllIn(live: Tree, staged: Tree, listed: seq<Path>) {
    forall p | p in listed :: p in live && p in staged && live[p] == staged[p]
  }

  /** Slot i of the trash holds what item i displaced. */
  predicate Slots(trash: map<nat, Entry>, prior: Tree, listed: seq<Path>, k: nat)
    requires k <= |listed|
  {
    forall i: nat | i < k ::
      (i in trash <==> listed[i] in prior) && (i in trash && listed[i] in prior ==> trash[i] == prior[listed[i]])
  }

  /** A reader may find this, and the manifest is still the old one. */
  ghost predicate Safe(live: Tree, prior: Tree, staged: Tree, listed: seq<Path>, manifest: Path) {
    Allowed(live, prior, staged, listed, manifest) && SameAt(live, prior, manifest)
  }

  lemma SwappedSafe(prior: Tree, staged: Tree, listed: seq<Path>, k: nat, manifest: Path)
    requires k <= |listed| && Distinct(listed) && manifest !in listed && forall q | q in listed :: q in staged
    ensures Safe(Swapped(prior, staged, listed, k), prior, staged, listed, manifest)
  {
    forall p
      ensures var t := Swapped(prior, staged, listed, k);
        && (p in listed[..k] ==> p in t && t[p] == staged[p])
        && (p !in listed[..k] ==> (p in t <==> p in prior) && (p in prior ==> t[p] == prior[p]))
    {
      SwappedAt(prior, staged, listed, k, p);
    }
    assert manifest !in listed[..k];
  }

  /** Taking one listed entry away, or giving it its old or its staged content, stays safe. */
  lemma StaysSafe(live: Tree, prior: Tree, staged: Tree, listed: seq<Path>, manifest: Path, p: Path)
    requires Safe(live, prior, staged, listed, manifest) && p in listed && manifest !in listed
    ensures Safe(live - {p}, prior, staged, listed, manifest)
    ensures p in prior ==> Safe(live[p := prior[p]], prior, staged, listed, manifest)
    ensures p in staged ==> Safe(live[p := staged[p]], prior, staged, listed, manifest)
  {
  }

  /** Undoing item i of a publish that has come to i + 1. */
  lemma SwappedBack(prior: Tree, staged: Tree, listed: seq<Path>, i: nat)
    requires i < |listed| && Distinct(listed) && forall q | q in listed :: q in staged
    ensures var (t, back, p) := (Swapped(prior, staged, listed, i + 1), Swapped(prior, staged, listed, i), listed[i]);
      && (p !in prior ==> t - {p} == back && back - {p} == back)
      && (p in prior ==> t[p := prior[p]] == back && (t - {p})[p := prior[p]] == back)
      && (p in prior ==> (back - {p})[p := prior[p]] == back)
      && (p in back <==> p in prior) && (p in prior ==> back[p] == prior[p])
  {
    SwappedAt(prior, staged, listed, i, listed[i]);
    assert listed[i] !in listed[..i];
  }

  // ---------------------------------------------------------------- the file system

  /** The calls on files that one publish makes, each of which may fail. */
  datatype Call =
    | MakeRoots
    | MakeParent(item: nat)
    | StatLive(item: nat)
    | ClearSlot(item: nat)
    | MoveOut(item: nat)
    | MoveIn(item: nat)
    | MoveManifest
    // undoing
    | PutBack(item: nat)
    | Remove(item: nat)
    | StatSlot(item: nat)
    | Restore(item: nat)

  class FileTree {
    var live: Tree
    var staged: Tree
    var trash: map<nat, Entry>
    ghost var seen: seq<Tree>

    constructor (live: Tree, staged: Tree)
      ensures this.live == live && this.staged == staged && trash == map[] && seen == []
    {
      this.live, this.staged, this.trash := live, staged, map[];
      seen := [];
    }

    /** rename(2) of a staged entry over the live name. */
    method MoveIntoPlace(rel: Path, fails: bool) returns (ok: bool)
      modifies this
      ensures ok <==> !fails && old(rel in staged)
      ensures seen == old(seen) + [live] && trash == old(trash)
      ensures ok ==> rel in old(staged) && live == old(live)[rel := old(staged)[rel]] && staged == old(staged) - {rel}
      ensures !ok ==> live == old(live) && staged == old(staged)
    {
      ok := !fails && rel in staged;
      if ok {
        live := live[rel := staged[rel]];
        staged := staged - {rel};
      }
      seen := seen + [live];
    }

    method MoveToTrash(rel: Path, slot: nat, fails: bool) returns (ok: bool)
      modifies this
      ensures ok <==> !fails && old(rel in live)
      ensures seen == old(seen) + [live] && staged == old(staged)
      ensures ok ==> rel in old(live) && live == old(live) - {rel} && trash == old(trash)[slot := old(live)[rel]]
      ensures !ok ==> live == old(live) && trash == old(trash)
    {
      ok := !fails && rel in live;
      if ok {
        trash := trash[slot := live[rel]];
        live := live - {rel};
      }
      seen := seen + [live];
    }

    method Restore(slot: nat, rel: Path, fails: bool) returns (ok: bool)
      modifies this
      ensures ok <==> !fails && old(slot in trash)
      ensures seen == old(seen) + [live] && staged == old(staged)
      ensures ok ==> slot in old(trash) && live == old(live)[rel := old(trash)[slot]] && trash == old(trash) - {slot}
      ensures !ok ==> live == old(live) && trash == old(trash)
    {
      ok := !fails && slot in trash;
      if ok {
        live := live[rel := trash[slot]];
        trash := trash - {slot};
      }
      seen := seen + [live];
    }

    method RemoveLive(rel: Path, fails: bool) returns (ok: bool)
      modifies this`live, this`seen
      ensures ok <==> !fails
      ensures seen == old(seen) + [live]
      ensures live == if ok then old(live) - {rel} else old(live)
    {
      ok := !fails;
      if ok {
        live := live - {rel};
      }
      seen := seen + [live];
    }

    method ClearSlot(slot: nat, fails: bool) returns (ok: bool)
      modifies this`trash
      ensures ok <==> !fails
      ensures trash == if ok then old(trash) - {slot} else old(trash)
    {
      ok := !fails;
      if ok {
        trash := trash - {slot};
      }
    }
  }

  // ---------------------------------------------------------------- the publisher

  class Publisher {
    const tree: FileTree
    const dirs: seq<Path>
    const files: seq<Path>
    const manifest: Path
    const faults: set<Call>
    var replaced: seq<Path>
    var replacedExisting: bool
    ghost const prior: Tree
    ghost const staged: Tree
    ghost const before: nat

    ghost function Listed(): seq<Path> {
      dirs + files
    }

    ghost predicate Declared() {
      && Distinct(dirs + files) && manifest !in dirs + files && MANIFEST_PATH !in dirs + files
    }

    constructor (tree: FileTree, dirs: seq<Path>, files: seq<Path>, manifest: Path, faults: set<Call>)
      requires tree.trash == map[]
      requires Distinct(dirs + files) && manifest !in dirs + files && MANIFEST_PATH !in dirs + files
      ensures Declared() && replaced == [] && !replacedExisting
      ensures this.tree == tree && this.dirs == dirs && this.files == files && this.manifest == manifest
      ensures this.faults == faults
      ensures prior == tree.live && staged == tree.staged && before == |tree.seen|
    {
      this.tree, this.dirs, this.files, this.manifest, this.faults := tree, dirs, files, manifest, faults;
      replaced, replacedExisting := [], false;
      prior, staged, before := tree.live, tree.staged, |tree.seen|;
    }

    ghost predicate Checked() {
      forall p | p in dirs + files :: p in staged
    }

    /** The entry of item k cannot be displaced: a call fails, or what is live is of the other kind. */
    ghost predicate StaysInTheWay(k: nat)
      requires k < |Listed()|
    {
      var rel := Listed()[k];
      StatLive(k) in faults
      || (rel in prior && (prior[rel].Directory? != (k < |dirs|) || ClearSlot(k) in faults || MoveOut(k) in faults))
    }

    ghost function ItemOutcome(k: nat): Outcome
      requires k < |Listed()|
    {
      if MakeParent(k) in faults then FailedAt(ParentCreate, k)
      else if StaysInTheWay(k) then FailedAt(Displace, k)
      else if MoveIn(k) in faults then FailedAt(Move, k)
      else Published
    }

    /** The first failure from item k on. */
    ghost function FirstFailure(k: nat): Outcome
      requires k <= |Listed()|
      decreases |Listed()| - k
    {
      if k == |Listed()| then Published
      else if ItemOutcome(k).Published? then FirstFailure(k + 1) else ItemOutcome(k)
    }

    /** How a publish must end, by the calls that fail. */
    ghost function Ending(): Outcome {
      if dirs == [] || !CheckedKinds(staged) then Refused
      else if MakeRoots in faults then Unprepared
      else if !FirstFailure(0).Published? then FirstFailure(0)
      else if MoveManifest in faults then FailedAt(Manifest, |Listed()|)
      else Published
    }

    /** No call that undoes something fails. */
    ghost predicate UndoWorks() {
      forall i: nat :: PutBack(i) !in faults && Remove(i) !in faults && StatSlot(i) !in faults && Restore(i) !in faults
    }

    /** Every tree a reader could have seen since the publish began. */
    ghost predicate SeenAllowed()
      reads tree
    {
      && before <= |tree.seen|
      && forall i | before <= i < |tree.seen| :: Allowed(tree.seen[i], prior, staged, Listed(), manifest)
    }

    /** The first k items are in, in order, and their slots are filled. */
    ghost predicate At(k: nat)
      requires Checked()
      reads this, tree
    {
      && Declared() && k <= |Listed()|
      && tree.live == Swapped(prior, staged, Listed(), k)
      && tree.staged == staged - (set p | p in Listed()[..k])
      && Slots(tree.trash, prior, Listed(), k) && (forall i | i in tree.trash :: i < k)
      && replaced == Listed()[..k]
      && (replacedExisting <==> exists i | 0 <= i < k :: Listed()[i] in prior)
      && SeenAllowed()
    }

    lemma SeenMore(earlier: seq<Tree>)
      requires before <= |earlier| && tree.seen == earlier + [tree.live]
      requires forall i | before <= i < |earlier| :: Allowed(earlier[i], prior, staged, Listed(), manifest)
      requires Allowed(tree.live, prior, staged, Listed(), manifest)
      ensures SeenAllowed()
    {
    }

    function Item(k: nat): (rel: Path)
      requires k < |dirs + files|
      ensures rel == (dirs + files)[k]
    {
      if k < |dirs| then dirs[k] else files[k - |dirs|]
    }

    /** stat, clear the slot, rename away. Reports whether there was anything to displace. */
    method DisplaceItem(k: nat, isDir: bool) returns (moved: bool, ok: bool)
      requires Checked() && At(k) && k < |Listed()| && isDir == (k < |dirs|)
      modifies tree
      ensures ok <==> !StaysInTheWay(k)
      ensures tree.staged == old(tree.staged) && SeenAllowed()
      ensures !ok ==> tree.live == old(tree.live) && tree.trash == old(tree.trash)
      ensures ok ==> moved == (Listed()[k] in prior)
      ensures ok ==> tree.live == old(tree.live) - {Listed()[k]}
      ensures ok ==> tree.trash == if moved then old(tree.trash)[k := prior[Listed()[k]]] else old(tree.trash)
    {
      var rel := Item(k);
      SwappedBack(prior, staged, Listed(), k);
      moved, ok := false, false;
      if StatLive(k) in faults {
        return;
      }
      if rel !in tree.live {
        return false, true;
      }
      if tree.live[rel].Directory? != isDir {
        return;
      }
      var cleared := tree.ClearSlot(k, ClearSlot(k) in faults);
      assert tree.trash == old(tree.trash);
      if !cleared {
        return;
      }
      SwappedSafe(prior, staged, Listed(), k, manifest);
      StaysSafe(tree.live, prior, staged, Listed(), manifest, rel);
      ok := tree.MoveToTrash(rel, k, MoveOut(k) in faults);
      moved := ok;
      SeenMore(old(tree.seen));
    }

    /** The pass ended on an item: a failed move keeps the items before it, any other failure undoes them. */
    ghost predicate EndedOn(outcome: Outcome, undone: bool)
      requires Checked()
      reads this, tree
    {
      && outcome.FailedAt? && outcome.item < |Listed()| && outcome.stage != Manifest && SeenAllowed()
      && (undone ==> tree.live == Swapped(prior, staged, Listed(), if outcome.stage.Move? then outcome.item else 0))
      && (UndoWorks() ==> undone)
    }

    /** Item k could not be swapped in: everything before it goes back. */
    method TakeBack(k: nat, stage: Stage) returns (outcome: Outcome, ghost undone: bool)
      requires Checked() && Declared() && k < |Listed()| && replaced == Listed()[..k]
      requires (stage.ParentCreate? || stage.Displace?)
      requires tree.live == Swapped(prior, staged, Listed(), k) && Slots(tree.trash, prior, Listed(), k)
      requires SeenAllowed()
      modifies tree
      ensures EndedOn(outcome, undone) && outcome == FailedAt(stage, k)
    {
      undone := Rollback(k);
      outcome := FailedAt(stage, k);
    }

    /** One item: parent, displace, move. A failed move puts back its own displaced entry and nothing else. */
    method SwapIn(k: nat, isDir: bool) returns (outcome: Outcome, ghost undone: bool)
      requires Checked() && At(k) && k < |Listed()| && isDir == (k < |dirs|)
      modifies this`replaced, this`replacedExisting, tree
      ensures outcome == ItemOutcome(k)
      ensures if outcome.Published? then undone && At(k + 1) else EndedOn(outcome, undone) && outcome.item == k
    {
      if MakeParent(k) in faults {
        outcome, undone := TakeBack(k, ParentCreate);
        return;
      }
      var moved, ok := DisplaceItem(k, isDir);
      if !ok {
        outcome, undone := TakeBack(k, Displace);
        return;
      }
      ok, undone := MoveItem(k, moved);
      if !ok {
        replacedExisting := replacedExisting || moved;
        return FailedAt(Move, k), undone;
      }
      Publish1(k, moved);
      return Published, true;
    }

    /** Bookkeeping of an item that is in place. */
    method Publish1(k: nat, moved: bool)
      requires Checked() && Declared() && k < |Listed()| && replaced == Listed()[..k] && SeenAllowed()
      requires tree.live == Swapped(prior, staged, Listed(), k + 1)
      requires tree.staged == staged - (set p | p in Listed()[..k]) - {Listed()[k]}
      requires Slots(tree.trash, prior, Listed(), k + 1) && forall i | i in tree.trash :: i < k + 1
      requires replacedExisting <==> exists i | 0 <= i < k :: Listed()[i] in prior
      requires moved == (Listed()[k] in prior)
      modifies this`replaced, this`replacedExisting
      ensures At(k + 1)
    {
      assert Listed()[..k + 1] == Listed()[..k] + [Listed()[k]];
      replacedExisting := replacedExisting || moved;
      replaced := replaced + [Item(k)];
    }

    /** The rename into place, and the restore of this item alone when it fails. */
    method MoveItem(k: nat, moved: bool) returns (ok: bool, ghost undone: bool)
      requires Checked() && Declared() && k < |Listed()| && moved == (Listed()[k] in prior) && SeenAllowed()
      requires tree.live == Swapped(prior, staged, Listed(), k) - {Listed()[k]}
      requires moved ==> k in tree.trash && tree.trash[k] == prior[Listed()[k]]
      requires tree.staged == staged - (set p | p in Listed()[..k])
      modifies tree
      ensures SeenAllowed() && (ok <==> MoveIn(k) !in faults) && (UndoWorks() ==> undone)
      ensures ok ==> tree.live == Swapped(prior, staged, Listed(), k + 1) && tree.trash == old(tree.trash)
      ensures ok ==> tree.staged == old(tree.staged) - {Listed()[k]}
      ensures !ok && undone ==> tree.live == Swapped(prior, staged, Listed(), k)
    {
      undone := true;
      var rel := Item(k);
      DisplacedIsSafe(k);
      ok := tree.MoveIntoPlace(rel, MoveIn(k) in faults);
      SeenMore(old(tree.seen));
      if !ok && moved {
        undone := RestoreOwn(k);
      }
    }

    /**
     * With item k out of the way the tree is safe, and it stays so, and one item further, when the staged one comes
     * in.
     */
    lemma DisplacedIsSafe(k: nat)
      requires Checked() && Declared() && k < |Listed()|
      ensures var (out, rel) := (Swapped(prior, staged, Listed(), k) - {Listed()[k]}, Listed()[k]);
        && Safe(out, prior, staged, Listed(), manifest)
        && rel in staged
        && out[rel := staged[rel]] == Swapped(prior, staged, Listed(), k + 1)
        && Safe(out[rel := staged[rel]], prior, staged, Listed(), manifest)
        && (rel !in prior ==> out == Swapped(prior, staged, Listed(), k))
    {
      var rel := Listed()[k];
      SwappedBack(prior, staged, Listed(), k);
      SwappedSafe(prior, staged, Listed(), k, manifest);
      StaysSafe(Swapped(prior, staged, Listed(), k), prior, staged, Listed(), manifest, rel);
      StaysSafe(Swapped(prior, staged, Listed(), k) - {rel}, prior, staged, Listed(), manifest, rel);
      assert Swapped(prior, staged, Listed(), k + 1) == Swapped(prior, staged, Listed(), k)[rel := staged[rel]];
    }

    /** The displaced entry of an item whose own rename failed goes back. */
    method RestoreOwn(k: nat) returns (ghost undone: bool)
      requires Checked() && Declared() && k < |Listed()| && Listed()[k] in prior && SeenAllowed()
      requires tree.live == Swapped(prior, staged, Listed(), k) - {Listed()[k]}
      requires k in tree.trash && tree.trash[k] == prior[Listed()[k]]
      modifies tree
      ensures SeenAllowed() && (UndoWorks() ==> undone)
      ensures undone ==> tree.live == Swapped(prior, staged, Listed(), k)
    {
      SwappedBack(prior, staged, Listed(), k);
      SwappedSafe(prior, staged, Listed(), k, manifest);
      StaysSafe(Swapped(prior, staged, Listed(), k), prior, staged, Listed(), manifest, Listed()[k]);
      undone := tree.Restore(k, Item(k), PutBack(k) in faults);
      SeenMore(old(tree.seen));
    }

    /** A rollback that has come down to item i; `intact` while every undo step so far succeeded. */
    ghost predicate Undoing(i: nat, intact: bool)
      requires Checked() && Declared() && i <= |Listed()|
      reads tree
    {
      && SeenAllowed() && Slots(tree.trash, prior, Listed(), i)
      && Safe(tree.live, prior, staged, Listed(), manifest)
      && (intact ==> tree.live == Swapped(prior, staged, Listed(), i))
    }

    /** Newest first: remove what was swapped in, put back what its slot holds. Best effort. */
    method Rollback(k: nat) returns (ghost undone: bool)
      requires Checked() && Declared() && k <= |Listed()| && replaced == Listed()[..k]
      requires tree.live == Swapped(prior, staged, Listed(), k) && Slots(tree.trash, prior, Listed(), k)
      requires SeenAllowed()
      modifies tree
      ensures SeenAllowed() && (UndoWorks() ==> undone)
      ensures undone ==> tree.live == prior
    {
      undone := true;
      SwappedSafe(prior, staged, Listed(), k, manifest);
      var i := k;
      while i > 0
        invariant 0 <= i <= k && Undoing(i, undone) && (UndoWorks() ==> undone)
      {
        i := i - 1;
        var rel := replaced[i];
        assert rel == Listed()[i] && rel in Listed();
        if rel != MANIFEST_PATH {
          undone := UndoItem(i, rel, undone);
        }
      }
    }

    method UndoItem(i: nat, rel: Path, ghost intact: bool) returns (ghost undone: bool)
      requires Checked() && Declared() && i < |Listed()| && rel == Listed()[i] && Undoing(i + 1, intact)
      modifies tree
      ensures Undoing(i, undone) && (UndoWorks() && intact ==> undone)
    {
      undone := RemoveItem(i, rel, intact);
      SwappedBack(prior, staged, Listed(), i);
      var visible := i in tree.trash;
      if StatSlot(i) in faults {
        visible, undone := false, false;
      }
      if visible {
        ghost var earlier := tree.seen;
        StaysSafe(tree.live, prior, staged, Listed(), manifest, rel);
        var back := tree.Restore(i, rel, Restore(i) in faults);
        SeenMore(earlier);
        undone := undone && back;
      }
    }

    method RemoveItem(i: nat, rel: Path, ghost intact: bool) returns (ghost undone: bool)
      requires Checked() && Declared() && i < |Listed()| && rel == Listed()[i] && Undoing(i + 1, intact)
      modifies tree
      ensures SeenAllowed() && Slots(tree.trash, prior, Listed(), i + 1) && tree.trash == old(tree.trash)
      ensures Safe(tree.live, prior, staged, Listed(), manifest) && (UndoWorks() && intact ==> undone)
      ensures undone ==> tree.live == Swapped(prior, staged, Listed(), i) - {rel}
    {
      SwappedBack(prior, staged, Listed(), i);
      StaysSafe(tree.live, prior, staged, Listed(), manifest, rel);
      var removed := tree.RemoveLive(rel, Remove(i) in faults);
      SeenMore(old(tree.seen));
      undone := intact && removed;
      if undone {
        var t := Swapped(prior, staged, Listed(), i);
        assert t[rel := staged[rel]] - {rel} == t - {rel};
      }
    }

    /** The checks before anything moves: every declared directory, file and the manifest is staged as its kind. */
    method Check() returns (ok: bool)
      ensures ok <==> dirs != [] && CheckedKinds(tree.staged)
    {
      if |dirs| == 0 {
        return false;
      }
      ok := (forall p | p in dirs :: p in tree.staged && tree.staged[p].Directory?)
        && manifest in tree.staged && tree.staged[manifest].File?
        && (forall p | p in files :: p in tree.staged && tree.staged[p].File?);
    }

    predicate CheckedKinds(from: Tree) {
      && (forall p | p in dirs :: p in from && from[p].Directory?)
      && manifest in from && from[manifest].File?
      && (forall p | p in files :: p in from && from[p].File?)
    }

    /**
     * `Publish`. Every tree seen on the way is allowed; success swaps everything in, manifest last; a failure whose
     * undo steps all work leaves the old tree, except that a failed move leaves the items before it published.
     */
    method Publish() returns (outcome: Outcome, ghost undone: bool)
      requires Declared() && replaced == [] && !replacedExisting
      requires tree.live == prior && tree.staged == staged && tree.trash == map[] && |tree.seen| == before
      modifies this`replaced, this`replacedExisting, tree
      ensures outcome == Ending() && (UndoWorks() ==> undone)
      ensures SeenAllowed()
      ensures outcome.Refused? <==> dirs == [] || !CheckedKinds(staged)
      ensures outcome.Refused? || outcome.Unprepared? ==> tree.live == prior
      ensures outcome.Published? ==> Complete()
      ensures outcome.Published? ==> (replacedExisting <==> exists i | 0 <= i < |Listed()| :: Listed()[i] in prior)
      ensures outcome.FailedAt? && undone && !outcome.stage.Move? ==> tree.live == prior
      ensures outcome.FailedAt? && undone && outcome.stage.Move? ==>
        Checked() && outcome.item < |Listed()| && tree.live == Swapped(prior, staged, Listed(), outcome.item)
      ensures outcome.FailedAt? && undone && |Listed()| == 1 ==> tree.live == prior
    {
      undone := true;
      var ok := Check();
      if !ok {
        return Refused, true;
      }
      assert Checked();
      if MakeRoots in faults {
        return Unprepared, true;
      }
      assert Listed()[..0] == [];
      outcome, undone := SwapAll();
    }

    /** Everything listed and the manifest are the staged ones. */
    ghost predicate Complete()
      reads this, tree
    {
      && Checked() && manifest in staged && replaced == Listed() + [manifest]
      && tree.live == Swapped(prior, staged, Listed(), |Listed()|)[manifest := staged[manifest]]
    }

    method SwapAll() returns (outcome: Outcome, ghost undone: bool)
      requires Checked() && manifest in staged && At(0)
      modifies this`replaced, this`replacedExisting, tree
      ensures SeenAllowed() && (UndoWorks() ==> undone)
      ensures outcome == if !FirstFailure(0).Published? then FirstFailure(0)
        else if MoveManifest in faults then FailedAt(Manifest, |Listed()|) else Published
      ensures outcome.Published? || outcome.FailedAt?
      ensures outcome.Published? ==> Complete()
      ensures outcome.Published? ==> (replacedExisting <==> exists i | 0 <= i < |Listed()| :: Listed()[i] in prior)
      ensures outcome.FailedAt? && undone && !outcome.stage.Move? ==> tree.live == prior
      ensures outcome.FailedAt? && outcome.stage.Move? ==> outcome.item < |Listed()|
      ensures outcome.FailedAt? && undone && outcome.stage.Move? ==>
        tree.live == Swapped(prior, staged, Listed(), outcome.item)
    {
      outcome, undone := SwapItems();
      if outcome.Published? {
        assert Listed()[..|Listed()|] == Listed();
        outcome, undone := SwapManifest();
      }
    }

    /** Every listed directory and file, in order; the first failure ends the pass. */
    method SwapItems() returns (outcome: Outcome, ghost undone: bool)
      requires Checked() && At(0)
      modifies this`replaced, this`replacedExisting, tree
      ensures outcome == FirstFailure(0)
      ensures if outcome.Published? then undone && At(|Listed()|) else EndedOn(outcome, undone)
    {
      var k, n := 0, |dirs| + |files|;
      outcome, undone := Published, true;
      while k < n && outcome.Published?
        invariant 0 <= k <= n == |Listed()|
        invariant FirstFailure(0) == if outcome.Published? then FirstFailure(k) else outcome
        invariant if outcome.Published? then undone && At(k) else EndedOn(outcome, undone)
      {
        outcome, undone := SwapIn(k, k < |dirs|);
        k := k + 1;
      }
    }

    method SwapManifest() returns (outcome: Outcome, ghost undone: bool)
      requires Checked() && At(|Listed()|) && manifest in staged
      modifies this`replaced, tree
      ensures SeenAllowed() && (UndoWorks() ==> undone)
      ensures outcome.Published? <==> MoveManifest !in faults
      ensures outcome.Published? ==> replaced == old(replaced) + [manifest]
      ensures outcome.Published? ==>
        tree.live == Swapped(prior, staged, Listed(), |Listed()|)[manifest := staged[manifest]]
      ensures !outcome.Published? ==> outcome == FailedAt(Manifest, |Listed()|) && (undone ==> tree.live == prior)
    {
      SwappedSafe(prior, staged, Listed(), |Listed()|, manifest);
      ManifestAllowed();
      undone := true;
      var ok := tree.MoveIntoPlace(manifest, MoveManifest in faults);
      SeenMore(old(tree.seen));
      if !ok {
        undone := Rollback(|dirs| + |files|);
        return FailedAt(Manifest, |dirs| + |files|), undone;
      }
      replaced := replaced + [manifest];
      return Published, true;
    }

    lemma ManifestAllowed()
      requires Checked() && Declared() && manifest in staged
      ensures var t := Swapped(prior, staged, Listed(), |Listed()|);
        Allowed(t[manifest := staged[manifest]], prior, staged, Listed(), manifest)
    {
      SwappedSafe(prior, staged, Listed(), |Listed()|, manifest);
      forall p | p in Listed()
        ensures var t := Swapped(prior, staged, Listed(), |Listed()|); p in t && t[p] == staged[p]
      {
        SwappedAt(prior, staged, Listed(), |Listed()|, p);
        assert Listed()[..|Listed()|] == Listed();
      }
    }
  }

  const OLD_PAIR: Tree := map["a" := Directory("old"), "b" := Directory("old")]

  const NEW_PAIR: Tree := map["a" := Directory("new"), "b" := Directory("new"), "m" := File("new")]

  lemma PairEndsMixed()
    ensures Distinct(["a", "b"]) && "a" in NEW_PAIR && "b" in NEW_PAIR && forall p | p in ["a", "b"] :: p in NEW_PAIR
    ensures var t := Swapped(OLD_PAIR, NEW_PAIR, ["a", "b"], 1);
      t != OLD_PAIR && t != Swapped(OLD_PAIR, NEW_PAIR, ["a", "b"], 2)
  {
    assert Changes(OLD_PAIR, NEW_PAIR, ["a", "b"][0]) && Changes(OLD_PAIR, NEW_PAIR, ["a", "b"][1]);
    MixedExactlyWhenBothSidesChange(OLD_PAIR, NEW_PAIR, ["a", "b"], 1);
  }

  /**
   * All-or-nothing fails for two directories: when the rename of the second is the one call that fails, `Publish`
   * ends there with the first published alone.
   */
  method TwoDirectoriesCanEndMixed() returns (outcome: Outcome, live: Tree)
    ensures outcome == FailedAt(Move, 1)
    ensures forall p | p in ["a", "b"] :: p in NEW_PAIR
    ensures live != OLD_PAIR && live != Swapped(OLD_PAIR, NEW_PAIR, ["a", "b"], 2)
  {
    PairEndsMixed();
    var tree := new FileTree(OLD_PAIR, NEW_PAIR);
    var publisher := new Publisher(tree, ["a", "b"], [], "m", {MoveIn(1)});
    assert ["a", "b"] + [] == ["a", "b"];
    assert publisher.FirstFailure(0) == publisher.FirstFailure(1) == FailedAt(Move, 1);
    ghost var undone;
    outcome, undone := publisher.Publish();
    live := tree.live;
  }
}
