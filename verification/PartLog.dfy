/**
 * One archive partition as its single writer and its readers see it: the published parts in index
 * order, the rows the open part holds in memory, and the writer's row counter.
 */
module PartLog {
  import opened Collections
  import opened Options

  /** `rows` is the writer's counter. It is reset by a successful finalise only. */
  datatype Log<T> = Log(published: seq<seq<T>>, open: Option<seq<T>>, rows: nat)

  /** What goes wrong during one append: creating the part, the encoder write, closing or renaming. */
  datatype Faults = Faults(create: bool, write: bool, finalize: bool)

  const NO_FAULTS := Faults(false, false, false)

  function OpenRows<T>(log: Log<T>): seq<T> {
    if log.open.Some? then log.open.value else []
  }

  function AfterFinalize<T>(log: Log<T>, fails: bool): Log<T> {
    match log.open
    case None => log
    case Some(held) => if fails then log.(open := None) else Log(log.published + [held], None, 0)
  }

  /** The log after one append and whether the append reported success. */
  function AfterAppend<T>(log: Log<T>, row: T, rowsPerPart: nat, f: Faults): (Log<T>, bool) {
    if log.open.None? && f.create then (log, false)
    else
      var ready := log.(open := Some(OpenRows(log)));
      if f.write then (ready, false)
      else
        var written := Log(log.published, Some(OpenRows(log) + [row]), log.rows + 1);
        if written.rows >= rowsPerPart then (AfterFinalize(written, f.finalize), !f.finalize)
        else (written, true)
  }

  /** Does the append reach the row threshold, so that it ends in a finalise? */
  predicate Rotates<T>(log: Log<T>, rowsPerPart: nat, f: Faults) {
    (log.open.Some? || !f.create) && !f.write && log.rows + 1 >= rowsPerPart
  }

  /** A crash leaves the published parts; a new process starts with a new counter. */
  function AfterCrash<T>(log: Log<T>): Log<T> {
    Log(log.published, None, 0)
  }

  datatype Op<T> = Append(row: T, f: Faults) | Flush(fails: bool) | Restart

  function Apply<T>(log: Log<T>, op: Op<T>, rowsPerPart: nat): Log<T> {
    match op
    case Append(row, f) => AfterAppend(log, row, rowsPerPart, f).0
    case Flush(fails) => AfterFinalize(log, fails)
    case Restart => AfterCrash(log)
  }

  function Exec<T>(log: Log<T>, ops: seq<Op<T>>, rowsPerPart: nat): Log<T>
    decreases |ops|
  {
    if ops == [] then log else Exec(Apply(log, ops[0], rowsPerPart), ops[1..], rowsPerPart)
  }

  function Flatten<T>(parts: seq<seq<T>>): seq<T> {
    if parts == [] then [] else Flatten(parts[..|parts| - 1]) + parts[|parts| - 1]
  }

  lemma FlattenPublish<T>(parts: seq<seq<T>>, part: seq<T>)
    ensures Flatten(parts + [part]) == Flatten(parts) + part
  {
    assert (parts + [part])[..|parts|] == parts;
  }

  function Content<T>(log: Log<T>): seq<T> {
    Flatten(log.published) + OpenRows(log)
  }

  function Empty<T>(): Log<T> {
    Log([], None, 0)
  }

  // ---------------------------------------------------------------- fault-free runs

  predicate FaultFree<T>(ops: seq<Op<T>>) {
    forall i | 0 <= i < |ops| :: (ops[i].Append? && ops[i].f == NO_FAULTS) || (ops[i].Flush? && !ops[i].fails)
  }

  function AppendedRows<T>(ops: seq<Op<T>>): seq<T> {
    if ops == [] then []
    else (if ops[0].Append? then [ops[0].row] else []) + AppendedRows(ops[1..])
  }

  /** What a fault-free writer keeps true: full parts behind it, a non-empty part below the threshold open. */
  predicate Tidy<T>(log: Log<T>, rowsPerPart: nat) {
    && log.rows == |OpenRows(log)| < rowsPerPart
    && (log.open.Some? ==> log.open.value != [])
    && forall i | 0 <= i < |log.published| :: 1 <= |log.published[i]| <= rowsPerPart
  }

  lemma FaultFreeAppend<T>(log: Log<T>, row: T, rowsPerPart: nat)
    requires rowsPerPart >= 1 && Tidy(log, rowsPerPart)
    ensures Tidy(AfterAppend(log, row, rowsPerPart, NO_FAULTS).0, rowsPerPart)
    ensures Content(AfterAppend(log, row, rowsPerPart, NO_FAULTS).0) == Content(log) + [row]
  {
    var held := OpenRows(log) + [row];
    var next := AfterAppend(log, row, rowsPerPart, NO_FAULTS).0;
    if |held| == rowsPerPart {
      assert next == Log(log.published + [held], None, 0);
      FlattenPublish(log.published, held);
    } else {
      assert next == Log(log.published, Some(held), |held|);
    }
    Regroup(Flatten(log.published), OpenRows(log), [row]);
  }

  lemma FaultFreeFlush<T>(log: Log<T>, rowsPerPart: nat)
    requires rowsPerPart >= 1 && Tidy(log, rowsPerPart)
    ensures Tidy(AfterFinalize(log, false), rowsPerPart)
    ensures Content(AfterFinalize(log, false)) == Content(log)
  {
    FlattenPublish(log.published, OpenRows(log));
  }

  /** One fault-free operation adds its row, if it has one, at the end. */
  lemma FaultFreeStep<T>(log: Log<T>, op: Op<T>, rowsPerPart: nat)
    requires rowsPerPart >= 1 && Tidy(log, rowsPerPart) && FaultFree([op])
    ensures Tidy(Apply(log, op, rowsPerPart), rowsPerPart)
    ensures Content(Apply(log, op, rowsPerPart)) == Content(log) + AppendedRows([op])
  {
    assert [op][0] == op && [op][1..] == [];
    if op.Append? {
      FaultFreeAppend(log, op.row, rowsPerPart);
    } else {
      FaultFreeFlush(log, rowsPerPart);
    }
  }

  lemma FirstOperation<T>(ops: seq<Op<T>>)
    requires ops != [] && FaultFree(ops)
    ensures FaultFree([ops[0]]) && FaultFree(ops[1..])
    ensures AppendedRows(ops) == AppendedRows([ops[0]]) + AppendedRows(ops[1..])
  {
    assert [ops[0]][0] == ops[0] && [ops[0]][1..] == [];
    assert forall i | 0 <= i < |ops[1..]| :: ops[1..][i] == ops[i + 1];
  }

  /** Every fault-free run keeps exactly the appended rows, in order, in parts of bounded non-zero size. */
  lemma {:induction false} FaultFreeRunKeepsOrder<T>(log: Log<T>, ops: seq<Op<T>>, rowsPerPart: nat)
    requires rowsPerPart >= 1 && Tidy(log, rowsPerPart) && FaultFree(ops)
    ensures Tidy(Exec(log, ops, rowsPerPart), rowsPerPart)
    ensures Content(Exec(log, ops, rowsPerPart)) == Content(log) + AppendedRows(ops)
    decreases |ops|
  {
    if ops != [] {
      FirstOperation(ops);
      FaultFreeStep(log, ops[0], rowsPerPart);
      FaultFreeRunKeepsOrder(Apply(log, ops[0], rowsPerPart), ops[1..], rowsPerPart);
      Regroup(Content(log), AppendedRows([ops[0]]), AppendedRows(ops[1..]));
    }
  }

  // ---------------------------------------------------------------- runs with faults and crashes

  /** Whatever fails, a published part stays where it is. */
  lemma {:induction false} PublishedPartsOnlyGrow<T>(log: Log<T>, ops: seq<Op<T>>, rowsPerPart: nat)
    ensures log.published <= Exec(log, ops, rowsPerPart).published
    decreases |ops|
  {
    if ops != [] {
      PublishedPartsOnlyGrow(Apply(log, ops[0], rowsPerPart), ops[1..], rowsPerPart);
    }
  }

  /** Rows the encoder accepted, whether or not the append as a whole reported success. */
  function Encoded<T>(log: Log<T>, op: Op<T>): seq<T> {
    if op.Append? && !(log.open.None? && op.f.create) && !op.f.write then [op.row] else []
  }

  /** Rows that were in memory and went down with a failed finalise or a crash. */
  function Dropped<T>(log: Log<T>, op: Op<T>, rowsPerPart: nat): seq<T> {
    match op
    case Append(row, f) => if Rotates(log, rowsPerPart, f) && f.finalize then OpenRows(log) + [row] else []
    case Flush(fails) => if fails then OpenRows(log) else []
    case Restart => OpenRows(log)
  }

  function EncodedIn<T>(log: Log<T>, ops: seq<Op<T>>, rowsPerPart: nat): seq<T>
    decreases |ops|
  {
    if ops == [] then []
    else Encoded(log, ops[0]) + EncodedIn(Apply(log, ops[0], rowsPerPart), ops[1..], rowsPerPart)
  }

  function DroppedIn<T>(log: Log<T>, ops: seq<Op<T>>, rowsPerPart: nat): seq<T>
    decreases |ops|
  {
    if ops == [] then []
    else Dropped(log, ops[0], rowsPerPart) + DroppedIn(Apply(log, ops[0], rowsPerPart), ops[1..], rowsPerPart)
  }

  lemma FinalizeConserves<T>(log: Log<T>, fails: bool)
    ensures multiset(Content(AfterFinalize(log, fails))) + multiset(if fails then OpenRows(log) else [])
         == multiset(Content(log))
  {
    FlattenPublish(log.published, OpenRows(log));
  }

  /** An append that loses nothing adds what it encoded at the end of the content. */
  lemma AppendKeeps<T>(log: Log<T>, row: T, rowsPerPart: nat, f: Faults)
    requires !(Rotates(log, rowsPerPart, f) && f.finalize)
    ensures Content(AfterAppend(log, row, rowsPerPart, f).0) == Content(log) + Encoded(log, Append(row, f))
  {
    if (log.open.Some? || !f.create) && !f.write {
      Regroup(Flatten(log.published), OpenRows(log), [row]);
      FlattenPublish(log.published, OpenRows(log) + [row]);
    }
  }

  lemma Split<T>(a: seq<T>, b: seq<T>, c: seq<T>)
    ensures multiset(a) + multiset(b + c) == multiset(a + b) + multiset(c)
  {
  }

  lemma AppendConserves<T>(log: Log<T>, row: T, rowsPerPart: nat, f: Faults)
    ensures multiset(Content(AfterAppend(log, row, rowsPerPart, f).0))
      + multiset(Dropped(log, Append(row, f), rowsPerPart))
         == multiset(Content(log)) + multiset(Encoded(log, Append(row, f)))
  {
    if Rotates(log, rowsPerPart, f) && f.finalize {
      Split(Flatten(log.published), OpenRows(log), [row]);
      assert Content(AfterAppend(log, row, rowsPerPart, f).0) == Flatten(log.published);
    } else {
      AppendKeeps(log, row, rowsPerPart, f);
      Split(Content(log), Encoded(log, Append(row, f)), []);
    }
  }

  lemma StepConserves<T>(log: Log<T>, op: Op<T>, rowsPerPart: nat)
    ensures multiset(Content(Apply(log, op, rowsPerPart))) + multiset(Dropped(log, op, rowsPerPart))
         == multiset(Content(log)) + multiset(Encoded(log, op))
  {
    match op
    case Append(row, f) => AppendConserves(log, row, rowsPerPart, f);
    case Flush(fails) => FinalizeConserves(log, fails);
    case Restart =>
  }

  lemma SumsChain<T>(last: multiset<T>, mid: multiset<T>, first: multiset<T>,
                     d1: multiset<T>, d2: multiset<T>, e1: multiset<T>, e2: multiset<T>)
    requires mid + d1 == first + e1 && last + d2 == mid + e2
    ensures last + (d1 + d2) == first + (e1 + e2)
  {
    assert last + (d1 + d2) == (last + d2) + d1 == (mid + d1) + e2;
  }

  /** Conservation: after any run every encoded row is published, still open, or was dropped - exactly once. */
  lemma {:induction false} RowsAreConserved<T>(log: Log<T>, ops: seq<Op<T>>, rowsPerPart: nat)
    ensures multiset(Content(Exec(log, ops, rowsPerPart))) + multiset(DroppedIn(log, ops, rowsPerPart))
         == multiset(Content(log)) + multiset(EncodedIn(log, ops, rowsPerPart))
    decreases |ops|
  {
    if ops != [] {
      StepConserves(log, ops[0], rowsPerPart);
      StepThenRest(log, Apply(log, ops[0], rowsPerPart), ops, rowsPerPart);
    }
  }

  lemma {:induction false} StepThenRest<T>(log: Log<T>, next: Log<T>, ops: seq<Op<T>>, rowsPerPart: nat)
    requires ops != [] && next == Apply(log, ops[0], rowsPerPart)
    requires multiset(Content(next)) + multiset(Dropped(log, ops[0], rowsPerPart))
          == multiset(Content(log)) + multiset(Encoded(log, ops[0]))
    ensures multiset(Content(Exec(log, ops, rowsPerPart))) + multiset(DroppedIn(log, ops, rowsPerPart))
         == multiset(Content(log)) + multiset(EncodedIn(log, ops, rowsPerPart))
    decreases |ops|, 0
  {
    RowsAreConserved(next, ops[1..], rowsPerPart);
    SumsChain(multiset(Content(Exec(next, ops[1..], rowsPerPart))), multiset(Content(next)), multiset(Content(log)),
              multiset(Dropped(log, ops[0], rowsPerPart)), multiset(DroppedIn(next, ops[1..], rowsPerPart)),
              multiset(Encoded(log, ops[0])), multiset(EncodedIn(next, ops[1..], rowsPerPart)));
  }

  /** The counter never undercounts the open part, so no fault lets a part outgrow the threshold. */
  predicate Bounded<T>(log: Log<T>, rowsPerPart: nat) {
    && |OpenRows(log)| <= log.rows
    && |OpenRows(log)| < rowsPerPart
    && forall i | 0 <= i < |log.published| :: |log.published[i]| <= rowsPerPart
  }

  lemma {:induction false} PartsStayBounded<T>(log: Log<T>, ops: seq<Op<T>>, rowsPerPart: nat)
    requires rowsPerPart >= 1 && Bounded(log, rowsPerPart)
    ensures Bounded(Exec(log, ops, rowsPerPart), rowsPerPart)
    decreases |ops|
  {
    if ops != [] {
      assert Bounded(Apply(log, ops[0], rowsPerPart), rowsPerPart);
      PartsStayBounded(Apply(log, ops[0], rowsPerPart), ops[1..], rowsPerPart);
    }
  }

  lemma AppendPublishesARow<T>(log: Log<T>, row: T, rowsPerPart: nat, f: Faults)
    ensures AfterAppend(log, row, rowsPerPart, f).0.published != log.published + [[]]
  {
    var next := AfterAppend(log, row, rowsPerPart, f).0.published;
    if Rotates(log, rowsPerPart, f) && !f.finalize {
      assert next[|log.published|] == OpenRows(log) + [row];
    }
    assert |log.published + [[]]| == |log.published| + 1 && (log.published + [[]])[|log.published|] == [];
  }

  /** A step publishes an empty part exactly when it is a flush that succeeds over an open part without rows. */
  lemma EmptyPartStep<T>(log: Log<T>, op: Op<T>, rowsPerPart: nat)
    ensures Apply(log, op, rowsPerPart).published == log.published + [[]]
      <==> op == Flush(false) && log.open == Some([])
  {
    assert (log.published + [[]])[|log.published|] == [];
    assert |log.published + [[]]| == |log.published| + 1;
    if op.Append? {
      AppendPublishesARow(log, op.row, rowsPerPart, op.f);
    } else if op == Flush(false) && log.open.Some? {
      assert Apply(log, op, rowsPerPart).published[|log.published|] == log.open.value;
    }
  }

  lemma {:induction false} ExecSnoc<T>(log: Log<T>, ops: seq<Op<T>>, op: Op<T>, rowsPerPart: nat)
    ensures Exec(log, ops + [op], rowsPerPart) == Apply(Exec(log, ops, rowsPerPart), op, rowsPerPart)
    decreases |ops|
  {
    if ops == [] {
      assert [] + [op] == [op] && [op][1..] == [];
    } else {
      assert (ops + [op])[0] == ops[0] && (ops + [op])[1..] == ops[1..] + [op];
      ExecSnoc(Apply(log, ops[0], rowsPerPart), ops[1..], op, rowsPerPart);
    }
  }

  predicate WriteFaults<T>(op: Op<T>) {
    op.Append? && op.f.write
  }

  /** The append at k opened the part that is open after the run, and it and all that followed failed to write. */
  predicate OnlyFailedWritesSince<T>(log: Log<T>, ops: seq<Op<T>>, k: nat, rowsPerPart: nat) {
    && k < |ops| && Exec(log, ops[..k], rowsPerPart).open.None?
    && (forall i | k <= i < |ops| :: WriteFaults(ops[i]))
    && !ops[k].f.create
  }

  lemma EmptyOpenStep<T>(log: Log<T>, op: Op<T>, rowsPerPart: nat)
    ensures Apply(log, op, rowsPerPart).open == Some([])
      <==> WriteFaults(op) && (log.open == Some([]) || (log.open.None? && !op.f.create))
  {
  }

  lemma OneMoreFailedWrite<T>(log: Log<T>, front: seq<Op<T>>, op: Op<T>, k: nat, rowsPerPart: nat)
    requires k < |front|
    ensures OnlyFailedWritesSince(log, front + [op], k, rowsPerPart)
      <==> OnlyFailedWritesSince(log, front, k, rowsPerPart) && WriteFaults(op)
  {
    var ops := front + [op];
    assert ops[..k] == front[..k] && ops[|front|] == op;
    assert forall i | 0 <= i < |front| :: ops[i] == front[i];
  }

  /** The open part is empty exactly when every append since the one that opened it failed to write. */
  lemma {:induction false} EmptyOpenPart<T>(log: Log<T>, ops: seq<Op<T>>, rowsPerPart: nat)
    requires log.open != Some([])
    ensures Exec(log, ops, rowsPerPart).open == Some([])
      <==> exists k :: OnlyFailedWritesSince(log, ops, k, rowsPerPart)
    decreases |ops|
  {
    if ops != [] {
      var front, last := ops[..|ops| - 1], ops[|ops| - 1];
      assert ops == front + [last];
      ExecSnoc(log, front, last, rowsPerPart);
      EmptyOpenPart(log, front, rowsPerPart);
      var before := Exec(log, front, rowsPerPart);
      EmptyOpenStep(before, last, rowsPerPart);
      forall k: nat | k < |front|
        ensures OnlyFailedWritesSince(log, ops, k, rowsPerPart)
          <==> OnlyFailedWritesSince(log, front, k, rowsPerPart) && WriteFaults(last)
      {
        OneMoreFailedWrite(log, front, last, k, rowsPerPart);
      }
      assert OnlyFailedWritesSince(log, ops, |front|, rowsPerPart)
        <==> before.open.None? && WriteFaults(last) && !last.f.create;
    }
  }

  /**
   * Over whole runs: an empty part is published exactly by a successful flush after a part was opened and every
   * append since failed to write.
   */
  lemma EmptyPartNeedsAWriteFault<T>(log: Log<T>, ops: seq<Op<T>>, op: Op<T>, rowsPerPart: nat)
    requires log.open != Some([])
    ensures Exec(log, ops + [op], rowsPerPart).published == Exec(log, ops, rowsPerPart).published + [[]]
      <==> op == Flush(false) && exists k :: OnlyFailedWritesSince(log, ops, k, rowsPerPart)
  {
    ExecSnoc(log, ops, op, rowsPerPart);
    EmptyPartStep(Exec(log, ops, rowsPerPart), op, rowsPerPart);
    EmptyOpenPart(log, ops, rowsPerPart);
  }

  predicate NoEmptyParts<T>(log: Log<T>) {
    log.open != Some([]) && forall i | 0 <= i < |log.published| :: log.published[i] != []
  }

  /** So whatever else fails, without an encoder fault no part is empty. */
  lemma {:induction false} NoEncoderFaultNoEmptyPart<T>(log: Log<T>, ops: seq<Op<T>>, rowsPerPart: nat)
    requires NoEmptyParts(log) && forall i | 0 <= i < |ops| :: !WriteFaults(ops[i])
    ensures NoEmptyParts(Exec(log, ops, rowsPerPart))
    decreases |ops|
  {
    if ops != [] {
      assert !WriteFaults(ops[0]);
      NoEncoderFaultNoEmptyPart(Apply(log, ops[0], rowsPerPart), ops[1..], rowsPerPart);
    }
  }

  lemma AWriteFaultCanPublishAnEmptyPart(row: int, rowsPerPart: nat)
    ensures Exec(Empty<int>(), [Append(row, Faults(false, true, false)), Flush(false)], rowsPerPart).published == [[]]
  {
    var ops := [Append(row, Faults(false, true, false)), Flush(false)];
    var ready := Apply(Empty<int>(), ops[0], rowsPerPart);
    assert ops[1..][0] == Flush(false) && ops[1..][1..] == [];
    assert Exec(ready, ops[1..], rowsPerPart) == Exec(Apply(ready, Flush(false), rowsPerPart), [], rowsPerPart);
  }

  // ---------------------------------------------------------------- the counter a failed finalise leaves behind

  function Appends<T>(rows: seq<T>): seq<Op<T>> {
    if rows == [] then [] else [Append(rows[0], NO_FAULTS)] + Appends(rows[1..])
  }

  /** How many rows the next part takes before it rotates, when the counter starts at `leftover`. */
  function NextPartSize(leftover: nat, rowsPerPart: nat): nat {
    if leftover + 1 >= rowsPerPart then 1 else rowsPerPart - leftover
  }

  lemma AppendOnto<T>(published: seq<seq<T>>, held: seq<T>, counter: nat, row: T, rowsPerPart: nat)
    ensures Apply(Log(published, Some(held), counter), Append(row, NO_FAULTS), rowsPerPart)
         == if counter + 1 >= rowsPerPart then Log(published + [held + [row]], None, 0)
            else Log(published, Some(held + [row]), counter + 1)
  {
  }

  lemma FirstThenRest<T>(log: Log<T>, op: Op<T>, rest: seq<Op<T>>, rowsPerPart: nat)
    ensures Exec(log, [op] + rest, rowsPerPart) == Exec(Apply(log, op, rowsPerPart), rest, rowsPerPart)
  {
    assert ([op] + rest)[1..] == rest;
  }

  lemma {:induction false} OpenPartGrows<T>(published: seq<seq<T>>, held: seq<T>, counter: nat, rows: seq<T>,
      rowsPerPart: nat)
    requires rows != [] && (counter + |rows| == rowsPerPart || (|rows| == 1 && counter >= rowsPerPart))
    ensures Exec(Log(published, Some(held), counter), Appends(rows), rowsPerPart)
      == Log(published + [held + rows], None, 0)
    decreases |rows|
  {
    AppendOnto(published, held, counter, rows[0], rowsPerPart);
    FirstThenRest(Log(published, Some(held), counter), Append(rows[0], NO_FAULTS), Appends(rows[1..]), rowsPerPart);
    assert rows == [rows[0]] + rows[1..];
    if |rows| > 1 {
      OpenPartGrows(published, held + [rows[0]], counter + 1, rows[1..], rowsPerPart);
      Regroup(held, [rows[0]], rows[1..]);
    } else {
      assert rows == [rows[0]];
    }
  }

  /**
   * After a failed finalise the counter still holds what it had counted, so the next part closes after exactly the
   * rows that were missing to the threshold, or after one: it is as long as it should be only if the counter was 0.
   */
  lemma NextPartClosesEarly<T>(log: Log<T>, rows: seq<T>, rowsPerPart: nat)
    requires rowsPerPart >= 1 && log.open.Some? && |rows| == NextPartSize(log.rows, rowsPerPart)
    ensures Exec(AfterFinalize(log, true), Appends(rows), rowsPerPart) == Log(log.published + [rows], None, 0)
    ensures |rows| == rowsPerPart <==> log.rows == 0 || rowsPerPart == 1
  {
    var left := AfterFinalize(log, true);
    assert left == Log(log.published, None, log.rows);
    OpenPartGrows(log.published, [], log.rows, rows, rowsPerPart);
    assert [] + rows == rows;
    SameFromAnEmptyPart(log.published, log.rows, rows, rowsPerPart);
  }

  /** The first append opens the part it needs. */
  lemma SameFromAnEmptyPart<T>(published: seq<seq<T>>, counter: nat, rows: seq<T>, rowsPerPart: nat)
    requires rows != []
    ensures Exec(Log(published, None, counter), Appends(rows), rowsPerPart)
         == Exec(Log(published, Some([]), counter), Appends(rows), rowsPerPart)
  {
    FirstThenRest(Log(published, None, counter), Append(rows[0], NO_FAULTS), Appends(rows[1..]), rowsPerPart);
    FirstThenRest(Log(published, Some([]), counter), Append(rows[0], NO_FAULTS), Appends(rows[1..]), rowsPerPart);
    assert Apply(Log(published, None, counter), Append(rows[0], NO_FAULTS), rowsPerPart)
        == Apply(Log(published, Some([]), counter), Append(rows[0], NO_FAULTS), rowsPerPart);
  }

  /** Three rows a part, one row lost to a failed flush: the next part holds two. */
  lemma AFailedFlushShortensTheNextPart()
    ensures Exec(Empty<int>(), [Append(1, NO_FAULTS), Flush(true)] + Appends([2, 3]), 3).published == [[2, 3]]
  {
    var one := Log([], Some([1]), 1);
    var rest := [Flush(true)] + Appends([2, 3]);
    assert [Append(1, NO_FAULTS), Flush(true)] + Appends([2, 3]) == [Append(1, NO_FAULTS)] + rest;
    FirstThenRest(Empty<int>(), Append(1, NO_FAULTS), rest, 3);
    FirstThenRest(one, Flush(true), Appends([2, 3]), 3);
    NextPartClosesEarly(one, [2, 3], 3);
  }
}
