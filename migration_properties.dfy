/** What `Migrate` and `Rollback` guarantee, proved about the specification
    functions that the `Migrator` methods are verified against. */
module MigrationProperties {
  import opened Wrappers
  import opened Migration

  /** The registered units whose ids are not in the applied set, in
      registration order. */
  function Pending(units: seq<Unit>, applied: set<string>): (p: seq<Unit>)
    ensures |p| <= |units|
    ensures forall u :: u in p <==> u in units && u.id !in applied
  {
    if units == [] then []
    else if units[0].id in applied then Pending(units[1..], applied)
    else [units[0]] + Pending(units[1..], applied)
  }

  /** The units applied one after the other, stopping at the first failure. */
  function ApplyAll(s: DbState, f: Faults, units: seq<Unit>): Result<DbState, MigrationError>
    decreases |units|
  {
    if units == [] then Success(s)
    else
      match ApplyUnit(s, f, units[0])
      case Failure(e) => Failure(e)
      case Success(s') => ApplyAll(s', f, units[1..])
  }

  /** One record per unit, in order, with consecutive stamps from `start`. */
  function Stamped(units: seq<Unit>, start: nat): (r: seq<MigrationRecord>)
    ensures |r| == |units|
    ensures forall i :: 0 <= i < |units| ==> r[i] == MigrationRecord(units[i].id, start + i)
  {
    if units == [] then [] else [MigrationRecord(units[0].id, start)] + Stamped(units[1..], start + 1)
  }

  predicate NamesUnit(e: MigrationError, id: string) {
    (e.UnitFailed? || e.RecordFailed? || e.CommitFailed?) && e.id == id
  }

  // ---------------------------------------------------------------------
  // Migrate
  // ---------------------------------------------------------------------

  /** A committed unit changes the schema through its forward operation and
      adds exactly one record, its own, stamped with the clock; a failed one
      is reported under its id (a failed begin has no id in the source's
      message). */
  lemma ApplyUnitEffect(s: DbState, f: Faults, u: Unit)
    ensures ApplyUnit(s, f, u).Success? ==>
      && u.id !in f.begin && u.id !in f.write && u.id !in f.commit
      && u.id !in RecordIds(s.records)
      && u.forward(Tx(s.tables, f.ddl)) == Success(ApplyUnit(s, f, u).value.tables)
      && ApplyUnit(s, f, u).value.records == s.records + [MigrationRecord(u.id, s.clock)]
      && ApplyUnit(s, f, u).value.clock == s.clock + 1
      && ApplyUnit(s, f, u).value.recordTable == s.recordTable
    ensures ApplyUnit(s, f, u).Failure? ==>
      ApplyUnit(s, f, u).error == BeginFailed || NamesUnit(ApplyUnit(s, f, u).error, u.id)
  {
  }

  /** Each committed unit adds exactly one record with its id, in order. */
  lemma {:induction false} ApplyAllAppends(s: DbState, f: Faults, units: seq<Unit>, s'': DbState)
    requires ApplyAll(s, f, units) == Success(s'')
    ensures s''.records == s.records + Stamped(units, s.clock)
    ensures s''.clock == s.clock + |units|
    ensures s''.recordTable == s.recordTable
    decreases |units|
  {
    if units != [] {
      ApplyUnitEffect(s, f, units[0]);
      var s' := ApplyUnit(s, f, units[0]).value;
      assert ApplyAll(s', f, units[1..]) == Success(s'');
      ApplyAllAppends(s', f, units[1..], s'');
      var head := [MigrationRecord(units[0].id, s.clock)];
      var tail := Stamped(units[1..], s.clock + 1);
      assert Stamped(units, s.clock) == head + tail;
      assert s''.records == (s.records + head) + tail;
      assert (s.records + head) + tail == s.records + (head + tail);
    }
  }

  /** The pending loop commits a prefix of the pending units, in
      registration order; it reports success exactly when the prefix is all
      of them, and otherwise the error of the next pending unit, which
      leaves no trace, and nothing after it is attempted. */
  lemma {:induction false} RunPendingPrefix(s: DbState, f: Faults, units: seq<Unit>, applied: set<string>)
    returns (k: nat)
    ensures var p := Pending(units, applied);
            var r := RunPending(s, f, units, applied);
            && k <= |p|
            && ApplyAll(s, f, p[..k]) == Success(r.state)
            && (r.err.None? <==> k == |p|)
            && (r.err.Some? ==> ApplyUnit(r.state, f, p[k]) == Failure(r.err.value))
    decreases |units|
  {
    var p := Pending(units, applied);
    if units == [] {
      k := 0;
    } else if units[0].id in applied {
      k := RunPendingPrefix(s, f, units[1..], applied);
    } else {
      assert p == [units[0]] + Pending(units[1..], applied);
      match ApplyUnit(s, f, units[0])
      case Failure(e) =>
        k := 0;
      case Success(s') =>
        var k' := RunPendingPrefix(s', f, units[1..], applied);
        var rest := Pending(units[1..], applied);
        k := k' + 1;
        assert p[..k] == [units[0]] + rest[..k'];
        assert ApplyAll(s, f, p[..k]) == ApplyAll(s', f, rest[..k']);
        assert k' < |rest| ==> p[k] == rest[k'];
    }
  }

  /** `Migrate` in full: a failure to create the record table or to read it
      comes before any unit runs; otherwise the pending units (those whose id
      is not yet recorded) are committed in registration order up to the
      first failure, each adding one record, and earlier commits stay. */
  lemma MigrateCommitsPendingPrefix(s: DbState, f: Faults, units: seq<Unit>) returns (k: nat)
    ensures f.recordTable ==> MigrateSpec(s, f, units) == Run(s, Some(RecordTableFailed))
    ensures !f.recordTable && f.listing ==>
      MigrateSpec(s, f, units) == Run(s.(recordTable := true), Some(ListFailed))
    ensures !f.recordTable && !f.listing ==>
      var p := Pending(units, RecordIds(s.records));
      var r := MigrateSpec(s, f, units);
      && k <= |p|
      && ApplyAll(s.(recordTable := true), f, p[..k]) == Success(r.state)
      && r.state.records == s.records + Stamped(p[..k], s.clock)
      && (r.err.None? <==> k == |p|)
      && (r.err.Some? ==> ApplyUnit(r.state, f, p[k]) == Failure(r.err.value))
      && (r.err.Some? ==> r.err.value == BeginFailed || NamesUnit(r.err.value, p[k].id))
  {
    k := 0;
    if !f.recordTable && !f.listing {
      var s1 := s.(recordTable := true);
      var p := Pending(units, RecordIds(s.records));
      k := RunPendingPrefix(s1, f, units, RecordIds(s.records));
      ApplyAllAppends(s1, f, p[..k], MigrateSpec(s, f, units).state);
      var r := MigrateSpec(s, f, units);
      if r.err.Some? {
        ApplyUnitEffect(r.state, f, p[k]);
      }
    }
  }

  /** `Migrate` never deletes or rewrites a record: the old records are a
      prefix of the new ones, and the clock never goes back. */
  lemma {:induction false} RunPendingExtends(s: DbState, f: Faults, units: seq<Unit>, applied: set<string>)
    ensures var r := RunPending(s, f, units, applied);
            && |s.records| <= |r.state.records|
            && r.state.records[..|s.records|] == s.records
            && s.clock <= r.state.clock
            && r.state.recordTable == s.recordTable
    decreases |units|
  {
    if units != [] {
      if units[0].id in applied {
        RunPendingExtends(s, f, units[1..], applied);
      } else if ApplyUnit(s, f, units[0]).Success? {
        var s' := ApplyUnit(s, f, units[0]).value;
        RunPendingExtends(s', f, units[1..], applied);
        var r := RunPending(s', f, units[1..], applied);
        assert r.state.records[..|s'.records|][..|s.records|] == r.state.records[..|s.records|];
      }
    }
  }

  lemma MigrateNeverDeletes(s: DbState, f: Faults, units: seq<Unit>)
    ensures var r := MigrateSpec(s, f, units);
            |s.records| <= |r.state.records| && r.state.records[..|s.records|] == s.records
  {
    if !f.recordTable && !f.listing {
      RunPendingExtends(s.(recordTable := true), f, units, RecordIds(s.records));
    }
  }

  /** After a successful pending loop, every registered id is recorded. */
  lemma {:induction false} RunPendingRecordsAll(s: DbState, f: Faults, units: seq<Unit>, applied: set<string>)
    requires applied <= RecordIds(s.records)
    requires RunPending(s, f, units, applied).err.None?
    ensures forall u :: u in units ==> u.id in RecordIds(RunPending(s, f, units, applied).state.records)
    decreases |units|
  {
    if units != [] {
      var r := RunPending(s, f, units, applied);
      if units[0].id in applied {
        RunPendingRecordsAll(s, f, units[1..], applied);
        RunPendingExtends(s, f, units[1..], applied);
        RecordIdsGrow(s.records, r.state.records);
      } else {
        var s' := ApplyUnit(s, f, units[0]).value;
        assert MigrationRecord(units[0].id, s.clock) in s'.records;
        RecordIdsGrow(s.records, s'.records);
        RunPendingRecordsAll(s', f, units[1..], applied);
        RunPendingExtends(s', f, units[1..], applied);
        RecordIdsGrow(s'.records, r.state.records);
      }
      assert forall u :: u in units ==> u == units[0] || u in units[1..];
    }
  }

  lemma RecordIdsGrow(a: seq<MigrationRecord>, b: seq<MigrationRecord>)
    requires |a| <= |b| && b[..|a|] == a
    ensures RecordIds(a) <= RecordIds(b)
  {
    forall id | id in RecordIds(a) ensures id in RecordIds(b) {
      var x :| x in a && x.id == id;
      var i :| 0 <= i < |a| && a[i] == x;
      assert b[i] == x;
    }
  }

  /** After a successful `Migrate`, every registered unit is recorded. */
  lemma MigrateRecordsAll(s: DbState, f: Faults, units: seq<Unit>)
    requires MigrateSpec(s, f, units).err.None?
    ensures forall u :: u in units ==> u.id in RecordIds(MigrateSpec(s, f, units).state.records)
  {
    RunPendingRecordsAll(s.(recordTable := true), f, units, RecordIds(s.records));
  }

  /** With every id already applied, the pending loop does nothing. */
  lemma {:induction false} RunPendingAllApplied(s: DbState, f: Faults, units: seq<Unit>, applied: set<string>)
    requires forall u :: u in units ==> u.id in applied
    ensures RunPending(s, f, units, applied) == Run(s, None)
    decreases |units|
  {
    if units != [] {
      assert units[0] in units;
      RunPendingAllApplied(s, f, units[1..], applied);
    }
  }

  /** Idempotence: after a successful `Migrate`, a second `Migrate` with the
      same units (whose record table can be created and read) applies
      nothing and changes nothing. */
  lemma MigrateIdempotent(s: DbState, f: Faults, g: Faults, units: seq<Unit>)
    requires MigrateSpec(s, f, units).err.None?
    requires !g.recordTable && !g.listing
    ensures MigrateSpec(MigrateSpec(s, f, units).state, g, units) == MigrateSpec(s, f, units)
  {
    var r := MigrateSpec(s, f, units);
    MigrateRecordsAll(s, f, units);
    RunPendingExtends(s.(recordTable := true), f, units, RecordIds(s.records));
    assert r.state.(recordTable := true) == r.state;
    RunPendingAllApplied(r.state, g, units, RecordIds(r.state.records));
  }

  // ---------------------------------------------------------------------
  // Rollback
  // ---------------------------------------------------------------------

  /** The records a rollback fetches are the `min(n, |records|)` records with
      the latest stamps, newest first: strictly decreasing stamps, and every
      record left out is older than every record fetched. */
  lemma NewestByStamp(records: seq<MigrationRecord>, n: nat)
    requires Increasing(records)
    ensures var t := Newest(records, n);
      && |t| == Min(n, |records|)
      && (forall x :: x in t ==> x in records)
      && (forall i, j :: 0 <= i < j < |t| ==> t[i].appliedAt > t[j].appliedAt)
      && (forall x, y :: x in records && x !in t && y in t ==> x.appliedAt < y.appliedAt)
  {
    NewestFromTail(records, n);
    NewestInRecords(records, n);
    NewestDecreasing(records, n);
    NewestOlderLeftOut(records, n);
  }

  lemma NewestInRecords(records: seq<MigrationRecord>, n: nat)
    ensures forall x :: x in Newest(records, n) ==> x in records
  {
    var t := Newest(records, n);
    NewestFromTail(records, n);
    forall x | x in t ensures x in records {
      var i :| 0 <= i < |t| && t[i] == x;
      assert x == records[|records| - 1 - i];
    }
  }

  lemma NewestDecreasing(records: seq<MigrationRecord>, n: nat)
    requires Increasing(records)
    ensures var t := Newest(records, n);
      forall i, j :: 0 <= i < j < |t| ==> t[i].appliedAt > t[j].appliedAt
  {
    var t := Newest(records, n);
    NewestFromTail(records, n);
    forall i, j | 0 <= i < j < |t| ensures t[i].appliedAt > t[j].appliedAt {
      assert t[i] == records[|records| - 1 - i] && t[j] == records[|records| - 1 - j];
    }
  }

  /** The fetched records are the tail of the records, read backwards. */
  lemma NewestFromTail(records: seq<MigrationRecord>, n: nat)
    ensures var t := Newest(records, n);
      && |t| == Min(n, |records|)
      && forall i :: 0 <= i < |t| ==> t[i] == records[|records| - 1 - i]
  {
  }

  /** Every record a rollback does not fetch is older than every record it
      fetches. */
  lemma NewestOlderLeftOut(records: seq<MigrationRecord>, n: nat)
    requires Increasing(records)
    ensures var t := Newest(records, n);
      forall x, y :: x in records && x !in t && y in t ==> x.appliedAt < y.appliedAt
  {
    var t := Newest(records, n);
    var m := |records| - Min(n, |records|);
    NewestFromTail(records, n);
    forall i | m <= i < |records| ensures records[i] in t {
      assert t[|records| - 1 - i] == records[i];
    }
    forall x, y | x in records && x !in t && y in t ensures x.appliedAt < y.appliedAt {
      var i :| 0 <= i < |records| && records[i] == x;
      var j :| 0 <= j < |t| && t[j] == y;
      assert i < m;
      assert y == records[|records| - 1 - j] && i < |records| - 1 - j;
    }
  }

  /** The id-to-unit map sends each registered id to its last registration. */
  lemma {:induction false} UnitIndexLast(units: seq<Unit>, i: nat)
    requires i < |units|
    requires forall j :: i < j < |units| ==> units[j].id != units[i].id
    ensures units[i].id in UnitIndex(units) && UnitIndex(units)[units[i].id] == units[i]
    decreases |units|
  {
    var last := |units| - 1;
    if i < last {
      var init := units[..last];
      assert init[i] == units[i];
      assert forall j :: i < j < |init| ==> init[j] == units[j];
      UnitIndexLast(init, i);
      assert units[last].id != units[i].id;
    }
  }

  /** The index knows exactly the registered ids. */
  lemma {:induction false} UnitIndexKeys(units: seq<Unit>, id: string)
    ensures id in UnitIndex(units) <==> exists i :: 0 <= i < |units| && units[i].id == id
    decreases |units|
  {
    if units != [] {
      var init := units[..|units| - 1];
      UnitIndexKeys(init, id);
      if id in UnitIndex(units) && units[|units| - 1].id != id {
        var i :| 0 <= i < |init| && init[i].id == id;
        assert units[i].id == id;
      }
      if exists i :: 0 <= i < |units| && units[i].id == id {
        var i :| 0 <= i < |units| && units[i].id == id;
        if i < |units| - 1 {
          assert init[i].id == id;
        }
      }
    }
  }

  /** The fetched records whose id has a registered unit, in fetched order. */
  function Resolvable(targets: seq<MigrationRecord>, index: map<string, Unit>): (t: seq<MigrationRecord>)
    ensures forall x :: x in t <==> x in targets && x.id in index
  {
    if targets == [] then []
    else if targets[0].id in index then [targets[0]] + Resolvable(targets[1..], index)
    else Resolvable(targets[1..], index)
  }

  /** The resolvable records undone one after the other, stopping at the
      first failure. */
  function UndoAll(s: DbState, f: Faults, index: map<string, Unit>, targets: seq<MigrationRecord>): Result<DbState, MigrationError>
    requires forall x :: x in targets ==> x.id in index
    decreases |targets|
  {
    if targets == [] then Success(s)
    else
      match UndoUnit(s, f, index[targets[0].id], targets[0].id)
      case Failure(e) => Failure(e)
      case Success(s') => UndoAll(s', f, index, targets[1..])
  }

  /** The rollback loop undoes a prefix of the resolvable records, newest
      first; it reports success exactly when that prefix is all of them, and
      otherwise the error of the next one, which leaves no trace. Records
      without a registered unit are skipped without error. */
  lemma {:induction false} RollbackEachPrefix(s: DbState, f: Faults, index: map<string, Unit>, targets: seq<MigrationRecord>)
    returns (k: nat)
    ensures var t := Resolvable(targets, index);
            var r := RollbackEach(s, f, index, targets);
            && k <= |t|
            && UndoAll(s, f, index, t[..k]) == Success(r.state)
            && (r.err.None? <==> k == |t|)
            && (r.err.Some? ==> UndoUnit(r.state, f, index[t[k].id], t[k].id) == Failure(r.err.value))
    decreases |targets|
  {
    var t := Resolvable(targets, index);
    if targets == [] {
      k := 0;
    } else if targets[0].id !in index {
      assert t == Resolvable(targets[1..], index);
      k := RollbackEachPrefix(s, f, index, targets[1..]);
    } else {
      var rest := Resolvable(targets[1..], index);
      assert t == [targets[0]] + rest;
      match UndoUnit(s, f, index[targets[0].id], targets[0].id)
      case Failure(e) =>
        k := 0;
        assert t[k] == targets[0];
      case Success(s') =>
        var k' := RollbackEachPrefix(s', f, index, targets[1..]);
        k := k' + 1;
        assert t[..k] == [targets[0]] + rest[..k'];
        assert UndoAll(s, f, index, t[..k]) == UndoAll(s', f, index, rest[..k']);
        assert k' < |rest| ==> t[k] == rest[k'];
    }
  }

  /** An undo removes exactly the records with the undone ids and keeps the
      clock and the record table. */
  lemma {:induction false} UndoAllRecords(s: DbState, f: Faults, index: map<string, Unit>, targets: seq<MigrationRecord>)
    requires forall x :: x in targets ==> x.id in index
    requires UndoAll(s, f, index, targets).Success?
    ensures var s' := UndoAll(s, f, index, targets).value;
      && s'.clock == s.clock && s'.recordTable == s.recordTable
      && forall x :: x in s'.records <==> x in s.records && x.id !in RecordIds(targets)
    decreases |targets|
  {
    if targets != [] {
      var s1 := UndoUnit(s, f, index[targets[0].id], targets[0].id).value;
      UndoAllRecords(s1, f, index, targets[1..]);
      assert forall x :: x in targets <==> x == targets[0] || x in targets[1..];
    }
  }

  /** `Rollback(n)` deletes no record it did not fetch, never deletes the
      record of a unit it cannot find, and never adds a record. */
  lemma RollbackRecords(s: DbState, f: Faults, units: seq<Unit>, n: nat)
    requires Wf(s)
    ensures var r := RollbackSpec(s, f, units, n);
      && r.state.clock == s.clock
      && (forall x :: x in r.state.records ==> x in s.records)
      && (forall x :: x in s.records && x !in Newest(s.records, n) ==> x in r.state.records)
      && (forall x :: x in s.records && x.id !in UnitIndex(units) ==> x in r.state.records)
  {
    if s.recordTable && !f.listing {
      var index := UnitIndex(units);
      var targets := Newest(s.records, n);
      var t := Resolvable(targets, index);
      var k := RollbackEachPrefix(s, f, index, targets);
      UndoAllRecords(s, f, index, t[..k]);
      NewestByStamp(s.records, n);
      var r := RollbackSpec(s, f, units, n);
      var done := t[..k];
      assert forall y :: y in done ==> y in t;
      assert forall y :: y in done ==> y in s.records && y.id in index;
      forall x | x in s.records && x !in targets
        ensures x in r.state.records
      {
        IdNotUndone(s.records, done, x);
      }
      forall x | x in s.records && x.id !in index
        ensures x in r.state.records
      {
        assert x.id !in RecordIds(done);
      }
    }
  }

  /** With unique ids, a stored record that was not undone shares its id with
      no undone record. */
  lemma IdNotUndone(records: seq<MigrationRecord>, done: seq<MigrationRecord>, x: MigrationRecord)
    requires UniqueIds(records) && x in records && x !in done
    requires forall y :: y in done ==> y in records
    ensures x.id !in RecordIds(done)
  {
    forall y | y in done ensures y.id != x.id {
      var i :| 0 <= i < |records| && records[i] == x;
      var j :| 0 <= j < |records| && records[j] == y;
      assert i != j;
    }
  }
}
