/** The MySQL-pool store of utils/database-native.js: the lenient result
    validator, the save guard order, the nullable-column repair and the
    pool's release. SQL itself is abstracted to a sequence of rows. */
module NativeDb {

  import opened Support
  import opened JsValues

  /** The message the lenient validator gives for a rejected field. */
  function LenientProblem(f: Field): Problem
  {
    match f
    case ServerName => NotNonEmptyString
    case ServerUrl => NotNonEmptyString
    case ServerInfo => NotObject
    case _ => NotNonNegativeOrEmpty
  }

  /** What the lenient rules accept, by the shape of the value: a non-empty
      string for the name and the url, nothing or a non-negative number for a
      measurement, an object or a falsy value for `server_info`. */
  predicate Accepts(r: Record, f: Field)
  {
    var v := FieldValue(r, f);
    match f
    case ServerName => NonEmptyString(v)
    case ServerUrl => NonEmptyString(v)
    case ServerInfo => ObjectOrFalsy(v)
    case _ => Absent(v) || NonNegativeNumber(v)
  }

  /** The check of one field, written as the code tests it. */
  function Check(r: Record, f: Field): (ms: seq<Message>)
    ensures ms == [] || ms == [Message(f, LenientProblem(f))]
    ensures ms == [] <==> Accepts(r, f)
  {
    var v := FieldValue(r, f);
    match f
    case ServerName =>
      if !Truthy(v) || TypeOf(v) != TString then [Message(f, NotNonEmptyString)] else []
    case ServerUrl =>
      if !Truthy(v) || TypeOf(v) != TString then [Message(f, NotNonEmptyString)] else []
    case ServerInfo =>
      if Truthy(v) && TypeOf(v) != TObject then [Message(f, NotObject)] else []
    case _ =>
      if v != Undefined && v != Null && (TypeOf(v) != TNumber || IsNaN(v.n) || LessThanZero(v.n))
      then [Message(f, NotNonNegativeOrEmpty)]
      else []
  }

  /** The checks of `validateResult`, one per field, in the order it runs them. */
  function Checks(r: Record): (checks: seq<seq<Message>>)
    ensures Aligned(checks, CheckOrder)
    ensures forall f :: checks[Rank(f)] == Check(r, f)
  {
    var checks := [Check(r, ServerName), Check(r, ServerUrl), Check(r, DownloadSpeed), Check(r, UploadSpeed),
                   Check(r, Ping), Check(r, Jitter), Check(r, ServerInfo)];
    assert forall k :: 0 <= k < |checks| ==> checks[k] == Check(r, CheckOrder[k]);
    checks
  }

  /** `validateResult`: measurements may be null or undefined. */
  function ValidateResult(r: Record): (v: Validation)
    ensures v.isValid <==> v.errors == []
    ensures v.isValid <==> forall f :: Accepts(r, f)
    ensures forall f :: Flags(v.errors, f) <==> !Accepts(r, f)
    ensures InFieldOrder(v.errors)
    ensures forall i :: 0 <= i < |v.errors| ==> v.errors[i].problem == LenientProblem(v.errors[i].field)
  {
    var errors := Flatten(Checks(r));
    ChecksFlagRejected(r);
    Validation(|errors| == 0, errors)
  }

  lemma ChecksFlagRejected(r: Record)
    ensures forall f :: Flags(Flatten(Checks(r)), f) <==> !Accepts(r, f)
    ensures InFieldOrder(Flatten(Checks(r)))
    ensures forall i :: 0 <= i < |Flatten(Checks(r))| ==>
      Flatten(Checks(r))[i].problem == LenientProblem(Flatten(Checks(r))[i].field)
    ensures Flatten(Checks(r)) == [] <==> forall f :: Accepts(r, f)
  {
    var checks := Checks(r);
    var errors := Flatten(checks);
    GatheredChecks(checks);
    forall f ensures Flags(errors, f) <==> !Accepts(r, f) {
      assert checks[Rank(f)] == Check(r, f);
    }
    forall i | 0 <= i < |errors| ensures errors[i].problem == LenientProblem(errors[i].field) {
      assert checks[Rank(errors[i].field)] == Check(r, errors[i].field);
    }
    if errors != [] {
      assert Flags(errors, errors[0].field);
    }
  }

  /** A row of `SHOW COLUMNS`: the column's `Field` and its `Null` entry. */
  datatype Column = Column(field: string, nullability: string)

  const NullableColumns: seq<string> := ["download_speed", "upload_speed", "ping", "jitter"]

  /** `columns.find(col => col.Field === name)`. */
  function FindColumn(columns: seq<Column>, name: string): (c: Option<Column>)
    ensures c.Some? ==> c.value in columns && c.value.field == name
    ensures c.Some? ==>
      exists i :: 0 <= i < |columns| && columns[i] == c.value && (forall j :: 0 <= j < i ==> columns[j].field != name)
    ensures c.None? <==> forall i :: 0 <= i < |columns| ==> columns[i].field != name
  {
    if columns == [] then None
    else if columns[0].field == name then Some(columns[0])
    else FindColumn(columns[1..], name)
  }

  predicate NeedsAlter(columns: seq<Column>, name: string)
  {
    var c := FindColumn(columns, name);
    c.Some? && c.value.nullability == "NO"
  }

  /** The names in `names`, in order, whose column exists and is NOT NULL. */
  function AlterTargets(columns: seq<Column>, names: seq<string>): (targets: seq<string>)
    ensures |targets| <= |names|
    ensures forall c :: c in targets <==> c in names && NeedsAlter(columns, c)
  {
    if names == [] then []
    else
      var last := names[|names| - 1];
      assert names == names[..|names| - 1] + [last];
      AlterTargets(columns, names[..|names| - 1]) + (if NeedsAlter(columns, last) then [last] else [])
  }

  /** What a `pool.execute` call settles with: the rows it returned, or the
      error it rejected with. */
  datatype Reply<T> = Answered(rows: T) | Failed(message: string)

  /** Checking one more name adds it at the end when it needs an ALTER. */
  lemma AlterTargetsSnoc(columns: seq<Column>, names: seq<string>, name: string)
    ensures AlterTargets(columns, names + [name]) ==
      AlterTargets(columns, names) + (if NeedsAlter(columns, name) then [name] else [])
  {
    assert (names + [name])[..|names|] == names;
  }

  /** Checking more of the list only adds targets at the end. */
  lemma {:induction false} AlterTargetsPrefix(columns: seq<Column>, names: seq<string>, k: nat)
    requires k <= |names|
    ensures AlterTargets(columns, names[..k]) <= AlterTargets(columns, names)
    decreases |names| - k
  {
    if k < |names| {
      var init := names[..|names| - 1];
      assert names[..k] == init[..k];
      AlterTargetsPrefix(columns, init, k);
    } else {
      assert names[..k] == names;
    }
  }

  /** The ALTER statements for `targets`, issued in order, stop at the
      first that fails: the completed ones are a prefix of `targets`, each
      of them succeeded, and the call fails exactly when some target's
      ALTER fails, with the error of the first one. */
  predicate AltersUpToFirstError(targets: seq<string>, alterError: nat -> Option<string>,
                                 altered: seq<string>, failure: Option<string>)
  {
    && altered <= targets
    && (forall k :: 0 <= k < |altered| ==> alterError(k).None?)
    && (failure.None? <==> altered == targets)
    && (failure.None? <==> forall k :: 0 <= k < |targets| ==> alterError(k).None?)
    && (failure.Some? ==> failure == alterError(|altered|))
  }

  /** The first `n` ALTER statements issued all succeed. */
  predicate SucceededBelow(alterError: nat -> Option<string>, n: nat)
  {
    forall k :: 0 <= k < n ==> alterError(k).None?
  }

  /** The loop stops at an ALTER that fails, with the targets before it completed. */
  lemma StopAtFirstError(found: seq<Column>, names: seq<string>, k: nat, altered: seq<string>, alterError: nat -> Option<string>)
    requires k < |names| && altered == AlterTargets(found, names[..k])
    requires NeedsAlter(found, names[k]) && SucceededBelow(alterError, |altered|) && alterError(|altered|).Some?
    ensures AltersUpToFirstError(AlterTargets(found, names), alterError, altered, alterError(|altered|))
  {
    assert names[..k + 1] == names[..k] + [names[k]];
    AlterTargetsSnoc(found, names[..k], names[k]);
    AlterTargetsPrefix(found, names, k + 1);
    assert |altered| < |AlterTargets(found, names)|;
  }

  /** A name whose ALTER is not needed, or succeeds, moves the loop on. */
  lemma ContinueAfter(found: seq<Column>, names: seq<string>, k: nat, altered: seq<string>, alterError: nat -> Option<string>)
    requires k < |names| && altered == AlterTargets(found, names[..k]) && SucceededBelow(alterError, |altered|)
    requires NeedsAlter(found, names[k]) ==> alterError(|altered|).None?
    ensures var next := altered + (if NeedsAlter(found, names[k]) then [names[k]] else []);
      next == AlterTargets(found, names[..k + 1]) && SucceededBelow(alterError, |next|)
  {
    assert names[..k + 1] == names[..k] + [names[k]];
    AlterTargetsSnoc(found, names[..k], names[k]);
  }

  /** The loop ran through all names without an ALTER failing. */
  lemma AllAltersDone(found: seq<Column>, names: seq<string>, altered: seq<string>, alterError: nat -> Option<string>)
    requires altered == AlterTargets(found, names[..|names|]) && SucceededBelow(alterError, |altered|)
    ensures AltersUpToFirstError(AlterTargets(found, names), alterError, altered, None)
  {
    assert names[..|names|] == names;
  }

  /** The loop of `modifyTableStructure` over `names` and the columns
      `SHOW COLUMNS` returned. */
  method IssueAlters(found: seq<Column>, names: seq<string>, alterError: nat -> Option<string>)
    returns (altered: seq<string>, failure: Option<string>)
    ensures AltersUpToFirstError(AlterTargets(found, names), alterError, altered, failure)
  {
    altered, failure := [], None;
    for k := 0 to |names|
      invariant altered == AlterTargets(found, names[..k])
      invariant SucceededBelow(alterError, |altered|)
    {
      var column := names[k];
      if NeedsAlter(found, column) {
        var e := alterError(|altered|);
        if e.Some? {
          StopAtFirstError(found, names, k, altered, alterError);
          return altered, e;
        }
        ContinueAfter(found, names, k, altered, alterError);
        altered := altered + [column];
      } else {
        ContinueAfter(found, names, k, altered, alterError);
      }
    }
    AllAltersDone(found, names, altered, alterError);
  }

  /** `modifyTableStructure`. `tables` is what `SHOW TABLES LIKE` settles
      with (the number of rows it returned), `columns` what `SHOW COLUMNS`
      settles with, and `alterError(k)` the error the k-th ALTER issued
      rejects with, if any. `altered` lists the columns whose `ALTER TABLE
      ... MODIFY COLUMN <name> FLOAT` completed, in the order issued; the
      first error ends the call and is rethrown as `failure`. */
  method ModifyTableStructure(tables: Reply<nat>, columns: Reply<seq<Column>>, alterError: nat -> Option<string>)
    returns (altered: seq<string>, failure: Option<string>)
    ensures tables.Failed? ==> altered == [] && failure == Some(tables.message)
    ensures tables == Answered(0) ==> altered == [] && failure == None
    ensures tables.Answered? && tables.rows != 0 && columns.Failed? ==>
      altered == [] && failure == Some(columns.message)
    ensures tables.Answered? && tables.rows != 0 && columns.Answered? ==>
      AltersUpToFirstError(AlterTargets(columns.rows, NullableColumns), alterError, altered, failure)
  {
    if tables.Failed? {
      return [], Some(tables.message);
    }
    if tables.rows == 0 {
      return [], None;
    }
    if columns.Failed? {
      return [], Some(columns.message);
    }
    altered, failure := IssueAlters(columns.rows, NullableColumns, alterError);
  }

  /** The error `saveResult` throws before it writes anything: the
      connection guard first, then validation. None when the write goes ahead. */
  function SaveRejection(connected: bool, result: Record): (e: Option<string>)
    ensures !connected ==> e == Some(NotInitializedText)
    ensures connected ==> (e.None? <==> forall f :: Accepts(result, f))
    ensures connected && e.Some? ==> e.value == ValidationFailedText(ValidateResult(result).errors)
  {
    if !connected then Some(NotInitializedText)
    else
      var validation := ValidateResult(result);
      if !validation.isValid then Some(ValidationFailedText(validation.errors)) else None
  }

  /** A stored row whose record the lenient validator accepts. */
  predicate Admitted(row: Row)
  {
    var b := RecordOf(row);
    Accepts(b, ServerName) && Accepts(b, ServerUrl) && Accepts(b, DownloadSpeed) && Accepts(b, UploadSpeed)
    && Accepts(b, Ping) && Accepts(b, Jitter) && Accepts(b, ServerInfo)
  }

  /** Writing an accepted record keeps it accepted: the falsy `server_info`
      it replaces by `{}` reads back as an object. */
  lemma RowOfAdmitted(id: nat, r: Record, now: int)
    requires ValidateResult(r).isValid
    ensures Admitted(RowOf(id, r, now))
  {
    var back := RecordOf(RowOf(id, r, now));
    forall f ensures Accepts(back, f) {
      assert Accepts(r, f);
    }
  }

  /** The module-level pool and the table behind it. */
  class NativeStore {
    var pool: bool         // whether `pool` is set
    var rows: seq<Row>     // the speedtest_results table
    var nextId: nat        // the next AUTO_INCREMENT id

    /** Every stored row passed validation, and ids increase and stay below `nextId`. */
    ghost predicate Valid()
      reads this
    {
      nextId >= 1 && WellNumbered(rows, nextId, Admitted)
    }

    /** The module as loaded: `let pool = null`, an empty table. */
    constructor ()
      ensures Valid() && !pool && rows == []
    {
      pool := false;
      rows := [];
      nextId := 1;
    }

    /** The effect of `initDatabase` on the pool: it is created before the
        first query, so it stays set whatever follows. `setupError` is the
        error `SELECT 1`, `CREATE TABLE` or the `modifyTableStructure` that
        `initTables` awaits rejects with, which the call rethrows; each
        index statement's error is caught where it is issued. The table's
        contents are not touched. */
    method InitDatabase(setupError: Option<string>) returns (failure: Option<string>)
      requires Valid()
      modifies this
      ensures Valid() && pool && rows == old(rows) && nextId == old(nextId)
      ensures failure == setupError
    {
      pool := true;
      failure := setupError;
    }

    /** `saveResult`: the connection guard, then validation, then the INSERT.
        `dbError` is the error the database raises for the INSERT, if any. */
    method SaveResult(result: Record, now: int, dbError: Option<string>) returns (outcome: SaveOutcome)
      requires Valid()
      modifies this
      ensures Valid() && pool == old(pool)
      ensures SaveRejection(old(pool), result).Some? ==>
        outcome == Thrown(SaveRejection(old(pool), result).value) && rows == old(rows) && nextId == old(nextId)
      ensures SaveRejection(old(pool), result).None? && dbError.Some? ==>
        outcome == Thrown(dbError.value) && rows == old(rows) && nextId == old(nextId)
      ensures SaveRejection(old(pool), result).None? && dbError.None? ==>
        outcome == Saved(old(nextId)) && rows == old(rows) + [RowOf(old(nextId), result, now)] && nextId == old(nextId) + 1
    {
      var rejection := SaveRejection(pool, result);
      if rejection.Some? {
        outcome := Thrown(rejection.value);
      } else if dbError.Some? {
        outcome := Thrown(dbError.value);
      } else {
        RowOfAdmitted(nextId, result, now);
        outcome := Saved(nextId);
        Insert(RowOf(nextId, result, now));
      }
    }

    /** The INSERT itself: the row takes the next id. */
    method Insert(row: Row)
      requires Valid() && row.id == nextId && Admitted(row)
      modifies this
      ensures Valid() && pool == old(pool)
      ensures rows == old(rows) + [row] && nextId == old(nextId) + 1
    {
      AppendWellNumbered(rows, nextId, Admitted, row);
      rows := rows + [row];
      nextId := nextId + 1;
    }

    /** `closeConnection`: ends the pool if there is one, and forgets it once
        `pool.end()` has resolved. `endError` is the error `pool.end()`
        rejects with, if any: the call then rethrows it and the pool stays
        set. The table stays. */
    method CloseConnection(endError: Option<string>) returns (failure: Option<string>)
      requires Valid()
      modifies this
      ensures Valid() && rows == old(rows) && nextId == old(nextId)
      ensures old(pool) && endError.None? ==> !pool && failure.None?
      ensures old(pool) && endError.Some? ==> unchanged(this) && failure == endError
      ensures !old(pool) ==> unchanged(this) && failure.None?
    {
      failure := None;
      if pool {
        if endError.Some? {
          return endError;
        }
        pool := false;
      }
    }
  }

  // ---------------------------------------------------------------------------
  // The code as written

  /** The `TypeError` a call of the missing logger functions raises: the
      module destructures `logInfo`, `logError` and `logWarn` from a logger
      that exports none of them, so each is `undefined`. */
  const LogErrorNotAFunction: string := "logError is not a function"

  /** What `saveResult` does as written: what it throws, and whether the
      INSERT ran before that. */
  datatype WrittenSave = WrittenSave(outcome: SaveOutcome, inserted: bool)

  /** `saveResult` as written. The validation branch calls `logError` before
      its `throw`; after a successful INSERT the call of `logInfo` throws
      inside the `try`, and the handler's `logDatabaseOperation` then calls
      `logError`; an INSERT error reaches the same handler. */
  function SaveResultAsWritten(connected: bool, result: Record, dbError: Option<string>): (w: WrittenSave)
    ensures !connected ==> w == WrittenSave(Thrown(NotInitializedText), false)
    ensures connected ==> w.outcome == Thrown(LogErrorNotAFunction)
    ensures w.inserted <==> SaveRejection(connected, result).None? && dbError.None?
  {
    if !connected then WrittenSave(Thrown(NotInitializedText), false)
    else if !ValidateResult(result).isValid then WrittenSave(Thrown(LogErrorNotAFunction), false)
    else if dbError.Some? then WrittenSave(Thrown(LogErrorNotAFunction), false)
    else WrittenSave(Thrown(LogErrorNotAFunction), true)
  }

  /** A valid record on a live pool is stored, yet as written the caller
      is told the save failed; the corrected `NativeStore.SaveResult`
      answers with the new id. */
  lemma SavedRowReportedAsFailure(result: Record, now: int)
    requires ValidateResult(result).isValid
    ensures SaveResultAsWritten(true, result, None) == WrittenSave(Thrown(LogErrorNotAFunction), true)
    ensures SaveRejection(true, result).None?
  {
  }

  /** `modifyTableStructure` as written: the ALTER statements it completes
      and the error it rejects with. Unless `SHOW TABLES LIKE` finds no
      table, something calls a missing logger function: the handler's
      `logError` after a failed query, or else `logInfo` before the first
      ALTER or after the loop; the handler's `logError` then throws in turn. */
  function ModifyTableStructureAsWritten(tables: Reply<nat>): (w: (seq<string>, Option<string>))
    ensures w.0 == []
    ensures w.1.Some? <==> tables != Answered(0)
    ensures w.1.Some? ==> w.1.value == LogErrorNotAFunction
  {
    if tables == Answered(0) then ([], None) else ([], Some(LogErrorNotAFunction))
  }

  /** An existing table with a NOT NULL measurement column stays unrepaired
      as written, while the corrected loop, with no query failing, alters
      that column. */
  lemma RepairSkippedAsWritten(tables: Reply<nat>, columns: seq<Column>, name: string)
    requires tables.Answered? && tables.rows != 0 && name in NullableColumns && NeedsAlter(columns, name)
    ensures name !in ModifyTableStructureAsWritten(tables).0
    ensures ModifyTableStructureAsWritten(tables).1 == Some(LogErrorNotAFunction)
    ensures name in AlterTargets(columns, NullableColumns)
  {
  }
}
