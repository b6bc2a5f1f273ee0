/** The ORM store of utils/database.js, the one the campaign loop uses: the
    strict result validator, the save guard over both handles, and the
    handles' release. The ORM itself is abstracted to a sequence of rows. */
module OrmDb {

  import opened Support
  import opened JsValues

  /** The message the strict validator gives for a rejected field: a missing
      measurement and a malformed one get different messages. */
  function StrictProblem(r: Record, f: Field): Problem
  {
    match f
    case ServerName => NotNonEmptyString
    case ServerUrl => NotNonEmptyString
    case ServerInfo => NotObject
    case _ => if Absent(FieldValue(r, f)) then Missing else NotNonNegative
  }

  /** What the strict rules accept, by the shape of the value: as the lenient
      rules, except that every measurement must be a non-negative number. */
  predicate Accepts(r: Record, f: Field)
  {
    var v := FieldValue(r, f);
    match f
    case ServerName => NonEmptyString(v)
    case ServerUrl => NonEmptyString(v)
    case ServerInfo => ObjectOrFalsy(v)
    case _ => NonNegativeNumber(v)
  }

  /** The check of one field, written as the code tests it. */
  function Check(r: Record, f: Field): (ms: seq<Message>)
    ensures ms == [] || ms == [Message(f, StrictProblem(r, f))]
    ensures ms == [] <==> Accepts(r, f)
  {
    var v := FieldValue(r, f);
    match f
    case ServerName =>
      if !Truthy(v) || TypeOf(v) != TString then [Message(f, NotNonEmptyString)] else []
    case ServerUrl =>
      if !Truthy(v) || TypeOf(v) != TString then [Message(f, NotNonEmptyString)] else []
    case ServerInfo =>
      if Truthy(v) && TypeOf(v) != TObject then [Message(f, NotObject)] else []
    case _ =>
      if v == Undefined || v == Null then [Message(f, Missing)]
      else if TypeOf(v) != TNumber || IsNaN(v.n) || LessThanZero(v.n) then [Message(f, NotNonNegative)]
      else []
  }

  /** The checks of `validateResult`, one per field, in the order it runs them. */
  function Checks(r: Record): (checks: seq<seq<Message>>)
    ensures Aligned(checks, CheckOrder)
    ensures forall f :: checks[Rank(f)] == Check(r, f)
  {
    var checks := [Check(r, ServerName), Check(r, ServerUrl), Check(r, DownloadSpeed), Check(r, UploadSpeed),
                   Check(r, Ping), Check(r, Jitter), Check(r, ServerInfo)];
    assert forall k :: 0 <= k < |checks| ==> checks[k] == Check(r, CheckOrder[k]);
    checks
  }

  /** `validateResult`: every measurement is required. */
  function ValidateResult(r: Record): (v: Validation)
    ensures v.isValid <==> v.errors == []
    ensures v.isValid <==> forall f :: Accepts(r, f)
    ensures forall f :: Flags(v.errors, f) <==> !Accepts(r, f)
    ensures InFieldOrder(v.errors)
    ensures forall i :: 0 <= i < |v.errors| ==> v.errors[i].problem == StrictProblem(r, v.errors[i].field)
  {
    var errors := Flatten(Checks(r));
    ChecksFlagRejected(r);
    Validation(|errors| == 0, errors)
  }

  lemma ChecksFlagRejected(r: Record)
    ensures forall f :: Flags(Flatten(Checks(r)), f) <==> !Accepts(r, f)
    ensures InFieldOrder(Flatten(Checks(r)))
    ensures forall i :: 0 <= i < |Flatten(Checks(r))| ==>
      Flatten(Checks(r))[i].problem == StrictProblem(r, Flatten(Checks(r))[i].field)
    ensures Flatten(Checks(r)) == [] <==> forall f :: Accepts(r, f)
  {
    var checks := Checks(r);
    var errors := Flatten(checks);
    GatheredChecks(checks);
    forall f ensures Flags(errors, f) <==> !Accepts(r, f) {
      assert checks[Rank(f)] == Check(r, f);
    }
    forall i | 0 <= i < |errors| ensures errors[i].problem == StrictProblem(r, errors[i].field) {
      assert checks[Rank(errors[i].field)] == Check(r, errors[i].field);
    }
    if errors != [] {
      assert Flags(errors, errors[0].field);
    }
  }

  /** The error `saveResult` throws before it writes anything: the
      connection guard first, then validation. None when the write goes ahead. */
  function SaveRejection(connected: bool, result: Record): (e: Option<string>)
    ensures !connected ==> e == Some(NotInitializedText)
    ensures connected ==> (e.None? <==> forall f :: Accepts(result, f))
    ensures connected && e.Some? ==> e.value == ValidationFailedText(ValidateResult(result).errors)
  {
    if !connected then Some(NotInitializedText)
    else
      var validation := ValidateResult(result);
      if !validation.isValid then Some(ValidationFailedText(validation.errors)) else None
  }

  /** A stored row whose record the strict validator accepts. */
  predicate Admitted(row: Row)
  {
    var b := RecordOf(row);
    Accepts(b, ServerName) && Accepts(b, ServerUrl) && Accepts(b, DownloadSpeed) && Accepts(b, UploadSpeed)
    && Accepts(b, Ping) && Accepts(b, Jitter) && Accepts(b, ServerInfo)
  }

  /** Writing an accepted record keeps it accepted: the falsy `server_info`
      it replaces by `{}` reads back as an object. */
  lemma RowOfAdmitted(id: nat, r: Record, now: int)
    requires ValidateResult(r).isValid
    ensures Admitted(RowOf(id, r, now))
  {
    var back := RecordOf(RowOf(id, r, now));
    forall f ensures Accepts(back, f) {
      assert Accepts(r, f);
    }
  }

  /** The module-level `sequelize` and `SpeedtestResult` handles and the table behind them. */
  class OrmStore {
    var sequelize: bool    // whether `sequelize` is set
    var model: bool        // whether `SpeedtestResult` is set
    var rows: seq<Row>     // the speedtest_results table
    var nextId: nat        // the next auto-increment id

    ghost predicate Valid()
      reads this
    {
      nextId >= 1 && WellNumbered(rows, nextId, Admitted)
    }

    /** The module as loaded: both handles null, an empty table. */
    constructor ()
      ensures Valid() && !sequelize && !model && rows == []
    {
      sequelize, model := false, false;
      rows := [];
      nextId := 1;
    }

    /** The effect of `initDatabase` on the handles. The instance is set
        first. `authError` is the error `authenticate()` rejects with, if
        any: the model is then never defined and the call rethrows it.
        Otherwise the model is defined, and `syncError` is the error
        `sequelize.sync` rejects with, if any; `createIndexes` catches its
        own errors, so an index never makes the call reject. */
    method InitDatabase(authError: Option<string>, syncError: Option<string>) returns (failure: Option<string>)
      requires Valid()
      modifies this
      ensures Valid() && sequelize && rows == old(rows) && nextId == old(nextId)
      ensures authError.Some? ==> model == old(model) && failure == authError
      ensures authError.None? ==> model && failure == syncError
    {
      sequelize := true;
      if authError.Some? {
        return authError;
      }
      model := true;
      failure := syncError;
    }

    /** `saveResult`: both handles must be set, then the record must pass
        validation, then `create` runs. `dbError` is the error `create`
        raises, if any. */
    method SaveResult(result: Record, now: int, dbError: Option<string>) returns (outcome: SaveOutcome)
      requires Valid()
      modifies this
      ensures Valid() && sequelize == old(sequelize) && model == old(model)
      ensures SaveRejection(old(sequelize) && old(model), result).Some? ==>
        outcome == Thrown(SaveRejection(old(sequelize) && old(model), result).value) && rows == old(rows) && nextId == old(nextId)
      ensures SaveRejection(old(sequelize) && old(model), result).None? && dbError.Some? ==>
        outcome == Thrown(dbError.value) && rows == old(rows) && nextId == old(nextId)
      ensures SaveRejection(old(sequelize) && old(model), result).None? && dbError.None? ==>
        outcome == Saved(old(nextId)) && rows == old(rows) + [RowOf(old(nextId), result, now)] && nextId == old(nextId) + 1
    {
      var rejection := SaveRejection(sequelize && model, result);
      if rejection.Some? {
        outcome := Thrown(rejection.value);
      } else if dbError.Some? {
        outcome := Thrown(dbError.value);
      } else {
        RowOfAdmitted(nextId, result, now);
        outcome := Saved(nextId);
        Insert(RowOf(nextId, result, now));
      }
    }

    /** `SpeedtestResult.create`: the row takes the next id. */
    method Insert(row: Row)
      requires Valid() && row.id == nextId && Admitted(row)
      modifies this
      ensures Valid() && sequelize == old(sequelize) && model == old(model)
      ensures rows == old(rows) + [row] && nextId == old(nextId) + 1
    {
      AppendWellNumbered(rows, nextId, Admitted, row);
      rows := rows + [row];
      nextId := nextId + 1;
    }

    /** `closeConnection`: closes and forgets both handles when `sequelize`
        is set; otherwise nothing happens. `closeError` is the error
        `sequelize.close()` rejects with, if any: the call then rethrows it
        and both handles stay as they were. The table stays. */
    method CloseConnection(closeError: Option<string>) returns (failure: Option<string>)
      requires Valid()
      modifies this
      ensures Valid() && rows == old(rows) && nextId == old(nextId)
      ensures old(sequelize) && closeError.None? ==> !sequelize && !model && failure.None?
      ensures old(sequelize) && closeError.Some? ==> unchanged(this) && failure == closeError
      ensures !old(sequelize) ==> unchanged(this) && failure.None?
    {
      failure := None;
      if sequelize {
        if closeError.Some? {
          return closeError;
        }
        sequelize := false;
        model := false;
      }
    }
  }
}
