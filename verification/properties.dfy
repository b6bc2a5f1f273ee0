/** How the two result validators relate to each other and to the records
    `testServers` produces: the strict validator of utils/database.js
    refuses every partial run, accepts every complete one, and accepts
    nothing the lenient validator of utils/database-native.js refuses. */
module EndToEnd {

  import opened JsValues
  import opened Probes
  import opened Orchestrator
  import NativeDb
  import OrmDb

  /** Whatever the strict rules accept for a field, the lenient rules accept too. */
  lemma StrictFieldImpliesLenient(r: Record, f: Field)
    ensures OrmDb.Accepts(r, f) ==> NativeDb.Accepts(r, f)
  {
  }

  /** A record the strict validator accepts passes the lenient one, and every
      field the lenient validator flags is flagged by the strict one. */
  lemma StrictImpliesLenient(r: Record)
    ensures OrmDb.ValidateResult(r).isValid ==> NativeDb.ValidateResult(r).isValid
    ensures forall f :: Flags(NativeDb.ValidateResult(r).errors, f) ==> Flags(OrmDb.ValidateResult(r).errors, f)
  {
    forall f ensures OrmDb.Accepts(r, f) ==> NativeDb.Accepts(r, f) {
      StrictFieldImpliesLenient(r, f);
    }
  }

  /** The two validators differ exactly on a missing measurement. */
  lemma ValidatorsDifferOnlyOnMissing(r: Record, f: Field)
    ensures NativeDb.Accepts(r, f) && !OrmDb.Accepts(r, f) <==> IsMeasurement(f) && Absent(FieldValue(r, f))
  {
  }

  /** The step outcomes a run can produce: speeds are never negative, the
      ping figures are non-negative reals. */
  predicate Plausible(o: Outcomes)
  {
    && (o.download.Ok? ==> NotNegative(o.download.value.speed))
    && (o.upload.Ok? ==> NotNegative(o.upload.value.speed))
    && (o.ping.Ok? ==> o.ping.value.ping >= 0.0 && o.ping.value.jitter >= 0.0)
  }

  lemma RunOutcomesPlausible(settings: TestSettings, t: Transport)
    ensures Plausible(StepOutcomes(settings, t))
  {
  }

  /** For a measurement field the strict message "missing" appears exactly
      when the value is null or undefined. */
  lemma MissingIffAbsent(r: Record, f: Field)
    requires IsMeasurement(f)
    ensures Message(f, Missing) in OrmDb.ValidateResult(r).errors <==> Absent(FieldValue(r, f))
  {
    var v := OrmDb.ValidateResult(r);
    if Absent(FieldValue(r, f)) {
      assert !OrmDb.Accepts(r, f);
      assert Flags(v.errors, f);
      var i :| 0 <= i < |v.errors| && v.errors[i].field == f;
      assert v.errors[i] == Message(f, Missing);
    }
    if Message(f, Missing) in v.errors {
      var i :| 0 <= i < |v.errors| && v.errors[i] == Message(f, Missing);
      assert OrmDb.StrictProblem(r, f) == Missing;
    }
  }

  /** The strict validator names a measurement of a run as missing exactly
      when its step failed. */
  lemma StrictMissingMatchesFailedSteps(server: ServerConfig, o: Outcomes)
    ensures var v := OrmDb.ValidateResult(Assemble(server, o).record);
      && (Message(DownloadSpeed, Missing) in v.errors <==> o.download.Err?)
      && (Message(UploadSpeed, Missing) in v.errors <==> o.upload.Err?)
      && (Message(Ping, Missing) in v.errors <==> o.ping.Err?)
      && (Message(Jitter, Missing) in v.errors <==> o.ping.Err?)
  {
    var r := Assemble(server, o).record;
    assert Absent(r.download_speed) <==> o.download.Err?;
    assert Absent(r.upload_speed) <==> o.upload.Err?;
    assert Absent(r.ping) <==> o.ping.Err?;
    assert Absent(r.jitter) <==> o.ping.Err?;
    MissingIffAbsent(r, DownloadSpeed);
    MissingIffAbsent(r, UploadSpeed);
    MissingIffAbsent(r, Ping);
    MissingIffAbsent(r, Jitter);
  }

  /** A run in which the download, the upload or the ping test failed is
      refused by the strict validator, so its record cannot be saved there. */
  lemma PartialRunRejectedByStrict(server: ServerConfig, settings: TestSettings, t: Transport)
    requires var o := StepOutcomes(settings, t); o.download.Err? || o.upload.Err? || o.ping.Err?
    ensures !OrmDb.ValidateResult(TestServersSpec(server, settings, t).record).isValid
  {
    var o := StepOutcomes(settings, t);
    var r := TestServersSpec(server, settings, t).record;
    if o.download.Err? {
      assert !OrmDb.Accepts(r, DownloadSpeed);
    } else if o.upload.Err? {
      assert !OrmDb.Accepts(r, UploadSpeed);
    } else {
      assert !OrmDb.Accepts(r, Ping);
    }
  }

  /** A measured speed that a validator can accept: not NaN (nothing moved
      in no time). */
  predicate Measurable(m: Result<Measured>)
  {
    m.Ok? && !m.value.speed.NotANumber?
  }

  /** A run whose steps all succeeded, with a server url, an object or falsy
      server information and speeds that are numbers, has no errors and is
      accepted by the strict validator. */
  lemma CompleteRunAcceptedByStrict(server: ServerConfig, settings: TestSettings, t: Transport)
    requires server.url != ""
    requires var o := StepOutcomes(settings, t);
      o.info.Ok? && ObjectOrFalsy(o.info.value) && Measurable(o.download) && Measurable(o.upload) && o.ping.Ok?
    ensures OrmDb.ValidateResult(TestServersSpec(server, settings, t).record).isValid
    ensures TestServersSpec(server, settings, t).errors == []
  {
    var o := StepOutcomes(settings, t);
    RunOutcomesPlausible(settings, t);
    var r := TestServersSpec(server, settings, t).record;
    assert OrmDb.Accepts(r, DownloadSpeed) && OrmDb.Accepts(r, UploadSpeed);
    assert OrmDb.Accepts(r, Ping) && OrmDb.Accepts(r, Jitter);
    assert OrmDb.Accepts(r, ServerName) && OrmDb.Accepts(r, ServerUrl) && OrmDb.Accepts(r, ServerInfo);
  }

  /** The lenient validator accepts what the steps managed to measure, failed
      steps included, under the same conditions on url, information and speeds. */
  lemma PartialRunAcceptedByLenient(server: ServerConfig, settings: TestSettings, t: Transport)
    requires server.url != ""
    requires var o := StepOutcomes(settings, t);
      && (o.info.Err? || ObjectOrFalsy(o.info.value))
      && (o.download.Err? || Measurable(o.download))
      && (o.upload.Err? || Measurable(o.upload))
    ensures NativeDb.ValidateResult(TestServersSpec(server, settings, t).record).isValid
  {
    RunOutcomesPlausible(settings, t);
    var r := TestServersSpec(server, settings, t).record;
    assert NativeDb.Accepts(r, DownloadSpeed) && NativeDb.Accepts(r, UploadSpeed);
    assert NativeDb.Accepts(r, Ping) && NativeDb.Accepts(r, Jitter);
    assert NativeDb.Accepts(r, ServerName) && NativeDb.Accepts(r, ServerUrl) && NativeDb.Accepts(r, ServerInfo);
  }
}
