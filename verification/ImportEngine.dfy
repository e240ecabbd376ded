/**
 * The status of an import (io/import_export_engine.cpp, importFile).
 *
 * The importer found for the file is given by what its two calls answer, and the two reads of
 * the cancellation flag are inputs, since another thread may set it between them.
 */
module ImportEngine {
  import opened NetworkData
  import opened PostImportValidator

  import opened Common

  datatype ImportStatus = Success | Warned | Failed | Aborted

  datatype ImportResult = ImportResult(status: ImportStatus, data: Option<PowerSystemData>, errors: seq<ImportError>)

  /** What the importer's pre-validation and its loading of the file return. */
  datatype Importer = Importer(preErrors: seq<ImportError>, loaded: ImportResult)

  ghost predicate HasFatal(errs: seq<ImportError>) {
    exists e :: e in errs && e.severity == Fatal
  }

  ghost predicate OnlyInfo(errs: seq<ImportError>) {
    forall e :: e in errs ==> e.severity == Info
  }

  method ContainsFatal(errs: seq<ImportError>) returns (fatal: bool)
    ensures fatal <==> HasFatal(errs)
  {
    fatal := false;
    for i := 0 to |errs|
      invariant fatal <==> HasFatal(errs[..i])
    {
      assert errs[..i + 1] == errs[..i] + [errs[i]];
      if errs[i].severity == Fatal { fatal := true; }
    }
    assert errs[..|errs|] == errs;
  }

  method ContainsOnlyInfo(errs: seq<ImportError>) returns (onlyInfo: bool)
    ensures onlyInfo <==> OnlyInfo(errs)
  {
    for i := 0 to |errs|
      invariant OnlyInfo(errs[..i])
    {
      assert errs[..i + 1] == errs[..i] + [errs[i]];
      if errs[i].severity != Info {
        assert errs[i] in errs;
        return false;
      }
    }
    assert errs[..|errs|] == errs;
    onlyInfo := true;
  }

  const CANCELLED := ImportError(NetworkData.Warning, Cancelled)

  /** The loaded result with the findings of the validation, if it takes place. */
  ghost function Validated(r: ImportResult, validate: bool): ImportResult {
    if !validate || r.data.None? then r
    else
      var report := ValidationReport(r.data.value);
      ImportResult(if report != [] && r.status == Success then Warned else r.status, r.data, r.errors + Graded(report))
  }

  /** A success with anything worse than information among its findings becomes a warning. */
  ghost function Concluded(r: ImportResult): ImportResult {
    if r.status == Success && !OnlyInfo(r.errors) then r.(status := Warned) else r
  }

  ghost function Cancel(r: ImportResult, cancelled: bool): ImportResult {
    if cancelled then r.(status := Aborted, errors := r.errors + [CANCELLED]) else r
  }

  method ValidateResult(r: ImportResult, validate: bool) returns (result: ImportResult)
    ensures result == Validated(r, validate)
  {
    result := r;
    if validate && r.data.Some? {
      var postErrs := Validate(r.data.value);
      result := result.(errors := result.errors + postErrs);
      if postErrs != [] && result.status == Success {
        result := result.(status := Warned);
      }
    }
  }

  method Conclude(r: ImportResult) returns (result: ImportResult)
    ensures result == Concluded(r)
  {
    result := r;
    if r.errors != [] && r.status == Success {
      var onlyInfo := ContainsOnlyInfo(r.errors);
      if !onlyInfo { result := result.(status := Warned); }
    }
  }

  method ImportFile(importer: Option<Importer>, autoValidate: bool, cancelledAfterLoad: bool,
          cancelledBeforeValidation: bool)
      returns (result: ImportResult)
    ensures importer.None? ==> result == ImportResult(Failed, None, Graded([NoImporter]))
    ensures importer.Some? && HasFatal(importer.value.preErrors) ==>
              result == ImportResult(Failed, None, importer.value.preErrors)
    ensures importer.Some? && !HasFatal(importer.value.preErrors) ==>
              result == Concluded(Validated(Cancel(importer.value.loaded, cancelledAfterLoad),
                                            autoValidate && !cancelledBeforeValidation))
  {
    if importer.None? {
      return ImportResult(Failed, None, Graded([NoImporter]));
    }
    var imp := importer.value;
    result := ImportResult(Success, None, imp.preErrors);
    var hasFatal := ContainsFatal(imp.preErrors);
    if hasFatal {
      return result.(status := Failed);
    }

    result := imp.loaded;
    if cancelledAfterLoad {
      result := result.(status := Aborted, errors := result.errors + [CANCELLED]);
    }
    result := ValidateResult(result, autoValidate && !cancelledBeforeValidation);
    result := Conclude(result);
  }

  /** No finding of the validator is mere information. */
  lemma GradedNeverInfo(cs: seq<Code>)
    ensures OnlyInfo(Graded(cs)) <==> cs == []
  {
    if cs != [] {
      assert Graded(cs)[0] in Graded(cs);
    }
  }

  lemma OnlyInfoAppend(a: seq<ImportError>, b: seq<ImportError>)
    ensures OnlyInfo(a + b) <==> OnlyInfo(a) && OnlyInfo(b)
  {
    assert forall e :: e in a + b <==> e in a || e in b;
  }

  /**
   * What becomes of a validated import: a status that is no success stays, and a success stays
   * one exactly when the loader had nothing but information and the network is clean; else it
   * becomes a warning. Nothing that was loaded or found is lost, and the findings of the validator follow.
   */
  lemma ValidatedOutcome(loaded: ImportResult, data: PowerSystemData)
    requires loaded.data == Some(data)
    ensures var r := Concluded(Validated(loaded, true));
            && r.status == (if loaded.status != Success then loaded.status
                            else if OnlyInfo(loaded.errors) && Clean(data) then Success else Warned)
            && r.data == Some(data)
            && r.errors == loaded.errors + Graded(ValidationReport(data))
  {
    hide ValidationReport, OnlyInfo, Clean;
    NothingToReportIffClean(data);
    GradedNeverInfo(ValidationReport(data));
    OnlyInfoAppend(loaded.errors, Graded(ValidationReport(data)));
  }

  /** So it succeeds exactly when the loader did and the network is clean. */
  lemma SuccessIffClean(loaded: ImportResult, data: PowerSystemData)
    requires loaded.data == Some(data)
    ensures Concluded(Validated(loaded, true)).status == Success <==>
            loaded.status == Success && OnlyInfo(loaded.errors) && Clean(data)
  {
    hide Clean, OnlyInfo, Validated, Concluded;
    ValidatedOutcome(loaded, data);
  }

  /** Without validation, or without data to validate, only the loader's own findings count. */
  lemma SuccessUnvalidated(loaded: ImportResult, validate: bool)
    requires !validate || loaded.data.None?
    ensures Concluded(Validated(loaded, validate)).status == Success <==>
            loaded.status == Success && OnlyInfo(loaded.errors)
    ensures var r := Concluded(Validated(loaded, validate));
            && r.status == (if loaded.status == Success && !OnlyInfo(loaded.errors) then Warned else loaded.status)
            && r.data == loaded.data && r.errors == loaded.errors
  {
  }

  /** A loaded network never fails by what is found in it: failing is left to the loader. */
  lemma FindingsNeverFail(loaded: ImportResult, validate: bool, cancelled: bool)
    requires loaded.status != Failed
    ensures Concluded(Validated(Cancel(loaded, cancelled), validate)).status != Failed
    ensures Concluded(Validated(Cancel(loaded, cancelled), validate)).data == loaded.data
  {
  }

  /** A cancelled import is never a success, whatever else happened. */
  lemma CancelledNeverSucceeds(loaded: ImportResult, validate: bool)
    ensures var r := Concluded(Validated(Cancel(loaded, true), validate));
            r.status == Aborted && r.data == loaded.data && loaded.errors + [ImportError(NetworkData.Warning, Cancelled)] <= r.errors
  {
  }

  /**
   * A successful, validated import of a network: it has buses, every reference holds, bus ids
   * are unique and any two buses are joined by in-service branches or windings.
   */
  lemma SuccessMeansSoundNetwork(loaded: ImportResult, data: PowerSystemData)
    requires loaded.data == Some(data)
    requires Concluded(Validated(loaded, true)).status == Success
    ensures data.buses != [] && ReferencesHold(data) && DistinctBusIds(data) && Connected(data)
  {
    SuccessIffClean(loaded, data);
  }

  /** Of the validator's own codes only the missing importer is fatal. */
  lemma FatalIffNoImporter(cs: seq<Code>)
    ensures HasFatal(Graded(cs)) <==> NoImporter in cs
  {
    var errs := Graded(cs);
    if k :| 0 <= k < |cs| && cs[k] == NoImporter {
      assert errs[k] in errs;
    }
    if HasFatal(errs) {
      var e :| e in errs && e.severity == Fatal;
      var k :| 0 <= k < |errs| && errs[k] == e;
      assert cs[k] == NoImporter;
    }
  }
}
