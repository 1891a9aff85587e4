/**
  The validation stage: structural checks of the train and test tables
  against the schema, drift detection between them, and the fail-fast run
  that ends in a validation artifact.
 */
module DataValidation {
  import opened Wrappers
  import opened Tables
  import opened StructuralChecks
  import opened Drift
  import opened Storage

  /** Where the ingestion stage left the train and test files. */
  datatype DataIngestionArtifact = DataIngestionArtifact(trainedFilePath: string, testFilePath: string)

  /** Where the validation stage writes its outputs. */
  datatype DataValidationConfig = DataValidationConfig(
    driftReportFilePath: string,
    validTrainFilePath: string,
    validTestFilePath: string)

  /** The schema document: the expected columns and the columns that must be numeric. */
  datatype Schema = Schema(columns: seq<string>, numericalColumns: seq<string>)

  /** The result record; `None` stands for Python's None. */
  datatype DataValidationArtifact = DataValidationArtifact(
    validationStatus: Option<bool>,
    validTrainFilePath: string,
    validTestFilePath: string,
    invalidTrainFilePath: Option<string>,
    invalidTestFilePath: Option<string>,
    driftReportFilePath: string)

  /** Every way a run aborts; each is raised as the one pipeline exception. */
  datatype Error =
    | ReadFailed(path: string)
    | TrainColumnCountMismatch
    | TestColumnCountMismatch
    | TrainNumericalValidationFailed
    | TestNumericalValidationFailed
    | DriftDetectionFailed(cause: DriftError)
    | MakeDirsFailed(path: string)

  /** Structural failures, the ones raised before drift detection starts. */
  predicate IsStructural(e: Error) {
    e.TrainColumnCountMismatch? || e.TestColumnCountMismatch?
    || e.TrainNumericalValidationFailed? || e.TestNumericalValidationFailed?
  }

  class DataValidation {
    const dataIngestionArtifact: DataIngestionArtifact
    const dataValidationConfig: DataValidationConfig
    const schemaConfig: Schema

    /** The schema is passed in already loaded. */
    constructor (dataIngestionArtifact: DataIngestionArtifact,
                 dataValidationConfig: DataValidationConfig,
                 schemaConfig: Schema)
      ensures this.dataIngestionArtifact == dataIngestionArtifact
      ensures this.dataValidationConfig == dataValidationConfig
      ensures this.schemaConfig == schemaConfig
    {
      this.dataIngestionArtifact := dataIngestionArtifact;
      this.dataValidationConfig := dataValidationConfig;
      this.schemaConfig := schemaConfig;
    }

    /** `pd.read_csv(path)`: succeeds exactly on a path that holds a table. */
    static function ReadData(disk: Disk, path: string): (r: Result<Table, Error>)
      ensures r.Success? <==> path in disk.files && disk.files[path].Csv?
      ensures r.Success? ==> disk.files[path] == Csv(r.value)
      ensures r.Failure? ==> r.error == ReadFailed(path)
    {
      if path in disk.files && disk.files[path].Csv? then Success(disk.files[path].table)
      else Failure(ReadFailed(path))
    }

    /** The column count matches the schema's; the names are never compared. */
    function ValidateNoOfColumns(dataframe: Table): (ok: bool)
      ensures ok <==> dataframe.Width() == |schemaConfig.columns|
    {
      |dataframe.columns| == |schemaConfig.columns|
    }

    /** True exactly when every declared numerical column is present and numeric. */
    method ValidateNumericalColumns(dataframe: Table) returns (ok: bool)
      ensures ok <==> NumericallyValid(dataframe, schemaConfig.numericalColumns)
    {
      var numericalColumns := schemaConfig.numericalColumns;
      var missingColumns: seq<string> := [];
      var nonNumericalColumns: seq<string> := [];
      for i := 0 to |numericalColumns|
        invariant missingColumns == MissingColumns(dataframe, numericalColumns[..i])
        invariant nonNumericalColumns == NonNumericalColumns(dataframe, numericalColumns[..i])
      {
        var col := numericalColumns[i];
        assert numericalColumns[..i + 1][..i] == numericalColumns[..i];
        if !dataframe.Has(col) {
          missingColumns := missingColumns + [col];
          continue;
        }
        if !dataframe.Get(col).numeric {
          nonNumericalColumns := nonNumericalColumns + [col];
        }
      }
      assert numericalColumns[..|numericalColumns|] == numericalColumns;
      ok := |missingColumns| == 0 && |nonNumericalColumns| == 0;
      NumericalCheckPassesIff(dataframe, numericalColumns);
    }

    /**
      What detect_data_drift does to the disk and what it returns: on success
      the report is written to the configured path and the call returns None.
     */
    ghost function DriftDetection(disk: Disk, baseDf: Table, currentDf: Table, threshold: real, ks: KsTest)
      : (Result<Option<bool>, Error>, Disk)
    {
      match DriftOf(baseDf.columns, currentDf, ks, threshold)
      case Failure(e) => (Failure(DriftDetectionFailed(e)), disk)
      case Success((report, _)) =>
        var path := dataValidationConfig.driftReportFilePath;
        match disk.MakeDirs(DirName(path))
        case None => (Failure(MakeDirsFailed(DirName(path))), disk)
        case Some(d) => (Success(None), d.Write(path, Yaml(report)))
    }

    /**
      Compares every column of `baseDf` with the same-named column of
      `currentDf` and writes the report. The AND-reduced status is computed
      but not returned: the call's value is None. The ghost `localStatus`
      exposes the computed status.
     */
    method DetectDataDrift(fs: FileSystem, baseDf: Table, currentDf: Table, threshold: real, ks: KsTest)
      returns (r: Result<Option<bool>, Error>, ghost localStatus: bool)
      modifies fs
      ensures (r, fs.Snapshot()) == DriftDetection(old(fs.Snapshot()), baseDf, currentDf, threshold, ks)
      ensures r.Success? ==> r.value == None
      ensures r.Success? ==> DriftOf(baseDf.columns, currentDf, ks, threshold) == Success((fs.files[dataValidationConfig.driftReportFilePath].report, localStatus))
    {
      var columns := baseDf.columns;
      var status := true;
      var report: Report := map[];
      for i := 0 to |columns|
        invariant DriftOf(columns[..i], currentDf, ks, threshold) == Success((report, status))
        invariant fs.Snapshot() == old(fs.Snapshot())
      {
        var column := columns[i];
        assert columns[..i + 1][..i] == columns[..i];
        if !currentDf.Has(column.name) {
          DriftFailurePersists(columns, i + 1, currentDf, ks, threshold);
          r, localStatus := Failure(DriftDetectionFailed(MissingInCurrent(column.name))), status;
          return;
        }
        var d1 := column.values;
        var d2 := currentDf.Get(column.name).values;
        var isSameDist := ks(d1, d2);
        if isSameDist.None? {
          DriftFailurePersists(columns, i + 1, currentDf, ks, threshold);
          r, localStatus := Failure(DriftDetectionFailed(TestFailed(column.name))), status;
          return;
        }
        var pValue := isSameDist.value;
        var isFound: bool;
        if NotBelow(threshold, pValue) {
          isFound := false;
        } else {
          isFound := true;
          status := false;
        }
        report := report[column.name := DriftEntry(pValue, isFound)];
      }
      assert columns[..|columns|] == columns;
      localStatus := status;
      var driftReportFilePath := dataValidationConfig.driftReportFilePath;
      var dirPath := DirName(driftReportFilePath);
      var made := fs.MakeDirs(dirPath);
      if !made {
        r := Failure(MakeDirsFailed(dirPath));
        return;
      }
      fs.Write(driftReportFilePath, Yaml(report));
      r := Success(None);
    }

    /**
      The whole run as a function of the disk: read both tables, the four
      checks in order, drift detection, then the valid copies and the artifact.
     */
    ghost function Validation(disk: Disk, ks: KsTest): (Result<DataValidationArtifact, Error>, Disk)
    {
      var trainRead := ReadData(disk, dataIngestionArtifact.trainedFilePath);
      var testRead := ReadData(disk, dataIngestionArtifact.testFilePath);
      if trainRead.Failure? then (Failure(trainRead.error), disk)
      else if testRead.Failure? then (Failure(testRead.error), disk)
      else
        var train, test := trainRead.value, testRead.value;
        if !ValidateNoOfColumns(train) then (Failure(TrainColumnCountMismatch), disk)
        else if !ValidateNoOfColumns(test) then (Failure(TestColumnCountMismatch), disk)
        else if !NumericallyValid(train, schemaConfig.numericalColumns) then (Failure(TrainNumericalValidationFailed), disk)
        else if !NumericallyValid(test, schemaConfig.numericalColumns) then (Failure(TestNumericalValidationFailed), disk)
        else
          var (drift, d1) := DriftDetection(disk, train, test, DefaultThreshold, ks);
          if drift.Failure? then (Failure(drift.error), d1)
          else
            var dirPath := DirName(dataValidationConfig.validTrainFilePath);
            match d1.MakeDirs(dirPath)
            case None => (Failure(MakeDirsFailed(dirPath)), d1)
            case Some(d2) =>
              var d3 := d2.Write(dataValidationConfig.validTrainFilePath, Csv(train))
                          .Write(dataValidationConfig.validTestFilePath, Csv(test));
              (Success(DataValidationArtifact(
                 validationStatus := drift.value,
                 validTrainFilePath := dataIngestionArtifact.trainedFilePath,
                 validTestFilePath := dataIngestionArtifact.testFilePath,
                 invalidTrainFilePath := None,
                 invalidTestFilePath := None,
                 driftReportFilePath := dataValidationConfig.driftReportFilePath)), d3)
    }

    /** The fail-fast run; its outcome and its effect on the disk are those of `Validation`. */
    method InitiateDataValidation(fs: FileSystem, ks: KsTest) returns (r: Result<DataValidationArtifact, Error>)
      modifies fs
      ensures (r, fs.Snapshot()) == Validation(old(fs.Snapshot()), ks)
    {
      var trainFilePath := dataIngestionArtifact.trainedFilePath;
      var testFilePath := dataIngestionArtifact.testFilePath;

      var trainDataframe :- ReadData(fs.Snapshot(), trainFilePath);
      var testDataframe :- ReadData(fs.Snapshot(), testFilePath);

      var status := ValidateNoOfColumns(trainDataframe);
      if !status {
        return Failure(TrainColumnCountMismatch);
      }
      status := ValidateNoOfColumns(testDataframe);
      if !status {
        return Failure(TestColumnCountMismatch);
      }
      status := ValidateNumericalColumns(trainDataframe);
      if !status {
        return Failure(TrainNumericalValidationFailed);
      }
      status := ValidateNumericalColumns(testDataframe);
      if !status {
        return Failure(TestNumericalValidationFailed);
      }

      ghost var localStatus;
      var drift;
      drift, localStatus := DetectDataDrift(fs, trainDataframe, testDataframe, DefaultThreshold, ks);
      if drift.Failure? {
        return Failure(drift.error);
      }
      var validationStatus := drift.value;

      var dirPath := DirName(dataValidationConfig.validTrainFilePath);
      var made := fs.MakeDirs(dirPath);
      if !made {
        return Failure(MakeDirsFailed(dirPath));
      }
      fs.Write(dataValidationConfig.validTrainFilePath, Csv(trainDataframe));
      fs.Write(dataValidationConfig.validTestFilePath, Csv(testDataframe));

      r := Success(DataValidationArtifact(
        validationStatus := validationStatus,
        validTrainFilePath := dataIngestionArtifact.trainedFilePath,
        validTestFilePath := dataIngestionArtifact.testFilePath,
        invalidTrainFilePath := None,
        invalidTestFilePath := None,
        driftReportFilePath := dataValidationConfig.driftReportFilePath));
    }
  }

  /** Only the number of columns is compared: tables of equal width get the same verdict. */
  lemma ColumnNamesNeverCompared(v: DataValidation, t: Table, u: Table)
    requires t.Width() == u.Width()
    ensures v.ValidateNoOfColumns(t) == v.ValidateNoOfColumns(u)
  {
  }

  /**
    Drift detection aborts exactly when some base column cannot be compared
    or the report path has no directory part; on success the report written
    at the configured path has one record per base column name and nothing
    else on the disk changes except the report's directory.
   */
  lemma DriftDetectionWritesReport(v: DataValidation, disk: Disk, baseDf: Table, currentDf: Table, threshold: real, ks: KsTest)
    ensures var (r, disk') := v.DriftDetection(disk, baseDf, currentDf, threshold, ks);
      var path := v.dataValidationConfig.driftReportFilePath;
      && (r.Success? <==>
            (forall i :: 0 <= i < |baseDf.columns| ==> Comparable(baseDf.columns[i], currentDf, ks))
            && '/' in path)
      && (r.Failure? ==> disk' == disk)
      && (r.Success? ==>
            && r.value == None
            && path in disk'.files && disk'.files[path].Yaml?
            && disk'.files[path].report.Keys == (set c | c in baseDf.columns :: c.name)
            && disk'.files - {path} == disk.files - {path})
  {
    DriftSucceedsIff(baseDf.columns, currentDf, ks, threshold);
    if DriftOf(baseDf.columns, currentDf, ks, threshold).Success? {
      DriftReportKeys(baseDf.columns, currentDf, ks, threshold);
    }
  }

  /**
    The checks run in the order train count, test count, train numeric, test
    numeric, and the run aborts with the error of the first one that fails.
   */
  lemma ValidationErrorOrder(v: DataValidation, disk: Disk, ks: KsTest, train: Table, test: Table)
    requires DataValidation.ReadData(disk, v.dataIngestionArtifact.trainedFilePath) == Success(train)
    requires DataValidation.ReadData(disk, v.dataIngestionArtifact.testFilePath) == Success(test)
    ensures var r := v.Validation(disk, ks).0;
      var numerical := v.schemaConfig.numericalColumns;
      && (r == Failure(TrainColumnCountMismatch) <==> !v.ValidateNoOfColumns(train))
      && (r == Failure(TestColumnCountMismatch) <==>
            v.ValidateNoOfColumns(train) && !v.ValidateNoOfColumns(test))
      && (r == Failure(TrainNumericalValidationFailed) <==>
            v.ValidateNoOfColumns(train) && v.ValidateNoOfColumns(test)
            && !NumericallyValid(train, numerical))
      && (r == Failure(TestNumericalValidationFailed) <==>
            v.ValidateNoOfColumns(train) && v.ValidateNoOfColumns(test)
            && NumericallyValid(train, numerical) && !NumericallyValid(test, numerical))
  {
  }

  /** A train file that cannot be read aborts the run before the test file matters. */
  lemma ValidationReadsTrainFirst(v: DataValidation, disk: Disk, ks: KsTest)
    requires DataValidation.ReadData(disk, v.dataIngestionArtifact.trainedFilePath).Failure?
    ensures v.Validation(disk, ks) == (Failure(ReadFailed(v.dataIngestionArtifact.trainedFilePath)), disk)
  {
  }

  /**
    A failed run never writes the valid copies: only the drift report may
    have been written. A run that fails while reading, in a structural check
    or in drift detection leaves the disk as it was.
   */
  lemma FailedValidationWritesNoValidFiles(v: DataValidation, disk: Disk, ks: KsTest)
    ensures var (r, disk') := v.Validation(disk, ks);
      var reportPath := v.dataValidationConfig.driftReportFilePath;
      && (r.Failure? ==> disk'.files - {reportPath} == disk.files - {reportPath})
      && (r.Failure? && !r.error.MakeDirsFailed? ==> disk' == disk)
      && (r.Failure? && IsStructural(r.error) ==> disk' == disk)
  {
    var trainRead := DataValidation.ReadData(disk, v.dataIngestionArtifact.trainedFilePath);
    var testRead := DataValidation.ReadData(disk, v.dataIngestionArtifact.testFilePath);
    if trainRead.Success? && testRead.Success? {
      var train, test := trainRead.value, testRead.value;
      DriftDetectionWritesReport(v, disk, train, test, DefaultThreshold, ks);
    }
  }

  /**
    A run succeeds exactly when all four checks pass, every train column can
    be compared with the test table, and both the report path and the valid
    train path have a directory part. Drift itself never fails the run. On
    success the artifact's status is None, its valid paths are the ingestion
    paths (not the paths the copies were written to), both invalid paths are
    None, and the disk gains the report and the two copies.
   */
  lemma SuccessfulValidation(v: DataValidation, disk: Disk, ks: KsTest, train: Table, test: Table)
    requires DataValidation.ReadData(disk, v.dataIngestionArtifact.trainedFilePath) == Success(train)
    requires DataValidation.ReadData(disk, v.dataIngestionArtifact.testFilePath) == Success(test)
    ensures var (r, disk') := v.Validation(disk, ks);
      var config := v.dataValidationConfig;
      var numerical := v.schemaConfig.numericalColumns;
      && (r.Success? <==>
            && v.ValidateNoOfColumns(train) && v.ValidateNoOfColumns(test)
            && NumericallyValid(train, numerical) && NumericallyValid(test, numerical)
            && (forall i :: 0 <= i < |train.columns| ==> Comparable(train.columns[i], test, ks))
            && '/' in config.driftReportFilePath && '/' in config.validTrainFilePath)
      && (r.Success? ==>
            && r.value == DataValidationArtifact(
                 None,
                 v.dataIngestionArtifact.trainedFilePath,
                 v.dataIngestionArtifact.testFilePath,
                 None,
                 None,
                 config.driftReportFilePath)
            && disk'.files == disk.files
                 [config.driftReportFilePath := Yaml(DriftOf(train.columns, test, ks, DefaultThreshold).value.0)]
                 [config.validTrainFilePath := Csv(train)]
                 [config.validTestFilePath := Csv(test)])
  {
    DriftDetectionWritesReport(v, disk, train, test, DefaultThreshold, ks);
  }

  /**
    Detected drift does not fail a run: when the computed status is false the
    run still succeeds, and the artifact's status is None either way, because
    detect_data_drift returns nothing.
   */
  lemma DriftedDataStillPasses(v: DataValidation, disk: Disk, ks: KsTest, train: Table, test: Table)
    requires DataValidation.ReadData(disk, v.dataIngestionArtifact.trainedFilePath) == Success(train)
    requires DataValidation.ReadData(disk, v.dataIngestionArtifact.testFilePath) == Success(test)
    requires v.ValidateNoOfColumns(train) && v.ValidateNoOfColumns(test)
    requires NumericallyValid(train, v.schemaConfig.numericalColumns)
    requires NumericallyValid(test, v.schemaConfig.numericalColumns)
    requires '/' in v.dataValidationConfig.driftReportFilePath && '/' in v.dataValidationConfig.validTrainFilePath
    requires DriftOf(train.columns, test, ks, DefaultThreshold).Success?
    requires !DriftOf(train.columns, test, ks, DefaultThreshold).value.1
    ensures v.Validation(disk, ks).0.Success?
    ensures v.Validation(disk, ks).0.value.validationStatus == None
  {
    DriftSucceedsIff(train.columns, test, ks, DefaultThreshold);
    SuccessfulValidation(v, disk, ks, train, test);
  }
}
