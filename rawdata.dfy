/** The `data_raw` folder both merge scripts read from. Reading and parsing files is not
    modelled: a file is present with its parsed frame, or absent. */
module RawData {
  import opened Results
  import opened Strings
  import opened Frames

  /** The files kept for one subject. first is the first file in the listing whose name
      starts with the uid, whatever it holds; activity and sleep are the first such files
      whose names also contain "Activity" / "sleep"; the others have fixed names built
      from the uid. */
  datatype SubjectFiles = SubjectFiles(
    first: Option<Frame>,
    activity: Option<Frame>,
    sleep: Option<Frame>,
    sms: Option<Frame>,
    run1: Option<Frame>,
    run2: Option<Frame>)

  /** Per-subject files by uid, and the survey exports by file name, in listing order. */
  datatype DataDir = DataDir(subjects: map<string, SubjectFiles>, surveys: seq<(string, Frame)>)

  const Folder: string := "data_raw/"

  /** `[f for f in files if ...][0]`: IndexError when nothing matched. */
  function FirstMatch(file: Option<Frame>): (r: Result<Frame>)
    ensures r.Success? <==> file.Some?
    ensures r.Failure? ==> r.error == IndexError("list index out of range")
  {
    if file.Some? then Success(file.value) else Failure(IndexError("list index out of range"))
  }

  /** The path a named file is read from. */
  function Path(file: DataFile): string
  {
    Folder + match file
      case SmsTimes(uid) => "sub-" + uid + "_sms-times.csv"
      case RunEvents(uid, run) => "sub-" + uid + "_task-HealthMessage_run-" + run + "_events.tsv"
      case Export(name) => name
  }

  /** `pd.read_csv(path)` of a file with a fixed name. */
  function ReadCsv(file: Option<Frame>, name: DataFile): (r: Result<Frame>)
    ensures r.Success? <==> file.Some?
    ensures r.Failure? ==> r.error == FileNotFound(name)
  {
    if file.Some? then Success(file.value) else Failure(FileNotFound(name))
  }

  function Files(d: DataDir, uid: string): SubjectFiles
  {
    if uid in d.subjects then d.subjects[uid] else SubjectFiles(None, None, None, None, None, None)
  }

  /** `[f for f in os.listdir(path) if f.startswith(uid)][0]`: the first file of uid in
      the listing, of any kind, or IndexError when no name starts with the uid. */
  function FirstFile(d: DataDir, uid: string): (r: Result<Frame>)
    ensures r.Success? <==> uid in d.subjects && d.subjects[uid].first.Some?
    ensures r.Success? ==> r.value == d.subjects[uid].first.value
    ensures r.Failure? ==> r.error == IndexError("list index out of range")
  {
    FirstMatch(Files(d, uid).first)
  }

  /** The activity export of uid: IndexError when the listing has none. */
  function ActivityFile(d: DataDir, uid: string): (r: Result<Frame>)
    ensures r.Success? <==> uid in d.subjects && d.subjects[uid].activity.Some?
    ensures r.Success? ==> r.value == d.subjects[uid].activity.value
    ensures r.Failure? ==> r.error == IndexError("list index out of range")
  {
    FirstMatch(Files(d, uid).activity)
  }

  /** The sleep export of uid: IndexError when the listing has none. */
  function SleepFile(d: DataDir, uid: string): (r: Result<Frame>)
    ensures r.Success? <==> uid in d.subjects && d.subjects[uid].sleep.Some?
    ensures r.Success? ==> r.value == d.subjects[uid].sleep.value
    ensures r.Failure? ==> r.error == IndexError("list index out of range")
  {
    FirstMatch(Files(d, uid).sleep)
  }

  /** `sub-<uid>_sms-times.csv`: FileNotFoundError naming that file when it is absent. */
  function SmsFile(d: DataDir, uid: string): (r: Result<Frame>)
    ensures r.Success? <==> uid in d.subjects && d.subjects[uid].sms.Some?
    ensures r.Success? ==> r.value == d.subjects[uid].sms.value
    ensures r.Failure? ==> r.error == FileNotFound(SmsTimes(uid))
  {
    ReadCsv(Files(d, uid).sms, SmsTimes(uid))
  }

  /** The two runs of the task. */
  datatype Run = First | Second

  /** The run number as the file names write it. */
  function Tag(run: Run): string
  {
    if run == First then "01" else "02"
  }

  /** The task's event log of run "01" or "02": FileNotFoundError naming that run's file
      when it is absent. */
  function RunFile(d: DataDir, uid: string, run: Run): (r: Result<Frame>)
    ensures var file := if run == First then Files(d, uid).run1 else Files(d, uid).run2;
      (r.Success? <==> file.Some?) && (r.Success? ==> r.value == file.value)
    ensures uid !in d.subjects ==> r.Failure?
    ensures r.Failure? ==> r.error == FileNotFound(RunEvents(uid, Tag(run)))
  {
    ReadCsv(if run == First then Files(d, uid).run1 else Files(d, uid).run2, RunEvents(uid, Tag(run)))
  }

  predicate StartsWith(s: string, p: string)
  {
    |p| <= |s| && s[..|p|] == p
  }

  /** The survey exports whose names start with "DailySurveys", in listing order. */
  function SurveyExports(files: seq<(string, Frame)>): (r: seq<Frame>)
    ensures |r| <= |files|
    ensures forall f | f in r :: exists k :: 0 <= k < |files| && files[k].1 == f && StartsWith(files[k].0, "DailySurveys")
    ensures r == [] <==> forall k :: 0 <= k < |files| ==> !StartsWith(files[k].0, "DailySurveys")
  {
    if files == [] then []
    else
      var rest := SurveyExports(files[1..]);
      assert forall k :: 1 <= k < |files| ==> files[k] == files[1..][k - 1];
      if StartsWith(files[0].0, "DailySurveys") then [files[0].1] + rest else rest
  }

  /** `pd.read_csv` of one survey export by its full name. */
  function NamedSurvey(files: seq<(string, Frame)>, name: string): (r: Result<Frame>)
    ensures r.Success? <==> exists k :: 0 <= k < |files| && files[k].0 == name
    ensures r.Failure? ==> r.error == FileNotFound(Export(name))
  {
    if files == [] then Failure(FileNotFound(Export(name)))
    else if files[0].0 == name then Success(files[0].1)
    else
      var r := NamedSurvey(files[1..], name);
      assert forall k :: 1 <= k < |files| ==> files[k] == files[1..][k - 1];
      r
  }
}
