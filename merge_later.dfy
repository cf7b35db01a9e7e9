/** `mergeFilesForUser` and `getCombinedFile` of the later merge script
    (data_merge/mergeData.py): activity, sleep, SMS and survey rows aligned on a date
    string with left joins, then left-joined to the two task runs on the message key.

    The script rebinds and updates its frames statement by statement; here each group of
    statements is one stage function from frame to frame, and the stages are chained in the
    script's order, so an exception surfaces from the same statement it would in Python. */
module MergeLater {
  import opened Results
  import opened Strings
  import opened Frames
  import opened Joins
  import opened Sorting
  import opened Fields
  import opened RawData
  import opened Collecting

  /** The columns of the returned frame, in order: `sub` and `run`, the event and SMS
      columns, the activity date, then the activity, survey and sleep columns. */
  const EventCols: seq<string> := [
    "onset", "duration", "trial", "trial_type", "rating", "resp_time", "subj_day_num", "sms_timestamp"]

  const DayCols: seq<string> := [
    "TotalSteps", "TotalSteps_norm", "TotalDistance",
    "VeryActiveDistance", "ModeratelyActiveDistance", "LightActiveDistance", "SedentaryActiveDistance",
    "VeryActiveMinutes", "FairlyActiveMinutes", "LightlyActiveMinutes", "SedentaryMinutes",
    "Calories", "Floors", "CaloriesBMR", "MarginalCalories", "RestingHeartRate", "RestingHeartRate_norm",
    "valence", "s_ns", "msg_id", "message",
    "survey_complete_timestamp", "location", "lap", "hap", "han", "lan", "la", "p", "n", "ha", "self_efficacy_daily",
    "TotalSleepRecords", "TotalMinutesAsleep", "TotalMinutesLight", "TotalMinutesDeep", "TotalMinutesREM"]

  const FinalCols: seq<string> := ["sub", "run"] + EventCols + ["ActivityDate"] + DayCols

  lemma ActivityDateAt()
    ensures IndexOf(FinalCols, "ActivityDate") == Some(10)
  {
    IndexOfFirst(["sub", "run"] + EventCols, "ActivityDate", DayCols);
  }

  /** The per-run frame's columns. */
  function SplitCols(): seq<string>
  {
    ["sub", "run"] + EventCols + DayCols
  }

  /** `finalCols.remove('ActivityDate')` gives the per-run frame's columns. */
  lemma SplitColsRemoveActivityDate()
    ensures RemoveFirst(FinalCols, "ActivityDate") == SplitCols()
  {
    assert "ActivityDate" !in ["sub", "run"] + EventCols;
    RemoveFirstSplit(["sub", "run"] + EventCols, "ActivityDate", DayCols);
  }

  /** `finalCols[2:]`: the columns written to each run's file. */
  function RunCols(): (cols: seq<string>)
    ensures cols == EventCols + DayCols
    ensures cols[0] == "onset" && cols[2] == "trial"
  {
    SplitCols()[2..]
  }

  lemma RunColsInSplit()
    ensures "run" in SplitCols()
    ensures forall j :: 0 <= j < |RunCols()| ==> RunCols()[j] in SplitCols()
  {
    assert SplitCols()[1] == "run";
    forall j | 0 <= j < |RunCols()| ensures RunCols()[j] in SplitCols() {
      assert SplitCols()[j + 2] == RunCols()[j];
    }
  }

  // ---------------------------------------------------------------------------
  // Activity and sleep (data_merge/mergeData.py:91-105)
  // ---------------------------------------------------------------------------

  /** The activity log with its dates reformatted, left-joined to the sleep log on the
      sleep day's reformatted date. */
  function ActivitySleep(activity: Frame, sleep: Frame): (r: Result<Frame>)
    ensures "ActivityDate" !in activity.cols ==> r == Failure(KeyError("ActivityDate"))
    ensures r.Success? ==> "ActivityDate" in activity.cols && "SleepDay" in sleep.cols
    ensures r.Success? ==> forall i :: 0 <= i < |activity.rows| ==>
      FormatDateCell(At(activity.rows[i], IndexOf(activity.cols, "ActivityDate").value)).Success?
    ensures r.Success? ==> |r.value.rows| >= |activity.rows|
  {
    var act :- ApplyColumn(activity, "ActivityDate", "ActivityDate", FormatDateCell);
    var toFormat :- ApplyColumn(sleep, "SleepDay", "DateToFormat", FirstWordCell);
    var toMerge :- ApplyColumn(toFormat, "DateToFormat", "DateToMerge", FormatDateCell);
    Merge(act, toMerge, "ActivityDate", "DateToMerge", LeftJoin)
  }

  // ---------------------------------------------------------------------------
  // SMS log (data_merge/mergeData.py:113-129)
  // ---------------------------------------------------------------------------

  /** The SMS export with its unnamed index column renamed to the day counter. */
  function DayColumn(sms: Frame): (r: Frame)
    ensures r.rows == sms.rows
    ensures "Unnamed: 0" in sms.cols ==> "subj_day_num" in r.cols
  {
    var r := Rename(sms, map["Unnamed: 0" := "subj_day_num"]);
    assert "Unnamed: 0" in sms.cols ==> r.cols[IndexOf(sms.cols, "Unnamed: 0").value] == "subj_day_num";
    r
  }

  /** A numeric day counter went up by one. */
  predicate CountedOn(day: Cell, next: Cell)
  {
    IsNumber(day) ==> IsNumber(next) && NumValue(next) == NumValue(day) + 1.0
  }

  /** Renaming the index column moves no other column. */
  lemma DayColumnKeeps(sms: Frame, name: string)
    requires name != "Unnamed: 0" && name != "subj_day_num"
    ensures IndexOf(DayColumn(sms).cols, name) == IndexOf(sms.cols, name)
  {
    var named := DayColumn(sms);
    forall k | 0 <= k < |sms.cols| ensures named.cols[k] == name <==> sms.cols[k] == name {
    }
    IndexOfMapped(sms.cols, named.cols, name);
  }

  /** The day counter raised by one, and SmsDate: the date of each timestamp that
      safeDateConvert accepts, NaN where it gave "N/A". */
  function PrepareSms(sms: Frame): (r: Result<Frame>)
    ensures "subj_day_num" !in DayColumn(sms).cols ==> r == Failure(KeyError("subj_day_num"))
    ensures r.Success? ==> |r.value.rows| == |sms.rows|
    ensures r.Success? ==> "subj_day_num" in r.value.cols && "SmsDate" in r.value.cols
    ensures r.Success? ==> "timestamp" in sms.cols
    ensures r.Success? ==> forall i :: 0 <= i < |sms.rows| ==>
      CountedOn(At(sms.rows[i], IndexOf(DayColumn(sms).cols, "subj_day_num").value),
                At(r.value.rows[i], IndexOf(r.value.cols, "subj_day_num").value))
    ensures r.Success? ==> forall i :: 0 <= i < |sms.rows| ==>
      At(r.value.rows[i], IndexOf(r.value.cols, "SmsDate").value) == DateOrMissing(At(sms.rows[i], IndexOf(sms.cols, "timestamp").value))
  {
    var named := DayColumn(sms);
    var counted :- ApplyColumn(named, "subj_day_num", "subj_day_num", AddOne);
    var k :- Column(counted, "timestamp");
    var dates := seq(|counted.rows|, i requires 0 <= i < |counted.rows| => DateOrMissing(At(counted.rows[i], k)));
    var r := SetColumn(counted, "SmsDate", dates);
    SmsDayColumn(sms, counted, dates, r);
    SmsDateColumn(sms, counted, dates, r);
    Success(r)
  }

  /** The counter PrepareSms promises: it keeps its position through the SmsDate
      assignment and each numeric value went up by one. */
  lemma SmsDayColumn(sms: Frame, counted: Frame, dates: seq<Cell>, r: Frame)
    requires ApplyColumn(DayColumn(sms), "subj_day_num", "subj_day_num", AddOne) == Success(counted)
    requires "timestamp" in counted.cols
    requires dates == seq(|counted.rows|, i requires 0 <= i < |counted.rows| =>
      DateOrMissing(At(counted.rows[i], IndexOf(counted.cols, "timestamp").value)))
    requires r == SetColumn(counted, "SmsDate", dates)
    ensures |r.rows| == |sms.rows| && "subj_day_num" in r.cols && "SmsDate" in r.cols
    ensures forall i :: 0 <= i < |sms.rows| ==>
      CountedOn(At(sms.rows[i], IndexOf(DayColumn(sms).cols, "subj_day_num").value),
                At(r.rows[i], IndexOf(r.cols, "subj_day_num").value))
  {
    var named := DayColumn(sms);
    CountedCells(named, counted);
    SmsDateCells(counted, dates, r);
    var d := IndexOf(named.cols, "subj_day_num").value;
    assert IndexOf(r.cols, "subj_day_num") == Some(d);
    forall i | 0 <= i < |sms.rows|
      ensures CountedOn(At(sms.rows[i], d), At(r.rows[i], d))
    {
      assert At(r.rows[i], d) == At(counted.rows[i], d);
      assert sms.rows[i] == named.rows[i];
    }
  }

  /** The SmsDate column PrepareSms promises, read from the export's own timestamps. */
  lemma SmsDateColumn(sms: Frame, counted: Frame, dates: seq<Cell>, r: Frame)
    requires ApplyColumn(DayColumn(sms), "subj_day_num", "subj_day_num", AddOne) == Success(counted)
    requires "timestamp" in counted.cols
    requires dates == seq(|counted.rows|, i requires 0 <= i < |counted.rows| =>
      DateOrMissing(At(counted.rows[i], IndexOf(counted.cols, "timestamp").value)))
    requires r == SetColumn(counted, "SmsDate", dates)
    ensures "timestamp" in sms.cols
    ensures forall i :: 0 <= i < |sms.rows| ==>
      At(r.rows[i], IndexOf(r.cols, "SmsDate").value) == DateOrMissing(At(sms.rows[i], IndexOf(sms.cols, "timestamp").value))
  {
    var named := DayColumn(sms);
    DayColumnKeeps(sms, "timestamp");
    var t := IndexOf(named.cols, "timestamp").value;
    CountedKeeps(named, counted, t);
    SmsDateCells(counted, dates, r);
  }

  /** `+ 1` on the counter leaves column t alone. */
  lemma CountedKeeps(named: Frame, counted: Frame, t: nat)
    requires ApplyColumn(named, "subj_day_num", "subj_day_num", AddOne) == Success(counted)
    requires t < |named.cols| && named.cols[t] != "subj_day_num"
    ensures counted.cols == named.cols && |counted.rows| == |named.rows|
    ensures forall i :: 0 <= i < |named.rows| ==> At(counted.rows[i], t) == At(named.rows[i], t)
  {
    forall i | 0 <= i < |named.rows| ensures At(counted.rows[i], t) == At(named.rows[i], t) {
      assert named.rows[i] in named.rows && counted.rows[i] in counted.rows;
    }
  }

  /** After `+ 1` on the counter: each numeric counter grew by one, other columns kept. */
  lemma CountedCells(named: Frame, counted: Frame)
    requires ApplyColumn(named, "subj_day_num", "subj_day_num", AddOne) == Success(counted)
    ensures counted.cols == named.cols && |counted.rows| == |named.rows| && "subj_day_num" in named.cols
    ensures forall i :: 0 <= i < |named.rows| ==>
      var d := IndexOf(named.cols, "subj_day_num").value;
      CountedOn(At(named.rows[i], d), At(counted.rows[i], d))
  {
  }

  /** After setting SmsDate: the counter is where it was, and SmsDate holds the dates. */
  lemma SmsDateCells(counted: Frame, dates: seq<Cell>, r: Frame)
    requires "subj_day_num" in counted.cols && "timestamp" in counted.cols
    requires dates == seq(|counted.rows|, i requires 0 <= i < |counted.rows| =>
      DateOrMissing(At(counted.rows[i], IndexOf(counted.cols, "timestamp").value)))
    requires r == SetColumn(counted, "SmsDate", dates)
    ensures |r.rows| == |counted.rows| && "subj_day_num" in r.cols && "SmsDate" in r.cols
    ensures IndexOf(r.cols, "subj_day_num") == IndexOf(counted.cols, "subj_day_num")
    ensures forall i :: 0 <= i < |counted.rows| ==>
      var d := IndexOf(counted.cols, "subj_day_num").value;
      At(r.rows[i], d) == At(counted.rows[i], d)
    ensures forall i :: 0 <= i < |counted.rows| ==>
      At(r.rows[i], IndexOf(r.cols, "SmsDate").value) == DateOrMissing(At(counted.rows[i], IndexOf(counted.cols, "timestamp").value))
  {
    if "SmsDate" !in counted.cols {
      IndexOfAppend(counted.cols, "SmsDate", "subj_day_num");
    }
    var d := IndexOf(counted.cols, "subj_day_num").value;
    forall i | 0 <= i < |counted.rows| ensures At(r.rows[i], d) == At(counted.rows[i], d) {
      assert counted.rows[i] in counted.rows;
    }
  }

  /** The SMS rows left-joined on the date, with the day counter moved to the front. */
  function ActivitySms(actSleep: Frame, sms: Frame): (r: Result<Frame>)
    ensures r.Success? ==> |r.value.rows| >= |actSleep.rows|
    ensures r.Success? ==> |r.value.cols| >= 1 && r.value.cols[0] == "subj_day_num"
  {
    var joined :- Merge(actSleep, sms, "ActivityDate", "SmsDate", LeftJoin);
    MoveToFront(joined, "subj_day_num")
  }

  // ---------------------------------------------------------------------------
  // Daily surveys (data_merge/mergeData.py:132-154)
  // ---------------------------------------------------------------------------

  /** `== int(uid)` on one cell: only a number of that value compares equal. */
  predicate SameNumber(c: Cell, n: int)
  {
    IsNumber(c) && NumValue(c) == n as real
  }

  /** The rows whose cell k compares equal to the number n, in their order. */
  function NumberRows(rows: seq<Row>, k: nat, n: int): (w: seq<Row>)
    ensures forall r | r in w :: r in rows && SameNumber(At(r, k), n)
    ensures forall r | r in rows && SameNumber(At(r, k), n) :: r in w
    ensures |w| <= |rows|
  {
    if rows == [] then []
    else (if SameNumber(At(rows[0], k), n) then [rows[0]] else []) + NumberRows(rows[1..], k, n)
  }

  /** `surveyData.loc[surveyData['subject_id'] == int(uid)]`, and when that selects
      nothing the same selection by the string uid. */
  function SelectSubject(f: Frame, uid: string): (r: Result<Frame>)
    ensures r.Success? <==> "subject_id" in f.cols && IsDigits(uid)
    ensures "subject_id" !in f.cols ==> r == Failure(KeyError("subject_id"))
    ensures r.Success? ==> r.value.cols == f.cols && |r.value.rows| <= |f.rows|
    ensures r.Success? ==> var k := IndexOf(f.cols, "subject_id").value; var n := IntOf(uid).value;
      if exists row :: row in f.rows && SameNumber(At(row, k), n) then
        forall row :: row in r.value.rows <==> row in f.rows && SameNumber(At(row, k), n)
      else
        forall row :: row in r.value.rows <==> row in f.rows && At(row, k) == Text(uid)
  {
    var k :- Column(f, "subject_id");
    var n :- IntOf(uid);
    var byNumber := NumberRows(f.rows, k, n);
    if byNumber != [] then
      assert byNumber[0] in byNumber;
      PickedRows(f, byNumber);
      Success(Table(f.cols, byNumber))
    else
      PickedRows(f, Where(f.rows, k, Text(uid)));
      Success(Table(f.cols, Where(f.rows, k, Text(uid))))
  }

  function DateCell(c: Cell): Result<Cell>
  {
    Success(DateOrMissing(c))
  }

  /** The survey export with SurveyDate added (NaN where safeDateConvert gave "N/A"),
      cut down to this subject's rows. */
  function SurveysForUser(survey: Frame, uid: string): (r: Result<Frame>)
    ensures "daily_survey_timestamp" !in survey.cols ==> r == Failure(KeyError("daily_survey_timestamp"))
    ensures r.Success? ==> "SurveyDate" in r.value.cols && |r.value.rows| <= |survey.rows|
  {
    var dated :- ApplyColumn(survey, "daily_survey_timestamp", "SurveyDate", DateCell);
    SelectSubject(dated, uid)
  }

  /** This subject's surveys left-joined on the date, every NaN then filled with "NA". */
  function AttachSurveys(actSms: Frame, surveys: Frame): (r: Result<Frame>)
    ensures r.Success? <==> "ActivityDate" in actSms.cols && "SurveyDate" in surveys.cols
    ensures r.Success? ==> |r.value.rows| >= |actSms.rows|
  {
    var joined :- Merge(actSms, surveys, "ActivityDate", "SurveyDate", LeftJoin);
    Success(FillNa(joined, "NA"))
  }

  /** After the fill no cell of the joined days is NaN. */
  lemma AttachSurveysFilled(actSms: Frame, surveys: Frame)
    ensures var r := AttachSurveys(actSms, surveys);
      r.Success? ==> forall i, k :: 0 <= i < |r.value.rows| && 0 <= k < |r.value.cols| ==> r.value.rows[i][k] != Missing
  {
  }

  // ---------------------------------------------------------------------------
  // Task runs and the event join (data_merge/mergeData.py:165-177)
  // ---------------------------------------------------------------------------

  /** `run['run'] = tag`: every row of the run labelled. */
  function LabelRun(f: Frame, tag: string): (r: Frame)
    ensures |r.rows| == |f.rows| && "run" in r.cols
    ensures r.cols == if "run" in f.cols then f.cols else f.cols + ["run"]
    ensures forall i :: 0 <= i < |r.rows| ==> At(r.rows[i], IndexOf(r.cols, "run").value) == Text(tag)
  {
    SetColumn(f, "run", seq(|f.rows|, _ => Text(tag)))
  }

  /** `pd.concat([run1, run2])` of the labelled runs: the first run's rows carry "01",
      the second run's "02". */
  function Events(run1: Frame, run2: Frame): (r: Frame)
    ensures |r.rows| == |run1.rows| + |run2.rows| && "run" in r.cols
    ensures forall i :: 0 <= i < |r.rows| ==>
      At(r.rows[i], IndexOf(r.cols, "run").value) == Text(if i < |run1.rows| then "01" else "02")
  {
    var a := LabelRun(run1, "01");
    var b := LabelRun(run2, "02");
    ConcatCell(a, b, "run");
    Concat(a, b)
  }

  /** The event rows left-joined on the message key: the task's `id` against `msg_id`. */
  function JoinEvents(withIds: Frame, events: Frame): (r: Result<Frame>)
    ensures r.Success? <==> "msg_id" in withIds.cols && "id" in events.cols
    ensures r.Success? ==> |r.value.rows| >= |withIds.rows|
  {
    Merge(withIds, events, "msg_id", "id", LeftJoin)
  }

  // ---------------------------------------------------------------------------
  // Normalised columns, names, fill and timestamp (data_merge/mergeData.py:182-197)
  // ---------------------------------------------------------------------------

  /** The floating-point z-score `(x - col.mean()) / col.std()` of a value x against a
      converted column; the statistics are left to this parameter. */
  type Scorer = (seq<Cell>, real) -> Cell

  /** `series.apply(lambda x: int(x) if x != "NA" else np.NaN)` on column k. */
  function Converted(rows: seq<Row>, k: nat): (r: Result<seq<Cell>>)
    ensures r.Success? <==> forall i :: 0 <= i < |rows| ==> IntOrNaN(At(rows[i], k)).Success?
    ensures r.Success? ==> |r.value| == |rows|
    ensures r.Success? ==> forall i :: 0 <= i < |rows| ==> r.value[i] == IntOrNaN(At(rows[i], k)).value
    ensures r.Failure? ==> exists i :: 0 <= i < |rows| && IntOrNaN(At(rows[i], k)) == Failure(r.error)
  {
    MapRows(rows, row => IntOrNaN(At(row, k)))
  }

  /** One cell of `(cells - conv.mean()) / conv.std()`: NaN stays NaN. */
  function Score(c: Cell, conv: seq<Cell>, norm: Scorer): Cell
  {
    if IsNumber(c) then norm(conv, NumValue(c)) else Missing
  }

  /** `(cells - conv.mean()) / conv.std()`: subtracting a float from a string raises
      TypeError, so a single text cell in cells fails the whole column. */
  function Scores(cells: seq<Cell>, conv: seq<Cell>, norm: Scorer): (r: Result<seq<Cell>>)
    ensures r.Success? <==> forall i :: 0 <= i < |cells| ==> !cells[i].Text?
    ensures r.Failure? ==> r.error.TypeError?
    ensures r.Success? ==> |r.value| == |cells| && forall i :: 0 <= i < |cells| ==> r.value[i] == Score(cells[i], conv, norm)
  {
    if exists i :: 0 <= i < |cells| && cells[i].Text? then
      Failure(TypeError("unsupported operand type(s) for -: 'str' and 'float'"))
    else
      Success(seq(|cells|, i requires 0 <= i < |cells| => Score(cells[i], conv, norm)))
  }

  /** The z-scores of TotalSteps and RestingHeartRate as TotalSteps_norm and
      RestingHeartRate_norm. Both columns are converted first (an "NA" becomes NaN, NaN
      itself raises ValueError); the heart rates are then scored from the converted column,
      but the step counts from the column as it stands, where the fill left its "NA" marker:
      a day without activity data fails the run with TypeError. */
  function Normalise(f: Frame, norm: Scorer): (r: Result<Frame>)
    ensures "TotalSteps" !in f.cols ==> r == Failure(KeyError("TotalSteps"))
    ensures "TotalSteps" in f.cols ==> var steps := Converted(f.rows, IndexOf(f.cols, "TotalSteps").value);
      && (steps.Failure? ==> r == Failure(steps.error))
      && (steps.Success? && "RestingHeartRate" !in f.cols ==> r == Failure(KeyError("RestingHeartRate")))
    ensures "TotalSteps" in f.cols && (exists i :: 0 <= i < |f.rows| && At(f.rows[i], IndexOf(f.cols, "TotalSteps").value) == Text("NA"))
      ==> r.Failure?
    ensures r.Success? ==> "TotalSteps" in f.cols && "RestingHeartRate" in f.cols && |r.value.rows| == |f.rows|
    ensures r.Success? ==> "TotalSteps_norm" in r.value.cols && "RestingHeartRate_norm" in r.value.cols
    ensures r.Success? ==> forall n :: n in r.value.cols <==> n in f.cols || n == "TotalSteps_norm" || n == "RestingHeartRate_norm"
  {
    var ks :- Column(f, "TotalSteps");
    var steps :- Converted(f.rows, ks);
    var kh :- Column(f, "RestingHeartRate");
    var hr :- Converted(f.rows, kh);
    var stepsNorm :- Scores(ColumnCells(f.rows, ks), steps, norm);
    Success(SetNorms(f, stepsNorm, HeartRateScores(hr, norm).value))
  }

  /** What a successful Normalise writes: every step count is a number, scored against
      the converted step counts; every heart rate is scored from its converted value, so
      an "NA" heart rate gives NaN. */
  lemma NormaliseCells(f: Frame, norm: Scorer, i: nat)
    requires Normalise(f, norm).Success? && i < |f.rows|
    ensures "TotalSteps" in f.cols && "RestingHeartRate" in f.cols
    ensures var r := Normalise(f, norm).value;
      var raw := At(f.rows[i], IndexOf(f.cols, "TotalSteps").value);
      && IsNumber(raw)
      && At(r.rows[i], IndexOf(r.cols, "TotalSteps_norm").value)
           == norm(Converted(f.rows, IndexOf(f.cols, "TotalSteps").value).value, NumValue(raw))
    ensures var r := Normalise(f, norm).value;
      var conv := Converted(f.rows, IndexOf(f.cols, "RestingHeartRate").value);
      && conv.Success?
      && At(r.rows[i], IndexOf(r.cols, "RestingHeartRate_norm").value) == Score(conv.value[i], conv.value, norm)
      && (At(f.rows[i], IndexOf(f.cols, "RestingHeartRate").value) == Text("NA") ==> conv.value[i] == Missing)
  {
    var ks := IndexOf(f.cols, "TotalSteps").value;
    var kh := IndexOf(f.cols, "RestingHeartRate").value;
    var steps := Converted(f.rows, ks).value;
    var hr := Converted(f.rows, kh).value;
    var stepsNorm := Scores(ColumnCells(f.rows, ks), steps, norm).value;
    var hrNorm := HeartRateScores(hr, norm).value;
    assert Normalise(f, norm).value == SetNorms(f, stepsNorm, hrNorm);
    assert ColumnCells(f.rows, ks)[i] == At(f.rows[i], ks);
    assert IntOrNaN(At(f.rows[i], ks)).Success?;
  }

  /** The heart rates are scored from their converted column, which holds no text. */
  function HeartRateScores(hr: seq<Cell>, norm: Scorer): (r: Result<seq<Cell>>)
    requires forall i :: 0 <= i < |hr| ==> hr[i] == Missing || hr[i].Int?
    ensures r.Success? && |r.value| == |hr| && forall i :: 0 <= i < |hr| ==> r.value[i] == Score(hr[i], hr, norm)
  {
    Scores(hr, hr, norm)
  }

  /** `df["TotalSteps_norm"] = steps` then `df["RestingHeartRate_norm"] = hr`. */
  function SetNorms(f: Frame, steps: seq<Cell>, hr: seq<Cell>): (r: Frame)
    requires |steps| == |f.rows| && |hr| == |f.rows|
    ensures |r.rows| == |f.rows|
    ensures forall n :: n in r.cols <==> n in f.cols || n == "TotalSteps_norm" || n == "RestingHeartRate_norm"
    ensures forall i :: 0 <= i < |f.rows| ==> At(r.rows[i], IndexOf(r.cols, "TotalSteps_norm").value) == steps[i]
    ensures forall i :: 0 <= i < |f.rows| ==> At(r.rows[i], IndexOf(r.cols, "RestingHeartRate_norm").value) == hr[i]
    ensures forall i, k :: 0 <= i < |f.rows| && 0 <= k < |f.cols| && f.cols[k] != "TotalSteps_norm" && f.cols[k] != "RestingHeartRate_norm"
                 ==> At(r.rows[i], k) == f.rows[i][k]
  {
    var g := SetColumn(f, "TotalSteps_norm", steps);
    var r := SetColumn(g, "RestingHeartRate_norm", hr);
    var ks := IndexOf(g.cols, "TotalSteps_norm").value;
    assert g.cols[ks] == "TotalSteps_norm";
    assert IndexOf(r.cols, "TotalSteps_norm").value == ks by {
      if r.cols != g.cols { IndexOfAppend(g.cols, "RestingHeartRate_norm", "TotalSteps_norm"); }
    }
    r
  }

  /** The second rename's table. */
  const Renames: map<string, string> := map[
    "unix_timestamp" := "sms_timestamp",
    "valence_x" := "valence",
    "s_ns_x" := "s_ns",
    "id_x" := "msg_id",
    "daily_survey_timestamp" := "survey_complete_timestamp"]

  /** The name a column ends up with after both renames. */
  function FinalName(name: string): string
  {
    if name == "msg_id" then "msg_id_combined" else if name in Renames then Renames[name] else name
  }

  /** The two in-place renames, first msg_id to msg_id_combined and then the table: the
      key column is not renamed back, and the event's own id_x becomes msg_id. */
  function Relabel(f: Frame): (r: Frame)
    ensures r.rows == f.rows && |r.cols| == |f.cols|
    ensures forall k :: 0 <= k < |f.cols| ==> r.cols[k] == FinalName(f.cols[k])
  {
    var first := Rename(f, map["msg_id" := "msg_id_combined"]);
    Rename(first, Renames)
  }

  /** A survey timestamp after the fill and `dateToUnix`: a missing one, or one already
      marked "NA", stays "NA"; any other goes through the parser. */
  function StampedCell(c: Cell, parse: Cell -> Result<Cell>): (r: Result<Cell>)
    ensures c == Missing || c == Text("NA") ==> r == Success(Text("NA"))
    ensures c != Missing && c != Text("NA") ==> r == parse(c)
  {
    DateToUnix(if c == Missing then Text("NA") else c, parse)
  }

  /** `fillna('NA')`, `dateToUnix` down survey_complete_timestamp (the parser of other
      timestamps is the parameter parse), and `sub` set to the subject's number: it fails
      exactly when some timestamp fails to parse, and otherwise every row holds its
      stamped timestamp and the subject's number. */
  function Stamp(f: Frame, sub: int, parse: Cell -> Result<Cell>): (r: Result<Frame>)
    ensures "survey_complete_timestamp" !in f.cols ==> r == Failure(KeyError("survey_complete_timestamp"))
    ensures "survey_complete_timestamp" in f.cols ==> var k := IndexOf(f.cols, "survey_complete_timestamp").value;
      r.Success? <==> forall i :: 0 <= i < |f.rows| ==> StampedCell(At(f.rows[i], k), parse).Success?
    ensures r.Success? ==> |r.value.rows| == |f.rows| && "sub" in r.value.cols && "survey_complete_timestamp" in r.value.cols
    ensures r.Success? ==> forall i :: 0 <= i < |f.rows| ==> At(r.value.rows[i], IndexOf(r.value.cols, "sub").value) == Int(sub)
  {
    var filled := FillNa(f, "NA");
    var stamped :- ApplyColumn(filled, "survey_complete_timestamp", "survey_complete_timestamp", c => DateToUnix(c, parse));
    Success(SetColumn(stamped, "sub", seq(|stamped.rows|, _ => Int(sub))))
  }

  /** Row i of a stamped frame holds its own timestamp, stamped. */
  lemma StampedTimestamp(f: Frame, sub: int, parse: Cell -> Result<Cell>, i: nat)
    requires Stamp(f, sub, parse).Success? && i < |f.rows|
    ensures "survey_complete_timestamp" in f.cols
    ensures var r := Stamp(f, sub, parse).value;
      At(r.rows[i], IndexOf(r.cols, "survey_complete_timestamp").value)
        == StampedCell(At(f.rows[i], IndexOf(f.cols, "survey_complete_timestamp").value), parse).value
  {
    var filled := FillNa(f, "NA");
    var stamped := ApplyColumn(filled, "survey_complete_timestamp", "survey_complete_timestamp", c => DateToUnix(c, parse)).value;
    StampCells(f, filled, stamped, parse);
    var r := Stamp(f, sub, parse).value;
    assert r == SetColumn(stamped, "sub", seq(|stamped.rows|, _ => Int(sub)));
    var k := IndexOf(f.cols, "survey_complete_timestamp").value;
    assert f.cols[k] == "survey_complete_timestamp";
    assert IndexOf(r.cols, "survey_complete_timestamp").value == k by {
      if r.cols != stamped.cols { IndexOfAppend(stamped.cols, "sub", "survey_complete_timestamp"); }
    }
  }

  lemma StampCells(f: Frame, filled: Frame, stamped: Frame, parse: Cell -> Result<Cell>)
    requires "survey_complete_timestamp" in f.cols && filled == FillNa(f, "NA")
    requires ApplyColumn(filled, "survey_complete_timestamp", "survey_complete_timestamp", c => DateToUnix(c, parse)) == Success(stamped)
    ensures stamped.cols == f.cols && |stamped.rows| == |f.rows|
    ensures forall i :: 0 <= i < |f.rows| ==>
      var k := IndexOf(f.cols, "survey_complete_timestamp").value;
      At(stamped.rows[i], k) == StampedCell(At(f.rows[i], k), parse).value
  {
    var k := IndexOf(f.cols, "survey_complete_timestamp").value;
    forall i | 0 <= i < |f.rows|
      ensures At(stamped.rows[i], k) == StampedCell(At(f.rows[i], k), parse).value
    {
      assert At(filled.rows[i], k) == if At(f.rows[i], k) == Missing then Text("NA") else At(f.rows[i], k);
    }
  }

  // ---------------------------------------------------------------------------
  // Per-run files (data_merge/mergeData.py:208-220)
  // ---------------------------------------------------------------------------

  /** `f.loc[f['run'] == run].sort_values(by=['trial', 'onset'])[cols]` for columns that
      start with onset and have trial third: exactly the rows of that run, cut to cols,
      ascending by trial and then onset. */
  function SortedRun(f: Frame, run: string, cols: seq<string>): (r: Result<Frame>)
    requires |cols| > 2 && cols[0] == "onset" && cols[2] == "trial"
    ensures r.Success? <==> "run" in f.cols && forall j :: 0 <= j < |cols| ==> cols[j] in f.cols
    ensures r.Success? ==> r.value.cols == cols
    ensures r.Success? ==> (multiset(r.value.rows)
      == multiset(Project(Where(f.rows, IndexOf(f.cols, "run").value, Text(run)), Positions(f.cols, cols).value)))
    ensures r.Success? ==> SortedBy(r.value.rows, [2, 0])
  {
    var chosen :- WhereEq(f, "run", Text(run));
    var sorted :- SortValues(chosen, ["trial", "onset"]);
    var out :- Select(sorted, cols);
    ProjectPerm(sorted.rows, chosen.rows, Positions(f.cols, cols).value);
    SortedRunSorted(sorted, Positions(f.cols, ["trial", "onset"]).value, cols, out);
    Success(out)
  }

  /** Cutting rows sorted by (trial, onset) down to cols keeps them sorted by those
      columns' new positions. */
  lemma SortedRunSorted(sorted: Frame, keys: seq<nat>, cols: seq<string>, out: Frame)
    requires |cols| > 2 && cols[0] == "onset" && cols[2] == "trial"
    requires Positions(sorted.cols, ["trial", "onset"]) == Success(keys)
    requires SortedBy(sorted.rows, keys)
    requires Select(sorted, cols) == Success(out)
    ensures SortedBy(out.rows, [2, 0])
  {
    var ks := Positions(sorted.cols, cols).value;
    assert |keys| == 2 && ks[2] == keys[0] && ks[0] == keys[1];
    ProjectAt(sorted.rows, ks);
    forall i, j | 0 <= i < j < |out.rows| ensures RowLeq(out.rows[i], out.rows[j], [2, 0]) {
      PickedPair(sorted.rows[i], sorted.rows[j], ks, keys);
    }
  }

  lemma PickedPair(a: Row, b: Row, ks: seq<nat>, keys: seq<nat>)
    requires |keys| == 2 && |ks| > 2 && ks[2] == keys[0] && ks[0] == keys[1]
    requires RowLeq(a, b, keys)
    ensures RowLeq(Pick(a, ks), Pick(b, ks), [2, 0])
  {
    RowLeqPick(a, b, ks, keys, [2, 0]);
  }

  /** One run's file: its rows under `finalCols[2:]`, sorted by trial and onset. */
  function RunTable(f: Frame, run: string): (r: Result<Frame>)
    ensures r.Success? <==> "run" in f.cols && forall j :: 0 <= j < |RunCols()| ==> RunCols()[j] in f.cols
    ensures r.Success? ==> r.value.cols == RunCols()
    ensures r.Success? ==> (multiset(r.value.rows)
      == multiset(Project(Where(f.rows, IndexOf(f.cols, "run").value, Text(run)), Positions(f.cols, RunCols()).value)))
    ensures r.Success? ==> SortedBy(r.value.rows, [2, 0])
  {
    SortedRun(f, run, RunCols())
  }

  /** The path `write_csv` writes a run's file to: the uid and the run read back from
      their places in it, under data_clean. */
  function OutName(uid: string, run: string): (r: string)
    ensures |r| == |uid| + |run| + 59
    ensures r[..15] == "data_clean/sub-" && r[15..15 + |uid|] == uid
    ensures r[|r| - 20 - |run|..|r| - 20] == run && r[|r| - 20..] == "_events_all_vars.csv"
  {
    "data_clean/sub-" + uid + "_task-HealthMessage_run-" + run + "_events_all_vars.csv"
  }

  function RunFiles(split: Frame, uid: string): (r: Result<seq<(string, Frame)>>)
    ensures split.cols == SplitCols() ==> r.Success?
    ensures r.Success? ==> RunTable(split, "01").Success? && RunTable(split, "02").Success?
    ensures r.Success? ==> r.value == [(OutName(uid, "01"), RunTable(split, "01").value), (OutName(uid, "02"), RunTable(split, "02").value)]
  {
    RunColsInSplit();
    var a := RunTable(split, "01");
    var b := RunTable(split, "02");
    if a.Failure? then Failure(a.error)
    else Success([(OutName(uid, "01"), a.value), (OutName(uid, "02"), b.value)])
  }


  lemma SplitInFinal()
    ensures forall j :: 0 <= j < |SplitCols()| ==> SplitCols()[j] in FinalCols
  {
    forall j | 0 <= j < |SplitCols()| ensures SplitCols()[j] in FinalCols {
      if j < 10 { assert SplitCols()[j] == FinalCols[j]; } else { assert SplitCols()[j] == FinalCols[j + 1]; }
    }
  }

  // ---------------------------------------------------------------------------
  // One subject (data_merge/mergeData.py:70-226)
  // ---------------------------------------------------------------------------

  /** What `mergeFilesForUser` produces: the returned frame, and the files it writes
      (none unless write_csv is set). */
  datatype UserOutput = UserOutput(combined: Frame, files: seq<(string, Frame)>)

  /** `mergeFilesForUser(uid, write_csv)`: None when no survey export is present (the
      script prints and returns), the exception of the first statement that raises, or
      the merged frame and the per-run files. */
  function MergeFilesForUser(d: DataDir, uid: string, writeCsv: bool,
                             norm: Scorer, parse: Cell -> Result<Cell>): (r: Result<Option<UserOutput>>)
    ensures Files(d, uid).activity.None? || Files(d, uid).sleep.None? ==> r == Failure(IndexError("list index out of range"))
    ensures r.Success? ==> Files(d, uid).activity.Some? && Files(d, uid).sleep.Some? && Files(d, uid).sms.Some?
    ensures r.Success? && r.value.None? ==> SurveyExports(d.surveys) == []
    ensures r.Success? && SurveyExports(d.surveys) != [] ==> r.value.Some?
    ensures r.Success? && r.value.Some? ==> (
      && Files(d, uid).run1.Some? && Files(d, uid).run2.Some? && IsDigits(uid)
      && |r.value.value.combined.rows| >= |Files(d, uid).activity.value.rows|
      && Delivered(r.value.value, IntOf(uid).value, uid, writeCsv))
  {
    var actSms :- DailyRows(d, uid);
    var exports := SurveyExports(d.surveys);
    if exports == [] then Success(None)
    else
      var out :- WithSurveys(d, uid, actSms, exports[0], writeCsv, norm, parse);
      Success(Some(out))
  }

  /** The activity, sleep and SMS rows of one subject (data_merge/mergeData.py:89-129). */
  function DailyRows(d: DataDir, uid: string): (r: Result<Frame>)
    ensures Files(d, uid).activity.None? || Files(d, uid).sleep.None? ==> r == Failure(IndexError("list index out of range"))
    ensures r.Success? ==> (
      && Files(d, uid).activity.Some? && Files(d, uid).sleep.Some? && Files(d, uid).sms.Some?
      && |r.value.rows| >= |Files(d, uid).activity.value.rows|)
  {
    var activity :- ActivityFile(d, uid);
    var sleep :- SleepFile(d, uid);
    var actSleep :- ActivitySleep(activity, sleep);
    var sms :- SmsFile(d, uid);
    var counted :- PrepareSms(sms);
    ActivitySms(actSleep, counted)
  }

  /** The returned frame has the final columns and the subject's number in `sub`, and the
      files are the per-run tables of that frame without its activity date. */
  ghost predicate Delivered(o: UserOutput, sub: int, uid: string, writeCsv: bool)
  {
    && o.combined.cols == FinalCols
    && (forall i :: 0 <= i < |o.combined.rows| ==> o.combined.rows[i][0] == Int(sub))
    && (!writeCsv ==> o.files == [])
    && (writeCsv ==> (Select(o.combined, SplitCols()).Success?
                      && o.files == RunFiles(Select(o.combined, SplitCols()).value, uid).value))
  }

  /** From the survey export on (data_merge/mergeData.py:138-226). */
  function WithSurveys(d: DataDir, uid: string, actSms: Frame, survey: Frame, writeCsv: bool,
                       norm: Scorer, parse: Cell -> Result<Cell>): (r: Result<UserOutput>)
    ensures r.Success? ==> (
      && Files(d, uid).run1.Some? && Files(d, uid).run2.Some? && IsDigits(uid)
      && |r.value.combined.rows| >= |actSms.rows|
      && Delivered(r.value, IntOf(uid).value, uid, writeCsv))
  {
    var withIds :- Keyed(actSms, survey, uid);
    var run1 :- RunFile(d, uid, First);
    var run2 :- RunFile(d, uid, Second);
    Finish(withIds, run1, run2, IntOf(uid).value, uid, writeCsv, norm, parse)
  }

  /** This subject's surveys attached, NaN filled, and the message key added. */
  function Keyed(actSms: Frame, survey: Frame, uid: string): (r: Result<Frame>)
    ensures r.Success? ==> IsDigits(uid) && |r.value.rows| >= |actSms.rows|
  {
    var surveys :- SurveysForUser(survey, uid);
    var withSurveys :- AttachSurveys(actSms, surveys);
    AddMsgIds(withSurveys, true)
  }

  /** The event join, the normalised columns, the renames, fill and timestamp, and the
      output (data_merge/mergeData.py:171-226). */
  function Finish(withIds: Frame, run1: Frame, run2: Frame, sub: int, uid: string, writeCsv: bool,
                  norm: Scorer, parse: Cell -> Result<Cell>): (r: Result<UserOutput>)
    ensures r.Success? ==> |r.value.combined.rows| >= |withIds.rows| && Delivered(r.value, sub, uid, writeCsv)
  {
    var merged :- JoinEvents(withIds, Events(run1, run2));
    var normed :- Normalise(merged, norm);
    var stamped :- Stamp(Relabel(normed), sub, parse);
    Output(stamped, sub, uid, writeCsv)
  }

  /** `final_merged.copy()[finalCols]` and, when write_csv is set, the two run files cut
      from `final_merged[finalCols]` after `finalCols.remove('ActivityDate')`. */
  function Output(stamped: Frame, sub: int, uid: string, writeCsv: bool): (r: Result<UserOutput>)
    requires "sub" in stamped.cols
    requires forall i :: 0 <= i < |stamped.rows| ==> At(stamped.rows[i], IndexOf(stamped.cols, "sub").value) == Int(sub)
    ensures r.Success? ==> |r.value.combined.rows| == |stamped.rows| && Delivered(r.value, sub, uid, writeCsv)
  {
    var combined :- Select(stamped, FinalCols);
    SplitInFinal();
    var split := Select(stamped, SplitCols()).value;
    SelectTwice(stamped, FinalCols, SplitCols());
    SubFirst(stamped, FinalCols, sub);
    var files := if writeCsv then RunFiles(split, uid).value else [];
    Success(UserOutput(combined, files))
  }

  /** Selecting columns that start with `sub` puts the subject's number first in each row. */
  lemma SubFirst(stamped: Frame, names: seq<string>, sub: int)
    requires "sub" in stamped.cols && names != [] && names[0] == "sub"
    requires forall i :: 0 <= i < |stamped.rows| ==> At(stamped.rows[i], IndexOf(stamped.cols, "sub").value) == Int(sub)
    requires Select(stamped, names).Success?
    ensures forall i :: 0 <= i < |Select(stamped, names).value.rows| ==> Select(stamped, names).value.rows[i][0] == Int(sub)
  {
    var out := Select(stamped, names).value;
    forall i | 0 <= i < |out.rows| ensures out.rows[i][0] == Int(sub) {
      assert stamped.rows[i] in stamped.rows;
    }
  }

  // ---------------------------------------------------------------------------
  // All subjects (data_merge/mergeData.py:228-250)
  // ---------------------------------------------------------------------------

  /** One subject's frame as getCombinedFile asks for it, without the run files. */
  function Combined(d: DataDir, uid: string, norm: Scorer, parse: Cell -> Result<Cell>): (r: Result<Option<Frame>>)
    ensures r.Success? && r.value.Some? ==> r.value.value.cols == FinalCols
  {
    var o :- MergeFilesForUser(d, uid, false, norm, parse);
    Success(if o.None? then None else Some(o.value.combined))
  }

  /** The per-subject step of the loop, as a function of the uid. */
  function Merger(d: DataDir, norm: Scorer, parse: Cell -> Result<Cell>): string -> Result<Option<Frame>>
  {
    uid => Combined(d, uid, norm, parse)
  }

  lemma SortKeys()
    ensures Positions(FinalCols, ["sub", "ActivityDate"]) == Success([0, 10])
  {
    ActivityDateAt();
    assert FinalCols[0] == "sub";
    PositionsPair(FinalCols, "sub", "ActivityDate", 0, 10);
  }

  /** The frames concatenated and sorted by subject and activity date; rows with the same
      subject and date keep the order the concatenation gave them (the sort is stable). */
  function SortedConcat(frames: seq<Frame>): (r: Frame)
    requires frames != [] && forall k :: 0 <= k < |frames| ==> frames[k].cols == FinalCols
    ensures r.cols == FinalCols && multiset(r.rows) == multiset(Flatten(frames)) && SortedBy(r.rows, [0, 10])
    ensures forall y :: Ties(r.rows, y, [0, 10]) == Ties(Flatten(frames), y, [0, 10])
  {
    ConcatAllSameCols(frames, FinalCols);
    SortKeys();
    SortValues(ConcatAll(frames).value, ["sub", "ActivityDate"]).value
  }

  /** `getCombinedFile(uids)`: the exception of the first subject that raises, nothing
      (None) once a subject returns None, and otherwise every subject's rows together,
      ordered by subject and activity date. The CSV write is left out. */
  method GetCombinedFile(d: DataDir, uids: seq<string>, norm: Scorer, parse: Cell -> Result<Cell>)
    returns (r: Result<Option<Frame>>)
    ensures uids == [] ==> r == Failure(ValueError("No objects to concatenate"))
    ensures r.Failure? && uids != [] ==> exists j :: 0 <= j < |uids| && AllOk(uids, j, Merger(d, norm, parse))
                                                   && Combined(d, uids[j], norm, parse) == Failure(r.error)
    ensures r == Success(None) ==> exists j :: 0 <= j < |uids| && AllOk(uids, j, Merger(d, norm, parse))
                                               && Combined(d, uids[j], norm, parse) == Success(None)
    ensures r.Success? && r.value.Some? ==> (
      && AllOk(uids, |uids|, Merger(d, norm, parse))
      && r.value.value.cols == FinalCols
      && multiset(r.value.value.rows) == multiset(Flatten(Collected(uids, |uids|, Merger(d, norm, parse))))
      && SortedBy(r.value.value.rows, [0, 10])
      && forall y :: Ties(r.value.value.rows, y, [0, 10]) == Ties(Flatten(Collected(uids, |uids|, Merger(d, norm, parse))), y, [0, 10]))
    ensures AllOk(uids, |uids|, Merger(d, norm, parse)) && uids != [] ==> r.Success? && r.value.Some?
  {
    var merge := Merger(d, norm, parse);
    var frames := Collect(uids, merge);
    if frames.Failure? {
      return Failure(frames.error);
    }
    if frames.value.None? {
      return Success(None);
    }
    assert forall u :: merge(u).Success? && merge(u).value.Some? ==> merge(u).value.value.cols == FinalCols by {
      forall u | merge(u).Success? && merge(u).value.Some? ensures merge(u).value.value.cols == FinalCols {
        assert merge(u) == Combined(d, u, norm, parse);
      }
    }
    CollectedFrames(uids, |uids|, merge, FinalCols);
    if frames.value.value == [] {
      return Failure(ValueError("No objects to concatenate"));
    }
    return Success(Some(SortedConcat(frames.value.value)));
  }
}
