/** `mergeFilesForUser` and `getCombinedFile` of the earlier merge script
    (data-cleaning/mergeData.py). It differs from the later one in these ways:
    - the day file is the first file whose name starts with the uid, with no filter for
      the activity export;
    - there is no sleep log;
    - SMS rows are joined to activity days with an inner join, and the date is taken from
      a timestamp by an unguarded `x.split()[0]`;
    - the survey export has a fixed file name;
    - the subject's surveys are chosen by number only;
    - the message key keeps the id's text whole;
    - events are joined with an inner join;
    - `sub` is never assigned before the columns are picked;
    - the per-run tables are not cut down to fewer columns;
    - subjects are concatenated in uid order without sorting.

    Stages shared word for word with the later script are the later module's functions. */
module MergeEarlier {
  import opened Results
  import opened Strings
  import opened Frames
  import opened Joins
  import opened Sorting
  import opened Fields
  import opened RawData
  import opened Collecting
  import MergeLater

  /** The survey export the script reads, by its full name. */
  const SurveyExport: string := "DailySurveys_DATA_2019-09-11_1204.csv"

  /** The columns of the returned frame, in order (data-cleaning/mergeData.py:116-122):
      the event columns first, then the SMS, activity and survey columns. */
  const RunHead: seq<string> := ["sub", "run", "onset", "duration", "trial"]

  const DayPart: seq<string> := [
    "trial_type", "rating", "resp_time",
    "subj_day_num", "sms_timestamp", "TotalSteps", "TotalSteps_norm", "TotalDistance", "TrackerDistance",
    "LoggedActivitiesDistance",
    "VeryActiveDistance", "ModeratelyActiveDistance", "LightActiveDistance", "SedentaryActiveDistance",
    "VeryActiveMinutes", "FairlyActiveMinutes", "LightlyActiveMinutes", "SedentaryMinutes",
    "Calories", "Floors", "CaloriesBMR", "MarginalCalories", "RestingHeartRate", "RestingHeartRate_norm",
    "valence", "s_ns", "msg_id", "message",
    "survey_complete_timestamp", "location", "lap", "hap", "han", "lan", "la", "p", "n", "ha", "self_efficacy_daily"]

  const FinalCols: seq<string> := RunHead + DayPart

  /** A leading event column is found at its place in the final columns. */
  lemma HeadAt(k: nat, name: string)
    requires k < |RunHead| && RunHead[k] == name && name !in RunHead[..k]
    ensures IndexOf(FinalCols, name) == Some(k)
  {
    assert FinalCols[k] == RunHead[k];
    assert FinalCols[..k] == RunHead[..k];
    IndexOfAt(FinalCols, k, name);
  }

  /** Where the per-run sort finds its keys: trial fifth, onset third. */
  lemma SortKeys()
    ensures Positions(FinalCols, ["trial", "onset"]) == Success([4, 2])
  {
    HeadAt(4, "trial");
    HeadAt(2, "onset");
    PositionsPair(FinalCols, "trial", "onset", 4, 2);
  }

  lemma FinalColsHave()
    ensures "sub" in FinalCols && "survey_complete_timestamp" in FinalCols
  {
    assert FinalCols[0] == "sub";
    assert DayPart[28] == "survey_complete_timestamp";
    assert FinalCols[5 + 28] == DayPart[28];
  }

  // ---------------------------------------------------------------------------
  // Activity and SMS (data-cleaning/mergeData.py:51-69)
  // ---------------------------------------------------------------------------

  /** The activity log with `formatDate` applied down ActivityDate. */
  function Activity(activity: Frame): (r: Result<Frame>)
    ensures "ActivityDate" !in activity.cols ==> r == Failure(KeyError("ActivityDate"))
    ensures r.Success? ==> r.value.cols == activity.cols && |r.value.rows| == |activity.rows|
    ensures r.Success? ==> forall i :: 0 <= i < |activity.rows| ==>
      var k := IndexOf(activity.cols, "ActivityDate").value;
      FormatDateCell(At(activity.rows[i], k)).Success?
      && At(r.value.rows[i], k) == FormatDateCell(At(activity.rows[i], k)).value
  {
    ApplyColumn(activity, "ActivityDate", "ActivityDate", FormatDateCell)
  }

  /** The SMS export with the day counter renamed and raised by one, and SmsDate the first
      word of every timestamp. Unlike the later script, a timestamp that is not a
      non-blank str raises instead of giving no date. */
  function PrepareSms(sms: Frame): (r: Result<Frame>)
    ensures "subj_day_num" !in MergeLater.DayColumn(sms).cols ==> r == Failure(KeyError("subj_day_num"))
    ensures r.Success? ==> |r.value.rows| == |sms.rows| && "SmsDate" in r.value.cols && "timestamp" in sms.cols
    ensures r.Success? ==> forall i :: 0 <= i < |sms.rows| ==>
      var c := At(sms.rows[i], IndexOf(sms.cols, "timestamp").value);
      && c.Text? && !AllSpace(c.s)
      && At(r.value.rows[i], IndexOf(r.value.cols, "SmsDate").value) == Text(FirstWord(c.s).value)
    ensures r.Success? && "sub" in r.value.cols ==> "sub" in sms.cols
  {
    var named := MergeLater.DayColumn(sms);
    var counted :- ApplyColumn(named, "subj_day_num", "subj_day_num", AddOne);
    var r :- ApplyColumn(counted, "timestamp", "SmsDate", FirstWordCell);
    SmsDates(sms, counted, r);
    Success(r)
  }

  /** The dates PrepareSms promises, read from the export's own timestamps. */
  lemma SmsDates(sms: Frame, counted: Frame, r: Frame)
    requires ApplyColumn(MergeLater.DayColumn(sms), "subj_day_num", "subj_day_num", AddOne) == Success(counted)
    requires ApplyColumn(counted, "timestamp", "SmsDate", FirstWordCell) == Success(r)
    ensures |r.rows| == |sms.rows| && "SmsDate" in r.cols && "timestamp" in sms.cols
    ensures forall i :: 0 <= i < |sms.rows| ==>
      var c := At(sms.rows[i], IndexOf(sms.cols, "timestamp").value);
      && c.Text? && !AllSpace(c.s)
      && At(r.rows[i], IndexOf(r.cols, "SmsDate").value) == Text(FirstWord(c.s).value)
    ensures "sub" in r.cols ==> "sub" in sms.cols
  {
    SmsTimestamps(sms, counted);
    var t := IndexOf(sms.cols, "timestamp").value;
    forall i | 0 <= i < |sms.rows|
      ensures FirstWordCell(At(counted.rows[i], t)).Success?
      ensures At(r.rows[i], IndexOf(r.cols, "SmsDate").value) == FirstWordCell(At(counted.rows[i], t)).value
    {
    }
  }

  /** The timestamp column is where it was in the export, cell for cell. */
  lemma SmsTimestamps(sms: Frame, counted: Frame)
    requires ApplyColumn(MergeLater.DayColumn(sms), "subj_day_num", "subj_day_num", AddOne) == Success(counted)
    requires "timestamp" in counted.cols
    ensures "timestamp" in sms.cols && |counted.rows| == |sms.rows|
    ensures IndexOf(counted.cols, "timestamp") == IndexOf(sms.cols, "timestamp")
    ensures forall i :: 0 <= i < |sms.rows| ==>
      At(counted.rows[i], IndexOf(counted.cols, "timestamp").value) == At(sms.rows[i], IndexOf(sms.cols, "timestamp").value)
    ensures "sub" in counted.cols ==> "sub" in sms.cols
  {
    var named := MergeLater.DayColumn(sms);
    MergeLater.DayColumnKeeps(sms, "timestamp");
    MergeLater.DayColumnKeeps(sms, "sub");
    var t := IndexOf(named.cols, "timestamp").value;
    MergeLater.CountedKeeps(named, counted, t);
  }

  /** Activity days inner-joined to SMS rows on the date, the day counter moved first:
      days without a message and messages without an activity day are dropped. */
  function ActivitySms(act: Frame, sms: Frame): (r: Result<Frame>)
    ensures r.Success? <==> "ActivityDate" in act.cols && "SmsDate" in sms.cols
                            && "subj_day_num" in Merge(act, sms, "ActivityDate", "SmsDate", InnerJoin).value.cols
    ensures r.Success? ==> |r.value.cols| >= 1 && r.value.cols[0] == "subj_day_num"
    ensures r.Success? ==> |r.value.rows| == |Merge(act, sms, "ActivityDate", "SmsDate", InnerJoin).value.rows|
    ensures r.Success? && "sub" in r.value.cols ==> "sub" in act.cols || "sub" in sms.cols
  {
    var joined :- Merge(act, sms, "ActivityDate", "SmsDate", InnerJoin);
    MergeColsFrom(act, sms, "ActivityDate", "SmsDate", InnerJoin, "sub");
    MoveToFront(joined, "subj_day_num")
  }

  /** Every joined row holds the same date on both sides: the activity day it came from
      is the day of the SMS it was paired with. */
  lemma ActivitySmsSameDay(act: Frame, sms: Frame)
    requires "ActivityDate" in act.cols && "SmsDate" in sms.cols
    ensures var j := Merge(act, sms, "ActivityDate", "SmsDate", InnerJoin).value;
      forall i :: 0 <= i < |j.rows| ==>
        KeysAgree(j.rows[i], IndexOf(act.cols, "ActivityDate").value, |act.cols| + IndexOf(sms.cols, "SmsDate").value)
  {
    InnerMergeKeys(act, sms, "ActivityDate", "SmsDate");
  }

  // ---------------------------------------------------------------------------
  // Daily surveys (data-cleaning/mergeData.py:71-80)
  // ---------------------------------------------------------------------------

  /** `surveyData.loc[surveyData['subject_id'] == int(uid)]`: the rows whose subject id is
      that number; a subject id stored as text never matches. */
  function SubjectRows(f: Frame, uid: string): (r: Result<Frame>)
    ensures r.Success? <==> "subject_id" in f.cols && IsDigits(uid)
    ensures "subject_id" !in f.cols ==> r == Failure(KeyError("subject_id"))
    ensures r.Success? ==> r.value.cols == f.cols && |r.value.rows| <= |f.rows|
    ensures r.Success? ==> var k := IndexOf(f.cols, "subject_id").value;
      forall row :: row in r.value.rows <==> row in f.rows && MergeLater.SameNumber(At(row, k), IntOf(uid).value)
  {
    var k :- Column(f, "subject_id");
    var n :- IntOf(uid);
    PickedRows(f, MergeLater.NumberRows(f.rows, k, n));
    Success(Table(f.cols, MergeLater.NumberRows(f.rows, k, n)))
  }

  /** Where some row carries the subject's number, the later script's selection is this
      one; where none does, this one is empty and the later one falls back to the text. */
  lemma SubjectRowsAgainstLater(f: Frame, uid: string)
    requires SubjectRows(f, uid).Success?
    ensures var k := IndexOf(f.cols, "subject_id").value;
      if exists row :: row in f.rows && MergeLater.SameNumber(At(row, k), IntOf(uid).value) then
        MergeLater.SelectSubject(f, uid) == SubjectRows(f, uid)
      else
        SubjectRows(f, uid).value.rows == []
  {
    var k := IndexOf(f.cols, "subject_id").value;
    var n := IntOf(uid).value;
    var w := MergeLater.NumberRows(f.rows, k, n);
    if w != [] {
      assert w[0] in w;
    }
  }

  /** The survey export with SurveyDate the first word of each timestamp, cut down to this
      subject's rows. */
  function SurveysForUser(survey: Frame, uid: string): (r: Result<Frame>)
    ensures "daily_survey_timestamp" !in survey.cols ==> r == Failure(KeyError("daily_survey_timestamp"))
    ensures r.Success? ==> IsDigits(uid) && "SurveyDate" in r.value.cols && |r.value.rows| <= |survey.rows|
    ensures r.Success? && "sub" in r.value.cols ==> "sub" in survey.cols
  {
    var dated :- ApplyColumn(survey, "daily_survey_timestamp", "SurveyDate", FirstWordCell);
    SubjectRows(dated, uid)
  }

  /** Every timestamp of the export, this subject's or not, had a first word: `split`
      runs down the whole column before the rows are chosen. */
  lemma SurveyTimestampsSplit(survey: Frame, uid: string)
    ensures SurveysForUser(survey, uid).Success? ==> forall i :: 0 <= i < |survey.rows| ==>
      FirstWordCell(At(survey.rows[i], IndexOf(survey.cols, "daily_survey_timestamp").value)).Success?
  {
  }

  /** This subject's surveys attached and NaN filled, then the message key with the id's
      text kept whole. */
  function Keyed(actSms: Frame, survey: Frame, uid: string): (r: Result<Frame>)
    ensures r.Success? ==> IsDigits(uid) && |r.value.rows| >= |actSms.rows| && "msg_id" in r.value.cols
    ensures r.Success? && "sub" in r.value.cols ==> "sub" in actSms.cols || "sub" in survey.cols
  {
    var surveys :- SurveysForUser(survey, uid);
    var withSurveys :- MergeLater.AttachSurveys(actSms, surveys);
    MergeColsFrom(actSms, surveys, "ActivityDate", "SurveyDate", LeftJoin, "sub");
    AddMsgIds(withSurveys, false)
  }

  // ---------------------------------------------------------------------------
  // Events, normalised columns and the picked columns (data-cleaning/mergeData.py:90-124)
  // ---------------------------------------------------------------------------

  /** The keyed days inner-joined to the events of both runs on the message key. */
  function JoinEvents(withIds: Frame, events: Frame): (r: Result<Frame>)
    ensures r.Success? <==> "msg_id" in withIds.cols && "id" in events.cols
    ensures r.Success? && "sub" in r.value.cols ==> "sub" in withIds.cols || "sub" in events.cols
  {
    var m := Merge(withIds, events, "msg_id", "id", InnerJoin);
    if m.Failure? then m
    else
      MergeColsFrom(withIds, events, "msg_id", "id", InnerJoin, "sub");
      m
  }

  /** Each joined row pairs a day with an event of the same message key. */
  lemma JoinEventsKeys(withIds: Frame, events: Frame)
    requires "msg_id" in withIds.cols && "id" in events.cols
    ensures var rows := Merge(withIds, events, "msg_id", "id", InnerJoin).value.rows;
      forall i :: 0 <= i < |rows| ==>
        KeysAgree(rows[i], IndexOf(withIds.cols, "msg_id").value, |withIds.cols| + IndexOf(events.cols, "id").value)
  {
    InnerMergeKeys(withIds, events, "msg_id", "id");
  }


  /** No rename produces the name "sub". */
  lemma RelabelKeepsSub(f: Frame)
    ensures "sub" in MergeLater.Relabel(f).cols ==> "sub" in f.cols
  {
    var g := MergeLater.Relabel(f);
    if "sub" in g.cols {
      var k :| 0 <= k < |g.cols| && g.cols[k] == "sub";
      FinalNameSub(f.cols[k]);
    }
  }

  lemma FinalNameSub(name: string)
    ensures MergeLater.FinalName(name) == "sub" ==> name == "sub"
  {
    if name != "msg_id" && name in MergeLater.Renames {
      assert name in {"unix_timestamp", "valence_x", "s_ns_x", "id_x", "daily_survey_timestamp"};
    }
  }

  /** The normalised columns, the renames and the fill, then `final_merged[finalCols]`
      and `dateToUnix` down survey_complete_timestamp. The script never sets `sub`, so
      the selection raises KeyError('sub') unless a column of that name came in. */
  function Picked(merged: Frame, norm: MergeLater.Scorer, parse: Cell -> Result<Cell>): (r: Result<Frame>)
    ensures r.Success? ==> r.value.cols == FinalCols && |r.value.rows| == |merged.rows|
    ensures r.Success? ==> "sub" in merged.cols
  {
    var normed :- MergeLater.Normalise(merged, norm);
    var filled := FillNa(MergeLater.Relabel(normed), "NA");
    var selected :- Select(filled, FinalCols);
    FinalColsHave();
    SelectedFrom(filled, FinalCols, "sub");
    RelabelKeepsSub(normed);
    assert "sub" != "TotalSteps_norm" && "sub" != "RestingHeartRate_norm";
    ApplyColumn(selected, "survey_complete_timestamp", "survey_complete_timestamp", c => DateToUnix(c, parse))
  }

  // ---------------------------------------------------------------------------
  // Per-run files (data-cleaning/mergeData.py:126-133)
  // ---------------------------------------------------------------------------

  /** `f.loc[f['run'] == run].sort_values(by=['trial', 'onset'])` with every column kept:
      exactly the rows of that run, ascending by trial and then onset. */
  function RunTable(f: Frame, run: string): (r: Result<Frame>)
    ensures r.Success? <==> "run" in f.cols && "trial" in f.cols && "onset" in f.cols
    ensures r.Success? ==> r.value.cols == f.cols
    ensures r.Success? ==> multiset(r.value.rows) == multiset(Where(f.rows, IndexOf(f.cols, "run").value, Text(run)))
    ensures r.Success? ==> SortedBy(r.value.rows, Positions(f.cols, ["trial", "onset"]).value)
  {
    var chosen :- WhereEq(f, "run", Text(run));
    var keys := ["trial", "onset"];
    assert keys[0] == "trial" && keys[1] == "onset";
    SortValues(chosen, keys)
  }

  /** The run in column 1 and the sort keys trial in 4 and onset in 2, as under the final
      columns. */
  predicate RunKeys(cols: seq<string>)
  {
    IndexOf(cols, "run") == Some(1) && Positions(cols, ["trial", "onset"]) == Success([4, 2])
  }

  lemma FinalRunKeys()
    ensures RunKeys(FinalCols)
  {
    SortKeys();
    HeadAt(1, "run");
  }

  lemma RunTableAt(f: Frame, run: string)
    requires RunKeys(f.cols)
    ensures RunTable(f, run).Success? && RunTable(f, run).value.cols == f.cols
    ensures multiset(RunTable(f, run).value.rows) == multiset(Where(f.rows, 1, Text(run)))
    ensures SortedBy(RunTable(f, run).value.rows, [4, 2])
  {
    var p := Positions(f.cols, ["trial", "onset"]).value;
    assert "trial" in f.cols && "onset" in f.cols by {
      assert f.cols[p[0]] == "trial" && f.cols[p[1]] == "onset";
    }
  }

  /** Both runs' files by path: each the rows of its run, every column kept, sorted by
      trial and then onset. */
  function RunFiles(f: Frame, uid: string): (r: seq<(string, Frame)>)
    requires RunKeys(f.cols)
    ensures |r| == 2
    ensures r[0].0 == MergeLater.OutName(uid, "01") && r[1].0 == MergeLater.OutName(uid, "02")
    ensures r[0].1.cols == f.cols && r[1].1.cols == f.cols
    ensures SortedBy(r[0].1.rows, [4, 2]) && SortedBy(r[1].1.rows, [4, 2])
    ensures multiset(r[0].1.rows) == multiset(Where(f.rows, 1, Text("01")))
    ensures multiset(r[1].1.rows) == multiset(Where(f.rows, 1, Text("02")))
  {
    RunTableAt(f, "01");
    RunTableAt(f, "02");
    [(MergeLater.OutName(uid, "01"), RunTable(f, "01").value), (MergeLater.OutName(uid, "02"), RunTable(f, "02").value)]
  }

  // ---------------------------------------------------------------------------
  // One subject (data-cleaning/mergeData.py:32-136)
  // ---------------------------------------------------------------------------

  /** A file that was read and has a column named `sub`. */
  predicate HasSub(file: Option<Frame>)
  {
    file.Some? && "sub" in file.value.cols
  }

  /** One of the files the script reads for this subject has a `sub` column. */
  predicate SubColumnRead(d: DataDir, uid: string)
  {
    var f := Files(d, uid);
    var s := NamedSurvey(d.surveys, SurveyExport);
    HasSub(f.first) || HasSub(f.sms) || HasSub(f.run1) || HasSub(f.run2) || (s.Success? && "sub" in s.value.cols)
  }

  /** The files written: none, or with write_csv the two run files of the returned frame. */
  ghost predicate Written(o: MergeLater.UserOutput, uid: string, writeCsv: bool)
  {
    && (!writeCsv ==> o.files == [])
    && (writeCsv ==> RunKeys(o.combined.cols) && o.files == RunFiles(o.combined, uid))
  }

  /** `mergeFilesForUser(uid, write_csv)`: the exception of the first statement that
      raises, or the merged frame and, with write_csv, the two run files. It succeeds
      only if one of the files it read has a `sub` column of its own. */
  function MergeFilesForUser(d: DataDir, uid: string, writeCsv: bool,
                             norm: MergeLater.Scorer, parse: Cell -> Result<Cell>): (r: Result<MergeLater.UserOutput>)
    ensures Files(d, uid).first.None? ==> r == Failure(IndexError("list index out of range"))
    ensures r.Success? ==> (
      && Files(d, uid).first.Some? && Files(d, uid).sms.Some? && Files(d, uid).run1.Some? && Files(d, uid).run2.Some?
      && NamedSurvey(d.surveys, SurveyExport).Success? && IsDigits(uid))
    ensures r.Success? ==> SubColumnRead(d, uid)
    ensures r.Success? ==> r.value.combined.cols == FinalCols && Written(r.value, uid, writeCsv)
  {
    var actSms :- DailyRows(d, uid);
    var picked :- WithSurveys(d, uid, actSms, norm, parse);
    WithSurveysSub(d, uid, actSms, norm, parse);
    FinalRunKeys();
    Success(MergeLater.UserOutput(picked, if writeCsv then RunFiles(picked, uid) else []))
  }

  /** The days and their SMS rows (data-cleaning/mergeData.py:51-69), read from the first
      file of uid in the listing: a listing with no file of uid raises IndexError, and a
      first file without an ActivityDate column (a sleep log listed first, say) raises
      KeyError. */
  function DailyRows(d: DataDir, uid: string): (r: Result<Frame>)
    ensures Files(d, uid).first.None? ==> r == Failure(IndexError("list index out of range"))
    ensures Files(d, uid).first.Some? && "ActivityDate" !in Files(d, uid).first.value.cols ==>
      r == Failure(KeyError("ActivityDate"))
    ensures r.Success? ==> Files(d, uid).first.Some? && Files(d, uid).sms.Some?
    ensures r.Success? && "sub" in r.value.cols ==> HasSub(Files(d, uid).first) || HasSub(Files(d, uid).sms)
  {
    var activity :- FirstFile(d, uid);
    var act :- Activity(activity);
    var sms :- SmsFile(d, uid);
    var counted :- PrepareSms(sms);
    ActivitySms(act, counted)
  }

  /** From the survey export on (data-cleaning/mergeData.py:71-124). */
  function WithSurveys(d: DataDir, uid: string, actSms: Frame,
                       norm: MergeLater.Scorer, parse: Cell -> Result<Cell>): (r: Result<Frame>)
    ensures r.Success? ==> (
      && NamedSurvey(d.surveys, SurveyExport).Success? && IsDigits(uid)
      && Files(d, uid).run1.Some? && Files(d, uid).run2.Some?)
    ensures r.Success? ==> r.value.cols == FinalCols
  {
    var withIds :- Surveyed(d, uid, actSms);
    var run1 :- RunFile(d, uid, First);
    var run2 :- RunFile(d, uid, Second);
    Finish(withIds, run1, run2, norm, parse)
  }

  /** Where a `sub` column can come from past the daily rows: the survey export or an
      event log. */
  lemma WithSurveysSub(d: DataDir, uid: string, actSms: Frame,
                       norm: MergeLater.Scorer, parse: Cell -> Result<Cell>)
    ensures WithSurveys(d, uid, actSms, norm, parse).Success? ==>
      (|| "sub" in actSms.cols || "sub" in NamedSurvey(d.surveys, SurveyExport).value.cols
       || HasSub(Files(d, uid).run1) || HasSub(Files(d, uid).run2))
  {
  }

  /** The survey export read and keyed to the days (data-cleaning/mergeData.py:71-88). */
  function Surveyed(d: DataDir, uid: string, actSms: Frame): (r: Result<Frame>)
    ensures r.Success? ==> NamedSurvey(d.surveys, SurveyExport).Success? && IsDigits(uid)
    ensures r.Success? && "sub" in r.value.cols ==>
      "sub" in actSms.cols || "sub" in NamedSurvey(d.surveys, SurveyExport).value.cols
  {
    var survey :- NamedSurvey(d.surveys, SurveyExport);
    Keyed(actSms, survey, uid)
  }

  /** The event join and the picked columns (data-cleaning/mergeData.py:96-124). */
  function Finish(withIds: Frame, run1: Frame, run2: Frame,
                  norm: MergeLater.Scorer, parse: Cell -> Result<Cell>): (r: Result<Frame>)
    ensures r.Success? ==> r.value.cols == FinalCols
    ensures r.Success? ==> "sub" in withIds.cols || "sub" in run1.cols || "sub" in run2.cols
  {
    var events := MergeLater.Events(run1, run2);
    EventsCols(run1, run2);
    var merged :- JoinEvents(withIds, events);
    Picked(merged, norm, parse)
  }

  /** A `sub` column in the run events came from one of the two runs. */
  lemma EventsCols(run1: Frame, run2: Frame)
    ensures "sub" in MergeLater.Events(run1, run2).cols ==> "sub" in run1.cols || "sub" in run2.cols
  {
    var a := MergeLater.LabelRun(run1, "01");
    var b := MergeLater.LabelRun(run2, "02");
    assert MergeLater.Events(run1, run2) == Concat(a, b);
  }

  // ---------------------------------------------------------------------------
  // All subjects (data-cleaning/mergeData.py:138-147)
  // ---------------------------------------------------------------------------

  /** One subject's frame as getCombinedFile asks for it. */
  function Combined(d: DataDir, uid: string, norm: MergeLater.Scorer, parse: Cell -> Result<Cell>): (r: Result<Frame>)
    ensures r.Success? ==> r.value.cols == FinalCols
  {
    var o :- MergeFilesForUser(d, uid, false, norm, parse);
    Success(o.combined)
  }

  /** The per-subject step of the loop, as a function of the uid. This script's
      `mergeFilesForUser` returns a frame whenever it does not raise. */
  function Merger(d: DataDir, norm: MergeLater.Scorer, parse: Cell -> Result<Cell>): string -> Result<Option<Frame>>
  {
    uid => var c := Combined(d, uid, norm, parse); if c.Failure? then Failure(c.error) else Success(Some(c.value))
  }

  /** `pd.concat(frames)` of frames under the final columns: their rows one frame after
      another. */
  function Concatenated(frames: seq<Frame>): (r: Frame)
    requires frames != [] && forall j :: 0 <= j < |frames| ==> frames[j].cols == FinalCols
    ensures ConcatAll(frames) == Success(r) && r == Table(FinalCols, Flatten(frames))
  {
    ConcatAllSameCols(frames, FinalCols);
    ConcatAll(frames).value
  }

  /** `getCombinedFile(uids)`: the exception of the first subject that raises, else every
      subject's rows one subject after another in uid order, under the final columns.
      The CSV write is left out. */
  method GetCombinedFile(d: DataDir, uids: seq<string>, norm: MergeLater.Scorer, parse: Cell -> Result<Cell>)
    returns (r: Result<Frame>)
    ensures uids == [] ==> r == Failure(ValueError("No objects to concatenate"))
    ensures r.Failure? && uids != [] ==> exists j :: 0 <= j < |uids| && AllOk(uids, j, Merger(d, norm, parse))
                                                   && Combined(d, uids[j], norm, parse) == Failure(r.error)
    ensures r.Success? ==> (
      && AllOk(uids, |uids|, Merger(d, norm, parse))
      && r.value == Table(FinalCols, Flatten(Collected(uids, |uids|, Merger(d, norm, parse)))))
    ensures AllOk(uids, |uids|, Merger(d, norm, parse)) && uids != [] ==> r.Success?
  {
    var merge := Merger(d, norm, parse);
    assert forall u :: merge(u) != Success(None);
    var frames := Collect(uids, merge);
    if frames.Failure? {
      ghost var j :| 0 <= j < |uids| && AllOk(uids, j, merge) && merge(uids[j]) == Failure(frames.error);
      assert Combined(d, uids[j], norm, parse) == Failure(frames.error);
      return Failure(frames.error);
    }
    assert forall u :: merge(u).Success? && merge(u).value.Some? ==> merge(u).value.value.cols == FinalCols by {
      forall u | merge(u).Success? && merge(u).value.Some? ensures merge(u).value.value.cols == FinalCols {
        assert merge(u).value.value == Combined(d, u, norm, parse).value;
      }
    }
    CollectedFrames(uids, |uids|, merge, FinalCols);
    if frames.value.value == [] {
      return Failure(ValueError("No objects to concatenate"));
    }
    return Success(Concatenated(frames.value.value));
  }
}
