/** The health message task (health_message_task/message_task_scale.py): the subject id
    and run number padding, the fixed durations and inter-trial intervals, and the event
    log the trial loop writes, three rows per trial. Drawing, clocks, key presses and the
    rating scale are outside the model: what they produce (onsets, the scale's last
    response) is an input. Cells of the log are the cells of the merge model, so the
    rows written here are the rows the merge scripts read back. */
module MessageTask {
  import opened Results
  import opened Strings
  import opened Frames
  import Fields
  import RawData

  // ---------------------------------------------------------------------------
  // checkID (lines 24-27)
  // ---------------------------------------------------------------------------

  /** The id with leading zeros up to three characters. */
  function Padded(s: string): (r: string)
    ensures |r| == Max(3, |s|)
    ensures r[|r| - |s|..] == s && forall i :: 0 <= i < |r| - |s| ==> r[i] == '0'
  {
    Zeros(Max(3, |s|) - |s|) + s
  }

  /** `checkID`: prepend '0' while the id is shorter than three characters. */
  method CheckId(subjId: string) returns (r: string)
    ensures r == Padded(subjId)
  {
    r := subjId;
    while |r| < 3
      invariant |subjId| <= |r| <= Max(3, |subjId|)
      invariant r == Zeros(|r| - |subjId|) + subjId
      decreases 3 - |r|
    {
      ZeroBefore(|r| - |subjId|, subjId);
      r := "0" + r;
    }
  }

  /** One more '0' in front of the padding. */
  lemma ZeroBefore(k: nat, s: string)
    ensures "0" + (Zeros(k) + s) == Zeros(k + 1) + s
  {
    assert "0" + Zeros(k) == Zeros(k + 1);
  }

  /** An id of three or more characters is returned unchanged. */
  lemma PaddedLong(s: string)
    requires |s| >= 3
    ensures Padded(s) == s
  {
    assert Zeros(0) + s == s;
  }

  /** Padding twice pads once. */
  lemma PaddedIdempotent(s: string)
    ensures Padded(Padded(s)) == Padded(s)
  {
    PaddedLong(Padded(s));
  }

  /** The padded id reads as the same number. */
  lemma PaddedValue(s: string)
    ensures DigitsValue(Padded(s)) == DigitsValue(s)
  {
    LeadingZerosValue(Max(3, |s|) - |s|, s);
  }

  // ---------------------------------------------------------------------------
  // Run number (lines 157-159) and the event file name (line 161)
  // ---------------------------------------------------------------------------

  /** `runNumStr`: a one-character run number gets a leading '0'. The result ends in the
      run number, everything before it is '0', and a run number that is not empty comes
      out with at least two characters (an empty one as the single "0"). */
  function PadRunNumber(run: string): (r: string)
    ensures |r| >= |run| && r[|r| - |run|..] == run
    ensures forall i :: 0 <= i < |r| - |run| ==> r[i] == '0'
    ensures |run| >= 1 ==> |r| == Max(2, |run|)
    ensures run == "" ==> r == "0"
  {
    if |run| < 2 then "0" + run else run
  }

  /** Padding a padded run number again changes nothing. */
  lemma PadRunNumberIdempotent(run: string)
    requires |run| >= 1
    ensures PadRunNumber(PadRunNumber(run)) == PadRunNumber(run)
  {
    if |run| < 2 {
      assert |PadRunNumber(run)| == 2;
    }
  }

  /** The padding never changes the number a run number of digits stands for. */
  lemma PadRunNumberValue(run: string)
    requires IsDigits(run)
    ensures IsDigits(PadRunNumber(run)) && DigitsValue(PadRunNumber(run)) == DigitsValue(run)
  {
    if |run| < 2 {
      var p := "0" + run;
      assert PadRunNumber(run) == p;
      assert forall i :: 0 < i < |p| ==> p[i] == run[i - 1];
      assert Zeros(1) == "0";
      LeadingZerosValue(1, run);
    }
  }

  /** `csvName_noPath`: the event log's name, with the subject id and the padded run
      number where the merge scripts look for them; but the task is named
      "HealthMessageTask" in it, where the merge scripts read "HealthMessage", so a log is
      not found under its written name. */
  function EventsFileName(subjId: string, run: string): (r: string)
    ensures |r| == |subjId| + |PadRunNumber(run)| + 43
    ensures r[..4 + |subjId|] == "sub-" + subjId
    ensures var p := PadRunNumber(run); r[|r| - 11 - |p|..] == p + "_events.tsv"
    ensures RawData.Folder + r != RawData.Path(RunEvents(subjId, PadRunNumber(run)))
  {
    var r := "sub-" + subjId + "_task-HealthMessageTask_run-" + PadRunNumber(run) + "_events.tsv";
    assert |RawData.Path(RunEvents(subjId, PadRunNumber(run)))| + 4 == |RawData.Folder + r|;
    r
  }

  // ---------------------------------------------------------------------------
  // getDurations (lines 30-43)
  // ---------------------------------------------------------------------------

  datatype Durations = Durations(message: int, rating: int, stabilize: int, instruct: int)

  /** Seconds per screen, scaled by the frame rate. */
  function GetDurations(frameRate: int): (d: Durations)
    ensures frameRate > 0 ==> 0 < d.instruct < d.rating < d.message < d.stabilize
  {
    Durations(8 * frameRate, 5 * frameRate, 10 * frameRate, 2 * frameRate)
  }

  function Scaled(d: Durations, k: int): Durations
  {
    Durations(k * d.message, k * d.rating, k * d.stabilize, k * d.instruct)
  }

  /** Every duration is its one-frame value times the frame rate. */
  lemma DurationsScale(frameRate: int)
    ensures GetDurations(frameRate) == Scaled(GetDurations(1), frameRate)
    ensures GetDurations(1) == Durations(8, 5, 10, 2)
  {
  }

  // ---------------------------------------------------------------------------
  // getFixations (lines 139-151)
  // ---------------------------------------------------------------------------

  const Run1Itis: seq<int> := [2, 6, 5, 3, 6, 3, 6, 3, 5, 6, 4, 2, 4, 2, 2, 5, 4, 6, 4, 4,
                               6, 3, 4, 4, 6, 3, 5, 3, 3, 3, 2, 5, 5, 3, 3, 5, 2, 5, 4, 6]
  const Run2Itis: seq<int> := [4, 4, 6, 4, 4, 6, 3, 5, 5, 4, 6, 6, 5, 2, 6, 2, 5, 2, 2, 2,
                               4, 3, 6, 3, 6, 4, 4, 3, 5, 4, 5, 3, 5, 6, 4, 3, 3, 4, 3, 2]

  /** Every interval lies between 2 and 6 seconds. */
  predicate InRange(s: seq<int>)
  {
    forall i :: 0 <= i < |s| ==> 2 <= s[i] <= 6
  }

  /** Both lists hold 40 intervals, each between 2 and 6 seconds. */
  lemma FixedLists()
    ensures |Run1Itis| == 40 && InRange(Run1Itis)
    ensures |Run2Itis| == 40 && InRange(Run2Itis)
  {
    FirstList();
    SecondList();
  }

  lemma FirstList()
    ensures |Run1Itis| == 40 && InRange(Run1Itis)
  {
    forall i | 0 <= i < |Run1Itis| ensures 2 <= Run1Itis[i] <= 6 {
    }
  }

  lemma SecondList()
    ensures |Run2Itis| == 40 && InRange(Run2Itis)
  {
    forall i | 0 <= i < |Run2Itis| ensures 2 <= Run2Itis[i] <= 6 {
    }
  }

  /** `run_num == 1` as Python compares the run number the dialog returns with the
      integer 1: a number equal to 1 and nothing else; a string is never equal to it. */
  predicate EqualsOne(runNum: Cell)
  {
    IsNumber(runNum) && NumValue(runNum) == 1.0
  }

  /** The list `getFixations` starts from, as written: 40 intervals between 2 and 6
      seconds, the first list exactly when the run number compares equal to 1, and so
      the second list for any run number given as a string. */
  function FixedItisAsWritten(runNum: Cell): (itis: seq<int>)
    ensures |itis| == 40 && InRange(itis)
    ensures itis == Run1Itis <==> EqualsOne(runNum)
    ensures runNum.Text? ==> itis == Run2Itis
  {
    FixedLists();
    assert Run1Itis[0] != Run2Itis[0];
    if EqualsOne(runNum) then Run1Itis else Run2Itis
  }

  /** The dialog offers the run numbers as the strings "01" and "02", so the comparison
      never holds: both runs start from the second list, and the first list is never used. */
  lemma AsWrittenAlwaysSecond(run: string)
    ensures FixedItisAsWritten(Text("01")) == FixedItisAsWritten(Text("02")) == Run2Itis
    ensures FixedItisAsWritten(Text(run)) != Run1Itis
  {
  }

  /** The list for the run the dialog names, reading the run number as an integer. */
  function FixedItis(run: string): (itis: seq<int>)
    ensures IsDigits(run) && DigitsValue(run) == 1 ==> itis == Run1Itis
    ensures !(IsDigits(run) && DigitsValue(run) == 1) ==> itis == Run2Itis
  {
    if IsDigits(run) && DigitsValue(run) == 1 then Run1Itis else Run2Itis
  }

  lemma FixedItisByRun()
    ensures FixedItis("01") == Run1Itis && FixedItis("1") == Run1Itis
    ensures FixedItis("02") == Run2Itis
  {
    assert IsDigits("01") && DigitsValue("01") == 1;
    assert IsDigits("1") && DigitsValue("1") == 1;
    assert DigitsValue("02") == 2;
  }

  function Swap(s: seq<int>, i: nat, j: nat): seq<int>
    requires i < |s| && j < |s|
  {
    s[i := s[j]][j := s[i]]
  }

  lemma SwapPermutes(s: seq<int>, i: nat, j: nat)
    requires i < |s| && j < |s|
    ensures |Swap(s, i, j)| == |s| && multiset(Swap(s, i, j)) == multiset(s)
  {
  }

  /** `random.shuffle`: for i from the last position down to 1, swap position i with a
      position j <= i. The random draw is the parameter pick, taken modulo i + 1. */
  function FisherYates(s: seq<int>, i: nat, pick: nat -> nat): seq<int>
    requires i < |s|
    decreases i
  {
    if i == 0 then s else FisherYates(Swap(s, i, pick(i) % (i + 1)), i - 1, pick)
  }

  lemma FisherYatesStep(s: seq<int>, i: nat, pick: nat -> nat)
    requires 0 < i < |s|
    ensures FisherYates(s, i, pick) == FisherYates(Swap(s, i, pick(i) % (i + 1)), i - 1, pick)
  {
  }

  /** Shuffling keeps the intervals and only reorders them. */
  lemma {:induction false} FisherYatesPermutes(s: seq<int>, i: nat, pick: nat -> nat)
    requires i < |s|
    ensures |FisherYates(s, i, pick)| == |s|
    ensures multiset(FisherYates(s, i, pick)) == multiset(s)
    decreases i
  {
    if i > 0 {
      SwapPermutes(s, i, pick(i) % (i + 1));
      FisherYatesPermutes(Swap(s, i, pick(i) % (i + 1)), i - 1, pick);
    }
  }

  /** `shuffle(itiTimes)`, in place. */
  method Shuffle(a: array<int>, pick: nat -> nat)
    modifies a
    ensures a.Length > 0 ==> a[..] == FisherYates(old(a[..]), a.Length - 1, pick)
    ensures multiset(a[..]) == multiset(old(a[..]))
  {
    if a.Length == 0 {
      return;
    }
    ghost var target := FisherYates(a[..], a.Length - 1, pick);
    FisherYatesPermutes(a[..], a.Length - 1, pick);
    var i := a.Length - 1;
    while i > 0
      invariant 0 <= i < a.Length
      invariant FisherYates(a[..], i, pick) == target
    {
      var j := pick(i) % (i + 1);
      ghost var before := a[..];
      FisherYatesStep(before, i, pick);
      a[i], a[j] := a[j], a[i];
      assert a[..] == Swap(before, i, j);
      i := i - 1;
    }
  }

  /** A list copied into an array, shuffled there and read back. */
  method ShuffledCopy(fixed: seq<int>, pick: nat -> nat) returns (r: seq<int>)
    ensures |fixed| > 0 ==> r == FisherYates(fixed, |fixed| - 1, pick)
    ensures multiset(r) == multiset(fixed)
  {
    var a := new int[|fixed|](i requires 0 <= i < |fixed| => fixed[i]);
    assert a[..] == fixed;
    Shuffle(a, pick);
    r := a[..];
  }

  /** Reordering keeps the length and the range of the intervals. */
  lemma InRangePermutation(a: seq<int>, b: seq<int>)
    requires multiset(a) == multiset(b) && InRange(b)
    ensures |a| == |b| && InRange(a)
  {
    assert |a| == |multiset(a)| == |multiset(b)| == |b|;
    forall i | 0 <= i < |a| ensures 2 <= a[i] <= 6 {
      assert a[i] in multiset(b);
      var j :| 0 <= j < |b| && b[j] == a[i];
    }
  }

  /** The intervals of a run in the order they are shuffled into. */
  function ShuffledItis(runNum: Cell, pick: nat -> nat): seq<int>
  {
    FisherYates(FixedItisAsWritten(runNum), 39, pick)
  }

  /** `getFixations(run_num)`: the list the comparison picks, shuffled. */
  method GetFixations(runNum: Cell, pick: nat -> nat) returns (itiTimes: seq<int>)
    ensures itiTimes == ShuffledItis(runNum, pick)
    ensures multiset(itiTimes) == multiset(FixedItisAsWritten(runNum))
    ensures |itiTimes| == 40 && InRange(itiTimes)
  {
    var fixed := FixedItisAsWritten(runNum);
    itiTimes := ShuffledCopy(fixed, pick);
    InRangePermutation(itiTimes, fixed);
  }

  // ---------------------------------------------------------------------------
  // The event log of do_run (lines 166-168, 234-338)
  // ---------------------------------------------------------------------------

  /** The header row, and where `indDic` puts each value in a row. */
  const Header: seq<string> := ["onset", "duration", "trial", "trial_type", "rating", "resp_time", "valence", "s_ns", "id"]
  const OnsetSlot := 0
  const DurationSlot := 1
  const TrialNumSlot := 2
  const TrialTypeSlot := 3
  const RatingSlot := 4
  const RespTimeSlot := 5
  const ValenceSlot := 6
  const SnsSlot := 7
  const IdSlot := 8
  const IndDic: map<string, nat> := map["onset" := OnsetSlot, "duration" := DurationSlot, "trial_num" := TrialNumSlot,
                                        "trial_type" := TrialTypeSlot, "rating" := RatingSlot, "resp_time" := RespTimeSlot,
                                        "valence" := ValenceSlot, "s_ns" := SnsSlot, "id" := IdSlot]

  /** Each key of indDic names the header column of its slot, except "trial_num", whose
      slot the header calls "trial"; the nine slots are the nine header columns. */
  lemma HeaderMatchesSlots()
    ensures |Header| == 9
    ensures IndDic["onset"] == OnsetSlot && Header[OnsetSlot] == "onset"
    ensures IndDic["duration"] == DurationSlot && Header[DurationSlot] == "duration"
    ensures IndDic["trial_num"] == TrialNumSlot && Header[TrialNumSlot] == "trial"
    ensures IndDic["trial_type"] == TrialTypeSlot && Header[TrialTypeSlot] == "trial_type"
    ensures IndDic["rating"] == RatingSlot && Header[RatingSlot] == "rating"
    ensures IndDic["resp_time"] == RespTimeSlot && Header[RespTimeSlot] == "resp_time"
    ensures IndDic["valence"] == ValenceSlot && Header[ValenceSlot] == "valence"
    ensures IndDic["s_ns"] == SnsSlot && Header[SnsSlot] == "s_ns"
    ensures IndDic["id"] == IdSlot && Header[IdSlot] == "id"
  {
  }

  /** The header as written by the CSV writer: one text cell per name. */
  function TextCells(names: seq<string>): (r: Row)
    ensures |r| == |names| && forall k :: 0 <= k < |names| ==> r[k] == Text(names[k])
  {
    if names == [] then [] else [Text(names[0])] + TextCells(names[1..])
  }

  /** One trial of the shuffled stimulus list: its columns of the stimuli file. */
  datatype Trial = Trial(valence: string, sns: string, id: string)

  /** What the clock and the rating scale give during one trial: the onsets of the
      fixation, the message and the rating screen, and the scale's response history. */
  datatype Observed = Observed(itiOnset: Cell, stimOnset: Cell, choiceOnset: Cell, history: seq<(Cell, Cell)>)

  /** `valence[0:3] + "_" + s_ns[:-3] + "_" + trial['id']`. */
  function TaskMessageId(t: Trial): string
  {
    Prefix(t.valence, 3) + "_" + DropLast(t.sns, 3) + "_" + t.id
  }

  /** The id is the three pieces joined with '_', so splitting it at '_' gives them back
      whenever none of them holds a '_'. */
  lemma TaskMessageIdSplits(t: Trial)
    ensures var parts := [Prefix(t.valence, 3), DropLast(t.sns, 3), t.id];
      && TaskMessageId(t) == Join('_', parts)
      && ((forall k :: 0 <= k < 3 ==> '_' !in parts[k]) ==> Split(TaskMessageId(t), '_') == parts)
  {
    var parts := [Prefix(t.valence, 3), DropLast(t.sns, 3), t.id];
    assert Join('_', parts[1..]) == parts[1] + "_" + Join('_', parts[2..]);
    assert Join('_', parts) == parts[0] + "_" + parts[1] + "_" + parts[2];
    if forall k :: 0 <= k < 3 ==> '_' !in parts[k] {
      JoinSplit(parts, '_');
    }
  }

  /** The key a merge script builds from a message's valence, label and id, for the two
      labels the stimuli use. */
  lemma MergeKeyOf(valence: string, sns: string, id: Cell, strip: bool)
    requires sns == "social" || sns == "nonsocial"
    ensures Fields.RowKey(Text(valence), Text(sns), id, strip).Success?
    ensures Fields.RowKey(Text(valence), Text(sns), id, strip).value
      == Prefix(valence, 3) + "_" + DropLast(sns, 3) + "_" + Fields.MsgNumber(id, strip)
  {
    if sns == "social" {
      assert DropLast(sns, 3) == "soc" == Prefix(sns, 3);
    } else {
      assert DropLast(sns, 3) == "nonsoc" == Prefix(sns, 6);
    }
  }

  /** The task writes the message id n as its decimal digits. The merge scripts rebuild
      it from the id column of the SMS log, which is an integer column, or a float column
      once a left join has padded a row: the earlier script (no cut) rebuilds the task's
      id from an integer but not from a float, whose `str()` ends in ".0"; the later script
      cuts two characters and rebuilds it from a float but not from an integer. */
  lemma TaskIdMatchesMergeKey(t: Trial, n: nat)
    requires t.sns == "social" || t.sns == "nonsocial"
    requires t.id == NatToString(n)
    ensures TaskMessageId(t) == Fields.RowKey(Text(t.valence), Text(t.sns), Text(t.id), false).value
    ensures TaskMessageId(t) == Fields.RowKey(Text(t.valence), Text(t.sns), Int(n), false).value
    ensures TaskMessageId(t) != Fields.RowKey(Text(t.valence), Text(t.sns), Float(n, 0), false).value
    ensures TaskMessageId(t) == Fields.RowKey(Text(t.valence), Text(t.sns), Float(n, 0), true).value
    ensures TaskMessageId(t) != Fields.RowKey(Text(t.valence), Text(t.sns), Int(n), true).value
  {
    var stem := Prefix(t.valence, 3) + "_" + DropLast(t.sns, 3) + "_";
    assert TaskMessageId(t) == stem + t.id;
    MergeKeyOf(t.valence, t.sns, Text(t.id), false);
    MergeKeyOf(t.valence, t.sns, Int(n), false);
    MergeKeyOf(t.valence, t.sns, Float(n, 0), false);
    MergeKeyOf(t.valence, t.sns, Float(n, 0), true);
    MergeKeyOf(t.valence, t.sns, Int(n), true);
    ShowWholeFloat(n);
    assert Show(Int(n)) == t.id;
    assert Show(Float(n, 0)) == t.id + ".0";
    assert DropLast(t.id + ".0", 2) == t.id;
    assert |t.id| > 0;
    assert |Fields.MsgNumber(Int(n), true)| < |t.id|;
  }

  /** `[""] * dataListLength`: the list each trial starts from. */
  const BlankRow: Row := [Text(""), Text(""), Text(""), Text(""), Text(""), Text(""), Text(""), Text(""), Text("")]

  /** The list once the trial's own slots are written: its number, the message's valence,
      label and id, and the scale's last response and response time. */
  function SharedSlots(tidx: nat, t: Trial, resp: (Cell, Cell)): Row
  {
    BlankRow[TrialNumSlot := Int(tidx + 1)][ValenceSlot := Text(t.valence)][SnsSlot := Text(t.sns)]
            [IdSlot := Text(TaskMessageId(t))][RatingSlot := resp.0][RespTimeSlot := resp.1]
  }

  /** The list with one screen's type, onset and duration written over it. */
  function Screen(s: Row, kind: string, onset: Cell, duration: int): Row
    requires |s| == 9
  {
    s[TrialTypeSlot := Text(kind)][OnsetSlot := onset][DurationSlot := Int(duration)]
  }

  /** Writing a screen over another leaves only the second one's slots. */
  lemma ScreenOverwrite(s: Row, k1: string, o1: Cell, d1: int, k2: string, o2: Cell, d2: int)
    requires |s| == 9
    ensures Screen(Screen(s, k1, o1, d1), k2, o2, d2) == Screen(s, k2, o2, d2)
  {
  }

  /** The row written for one screen of trial tidx. */
  function EventRow(tidx: nat, t: Trial, resp: (Cell, Cell), kind: string, onset: Cell, duration: int): Row
  {
    Screen(SharedSlots(tidx, t, resp), kind, onset, duration)
  }

  /** The three rows of trial tidx, with the interval it popped. */
  function TrialRows(tidx: nat, t: Trial, ob: Observed, iti: int, d: Durations): seq<Row>
    requires ob.history != []
  {
    var resp := ob.history[|ob.history| - 1];
    [EventRow(tidx, t, resp, "iti", ob.itiOnset, iti),
     EventRow(tidx, t, resp, "message", ob.stimOnset, d.message),
     EventRow(tidx, t, resp, "rating", ob.choiceOnset, d.rating)]
  }

  /** The first n trials ran to the end: an interval left for each, a response for each. */
  predicate Completes(trials: seq<Trial>, obs: seq<Observed>, itis: seq<int>, n: nat)
  {
    n <= |trials| && n <= |obs| && n <= |itis| && forall k :: 0 <= k < n ==> obs[k].history != []
  }

  /** The rows the first n trials write; trial k pops the interval k places from the end. */
  function Emitted(trials: seq<Trial>, obs: seq<Observed>, itis: seq<int>, d: Durations, n: nat): seq<Row>
    requires Completes(trials, obs, itis, n)
  {
    if n == 0 then []
    else Emitted(trials, obs, itis, d, n - 1) + TrialRows(n - 1, trials[n - 1], obs[n - 1], itis[|itis| - n], d)
  }

  /** Three rows per trial, in trial order, each the trial's iti, message and rating rows. */
  lemma {:induction false} EmittedRows(trials: seq<Trial>, obs: seq<Observed>, itis: seq<int>, d: Durations, n: nat)
    requires Completes(trials, obs, itis, n)
    ensures |Emitted(trials, obs, itis, d, n)| == 3 * n
    ensures forall i :: 0 <= i < 3 * n ==>
      Emitted(trials, obs, itis, d, n)[i] == TrialRows(i / 3, trials[i / 3], obs[i / 3], itis[|itis| - 1 - i / 3], d)[i % 3]
  {
    if n > 0 {
      EmittedRows(trials, obs, itis, d, n - 1);
      var e := Emitted(trials, obs, itis, d, n);
      var t := TrialRows(n - 1, trials[n - 1], obs[n - 1], itis[|itis| - n], d);
      forall i | 3 * (n - 1) <= i < 3 * n
        ensures e[i] == TrialRows(i / 3, trials[i / 3], obs[i / 3], itis[|itis| - 1 - i / 3], d)[i % 3]
      {
        assert i / 3 == n - 1 && i % 3 == i - 3 * (n - 1);
      }
    }
  }

  /** Within a trial the three rows share the trial number, response, valence, label and
      id; their types are iti, message and rating in that order, with the popped interval,
      the message duration and the rating duration, at the three onsets. */
  lemma TrialRowsShape(tidx: nat, t: Trial, ob: Observed, iti: int, d: Durations)
    requires ob.history != []
    ensures var rows := TrialRows(tidx, t, ob, iti, d);
      && |rows| == 3
      && (forall k :: 0 <= k < 3 ==>
            (|rows[k]| == 9 && rows[k][2] == Int(tidx + 1)
             && rows[k][4] == ob.history[|ob.history| - 1].0 && rows[k][5] == ob.history[|ob.history| - 1].1
             && rows[k][6..] == [Text(t.valence), Text(t.sns), Text(TaskMessageId(t))]))
      && rows[0][3] == Text("iti") && rows[0][0] == ob.itiOnset && rows[0][1] == Int(iti)
      && rows[1][3] == Text("message") && rows[1][0] == ob.stimOnset && rows[1][1] == Int(d.message)
      && rows[2][3] == Text("rating") && rows[2][0] == ob.choiceOnset && rows[2][1] == Int(d.rating)
  {
  }

  /** The trial loop: for each trial a fresh nine-slot list is filled, the interval is
      popped from the end of the list, the scale's last response is read, and the list is
      written three times with the screen's slots overwritten in between. A pop from an
      empty list or an empty response history raises IndexError; the rows written before
      stay written. */
  method RunTrials(trials: seq<Trial>, obs: seq<Observed>, itis: seq<int>, d: Durations)
    returns (rows: seq<Row>, err: Option<Exception>)
    requires |obs| == |trials|
    ensures err.None? <==> Completes(trials, obs, itis, |trials|)
    ensures err.None? ==> rows == Emitted(trials, obs, itis, d, |trials|)
    ensures err.Some? ==> exists m ::
      (0 <= m < |trials| && Completes(trials, obs, itis, m)
       && rows == Emitted(trials, obs, itis, d, m)
       && (if m == |itis| then err == Some(IndexError("pop from empty list"))
           else obs[m].history == [] && err == Some(IndexError("list index out of range"))))
  {
    var itiTimes := itis;
    rows := [];
    var tidx := 0;
    while tidx < |trials|
      invariant 0 <= tidx <= |trials|
      invariant Completes(trials, obs, itis, tidx)
      invariant itiTimes == itis[..|itis| - tidx]
      invariant rows == Emitted(trials, obs, itis, d, tidx)
    {
      var dataList := BlankRow;
      dataList := dataList[TrialNumSlot := Int(tidx + 1)];
      var trial := trials[tidx];
      dataList := dataList[ValenceSlot := Text(trial.valence)];
      dataList := dataList[SnsSlot := Text(trial.sns)];
      dataList := dataList[IdSlot := Text(TaskMessageId(trial))];
      if itiTimes == [] {
        return rows, Some(IndexError("pop from empty list"));
      }
      var thisIti := itiTimes[|itiTimes| - 1];
      itiTimes := itiTimes[..|itiTimes| - 1];
      var history := obs[tidx].history;
      if history == [] {
        return rows, Some(IndexError("list index out of range"));
      }
      var resp := history[|history| - 1];
      dataList := dataList[RatingSlot := resp.0];
      dataList := dataList[RespTimeSlot := resp.1];
      ghost var shared := dataList;

      dataList := dataList[TrialTypeSlot := Text("iti")];
      dataList := dataList[OnsetSlot := obs[tidx].itiOnset];
      dataList := dataList[DurationSlot := Int(thisIti)];
      var iti := dataList;

      dataList := dataList[TrialTypeSlot := Text("message")];
      dataList := dataList[OnsetSlot := obs[tidx].stimOnset];
      dataList := dataList[DurationSlot := Int(d.message)];
      var message := dataList;
      ScreenOverwrite(shared, "iti", obs[tidx].itiOnset, thisIti, "message", obs[tidx].stimOnset, d.message);

      dataList := dataList[TrialTypeSlot := Text("rating")];
      dataList := dataList[OnsetSlot := obs[tidx].choiceOnset];
      dataList := dataList[DurationSlot := Int(d.rating)];
      var rating := dataList;
      ScreenOverwrite(shared, "message", obs[tidx].stimOnset, d.message, "rating", obs[tidx].choiceOnset, d.rating);

      assert [iti, message, rating] == TrialRows(tidx, trial, obs[tidx], itis[|itis| - 1 - tidx], d);
      rows := rows + [iti, message, rating];
      tidx := tidx + 1;
    }
    return rows, None;
  }

  /** `do_run`: the event file's name and lines (the header, then the trials' rows), and
      the exception that ended the run early, if any. */
  method DoRun(subjId: string, run: string, trials: seq<Trial>, obs: seq<Observed>, pick: nat -> nat)
    returns (name: string, lines: seq<Row>, err: Option<Exception>)
    requires |obs| == |trials|
    ensures name == EventsFileName(subjId, run)
    ensures lines != [] && lines[0] == TextCells(Header)
    ensures err.None? <==> Completes(trials, obs, ShuffledItis(Text(run), pick), |trials|)
    ensures err.None? ==> lines[1..] == Emitted(trials, obs, ShuffledItis(Text(run), pick), GetDurations(1), |trials|)
    ensures err.None? ==> |trials| <= 40 && |lines| == 1 + 3 * |trials|
    ensures |trials| > 40 && (forall k :: 0 <= k < 40 ==> obs[k].history != []) ==>
      err == Some(IndexError("pop from empty list"))
  {
    name := EventsFileName(subjId, run);
    var durations := GetDurations(1);
    var itiTimes := GetFixations(Text(run), pick);
    var rows;
    rows, err := RunTrials(trials, obs, itiTimes, durations);
    if err.None? {
      EmittedRows(trials, obs, itiTimes, durations, |trials|);
    }
    lines := [TextCells(Header)] + rows;
    assert lines[1..] == rows;
  }
}
