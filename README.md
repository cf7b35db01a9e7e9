# neurofit-study: merge scripts and health message task, in Dafny

This project models three Python scripts from the neurofit-study repository and proves
properties about them.

- **The later merge script** (`data_merge/mergeData.py`). For one subject it works in this order:
  - reformats the activity log's dates and left-joins the sleep log, the SMS log and the
    daily surveys on the calendar date;
  - derives the composite message key and left-joins the task's event logs of both runs
    on that key;
  - adds the normalised columns, renames columns and fills missing cells;
  - returns the combined frame and, if asked, the two per-run tables.

  `getCombinedFile` merges every subject in turn, stops at the first subject without a
  frame, then concatenates all frames and sorts them by subject and activity date.
- **The earlier merge script** (`data-cleaning/mergeData.py`). It has the same outline,
  with these differences:
  - there is no sleep log;
  - SMS rows and event rows are joined with inner joins;
  - the timestamp splits are unguarded;
  - the survey export has a fixed file name;
  - the message key keeps the id's text whole;
  - `sub` is never assigned;
  - `getCombinedFile` concatenates in uid order without sorting.
- **The health message task** (`health_message_task/message_task_scale.py`). It covers:
  - the subject id padding and the run-number padding;
  - the screen durations;
  - the fixed inter-trial interval lists and their shuffle;
  - the event log that the trial loop writes, three rows per trial.

The model uses these modules:

| module | holds |
|---|---|
| `Results` | Python's exceptions as values: `Result`, `Option`, `Exception` |
| `Strings` | the `str` operations the scripts use |
| `Frames` | a positional model of the pandas DataFrame operations the scripts call |
| `Joins` | `pd.merge` with left and inner joins |
| `Sorting` | `sort_values` |
| `RawData` | the `data_raw` folder as a value |
| `Fields` | the per-cell functions |
| `Collecting` | the loop that both `getCombinedFile` functions share |
| `MergeLater`, `MergeEarlier`, `MessageTask` | the three scripts |

How the scripts become Dafny:

- The merge scripts compute a frame from frames statement by statement. Each group of
  statements is one function from frame to frame, and the functions are chained in the
  script's order. An exception comes out of the same statement that raises it in Python.
- The two loops (`getCombinedFile` and the task's trial loop) are methods, proved against
  the functions that specify them.
- The shuffle of the interval list works in place, so it is a method over an array.

Behaviour of the scripts worth knowing:

- A missing activity, sleep, SMS or event file raises an exception (IndexError or
  FileNotFoundError).
- The earlier script reads its days from the first file whose name starts with the uid,
  not from the activity export by name, so a sleep log listed first gives KeyError.
- `getCombinedFile` stops at the first subject that raises or returns None.
- `formatDate` fails with the ValueError raised by unpacking `split('/')`.
- `getDurations` sets the rating screen to 5 seconds. Its docstring says 4.

## Model

| member | source | states |
|---|---|---|
| Strings.SplitJoin | data_merge/mergeData.py:54 | joining the pieces of `split('/')` gives the string back; no piece holds the separator; there is one more piece than there are separators |
| Strings.JoinSplit | data_merge/mergeData.py:59 | splitting a join of separator-free pieces gives the pieces back |
| Strings.FirstWord | data_merge/mergeData.py:42 | `s.split()[0]` is None exactly for a blank string; otherwise it is a non-empty run of non-space characters preceded only by whitespace |
| Strings.FirstWordOfStamp | data_merge/mergeData.py:35-42 | for a date, a space, then a time, the first word is the date |
| Strings.Prefix | data_merge/mergeData.py:158 | `x[0:n]` is the first min(n, len) characters |
| Strings.DropLast | data_merge/mergeData.py:161 | `x[:-n]` is all but the last n characters, and empty for n = 0 |
| Strings.NatToStringValue | data_merge/mergeData.py:147 | `int(str(n)) == n` |
| Strings.LeadingZerosValue | health_message_task/message_task_scale.py:24-27 | leading zeros do not change the value `int()` reads |
| Strings.LexLeqTotal | data_merge/mergeData.py:241 | string order used by the sort is total |
| Strings.LexLeqTrans | data_merge/mergeData.py:241 | string order used by the sort is transitive |
| Strings.LexLeqAntisym | data_merge/mergeData.py:241 | string order used by the sort is antisymmetric |
| Frames.ShowWholeFloat | data_merge/mergeData.py:161 | `str()` of an integral float ends in ".0", the two characters `x[:-2]` removes |
| Frames.Column | data_merge/mergeData.py:157 | `df[name]` is the first column of that name, or KeyError(name) |
| Frames.IndexOf | data_merge/mergeData.py:157 | a column is found exactly when present, at a position holding its name |
| Frames.SetColumn | data_merge/mergeData.py:119 | `df[name] = values` overwrites the column or appends it last; the column holds the values; no other column changes |
| Frames.ApplyColumn | data_merge/mergeData.py:97 | `df[dst] = df[src].apply(g)`: KeyError for a missing source, else g's first failure, else column dst holds g of each source cell and the other columns are kept |
| Frames.MapRows | data_merge/mergeData.py:158 | `apply` succeeds iff g succeeds on every row, giving g's values in row order, else a failure g raised on some row |
| Frames.Rename | data_merge/mergeData.py:114 | `rename(columns=m)` renames exactly the columns named in m and keeps every row |
| Frames.Select | data_merge/mergeData.py:208 | `df[names]` succeeds iff every name is a column; the columns are the names and each row is cut to their positions; else KeyError of an absent name |
| Frames.SelectTwice | data_merge/mergeData.py:208-211 | selecting b from a selection of a is selecting b directly |
| Frames.RemoveFirst | data_merge/mergeData.py:210 | `list.remove` drops exactly the first occurrence: the rest keeps its order around that position, the name does not occur before it, and the multiset loses one copy of the name |
| Frames.MoveToFront | data_merge/mergeData.py:127-129 | the column moves to the front with the other columns kept in order; ValueError when it is absent |
| Frames.FillNa | data_merge/mergeData.py:154 | `fillna(v)` replaces exactly the NaN cells with v, leaving no NaN |
| Frames.Where | data_merge/mergeData.py:215 | the rows kept are exactly those whose cell equals the value |
| Frames.WhereCount | data_merge/mergeData.py:215 | a kept row appears as often as in the input; any other row does not appear |
| Frames.WhereEq | data_merge/mergeData.py:215 | `df.loc[df[name] == v]` succeeds iff the column exists and keeps the matching rows in order |
| Frames.Concat | data_merge/mergeData.py:171 | `pd.concat([a, b])` has a's rows then b's, under the union of the columns |
| Frames.ConcatCell | data_merge/mergeData.py:166-171 | a column both frames have keeps every row's cell through the concatenation |
| Frames.ConcatAll | data_merge/mergeData.py:240 | `pd.concat` of an empty list raises ValueError("No objects to concatenate") |
| Frames.ConcatAllSameCols | data_merge/mergeData.py:240 | frames with one column list concatenate to their rows one frame after another |
| Frames.ProjectPerm | data_merge/mergeData.py:215-217 | cutting two permutations of the same rows to the same columns gives permutations of each other |
| Frames.Positions | data_merge/mergeData.py:241 | the sort keys' positions, or KeyError for the first absent key |
| Joins.Merge | data_merge/mergeData.py:105 | `pd.merge` succeeds iff both key columns exist, else KeyError of the absent key; the result is the join Joined builds, with the right side's integers as floats when a left join pads a row |
| Joins.Joined | data_merge/mergeData.py:121 | overlapping names get `_x` and `_y` suffixes; the rows are the positional join, with every integer cell of the right side stored as a float when a left join had to pad some row; a left join outputs at least as many rows as the left frame |
| Joins.Suffixed | data_merge/mergeData.py:190-194 | only the names that occur on both sides get the suffix that the renames later undo |
| Joins.JoinOne | data_merge/mergeData.py:152 | one left row pairs with each right row of equal key, in right order; with none it gives one padded row in a left join and none in an inner join; every output row starts with the left row |
| Joins.JoinRows | data_merge/mergeData.py:152 | a left join outputs at least one row per left row; no left rows, no output |
| Joins.Upcast | data_merge/mergeData.py:121 | an integer cell becomes the float of the same value; other cells are kept; no integer is left |
| Joins.PaddedJoinHasNoInts | data_merge/mergeData.py:121 | when a left join pads a row, no right-hand cell of the result is an integer; otherwise every row is the plain positional join |
| Joins.LeftJoinKeepsRows | data_merge/mergeData.py:177 | every left row is the left part of some output row |
| Joins.JoinCount | data-cleaning/mergeData.py:100 | output row l + r occurs (count of l on the left) times (count of its pairings with r) times |
| Joins.JoinShape | data_merge/mergeData.py:121 | a row of the positional join (before any upcast) is a left row followed by a right row with the same key, or, in a left join, by all NaN |
| Joins.JoinRowsAppend | data_merge/mergeData.py:177 | joining concatenated left rows joins each part, in left order |
| Joins.InnerJoinKeysEqual | data-cleaning/mergeData.py:64 | every inner-join output row holds equal key cells on its two sides |
| Joins.InnerMergeKeys | data-cleaning/mergeData.py:100 | the same for a merge on key column names |
| Joins.MergeColsFrom | data-cleaning/mergeData.py:64 | a merged column whose name ends in neither x nor y came from one of the inputs |
| Sorting.CellLeqTotal | data_merge/mergeData.py:241 | the cell order is total |
| Sorting.CellLeqTrans | data_merge/mergeData.py:241 | the cell order is transitive |
| Sorting.RowLeqTotal | data_merge/mergeData.py:241 | the lexicographic order on the sort keys is total |
| Sorting.RowLeqTrans | data_merge/mergeData.py:241 | the lexicographic order on the sort keys is transitive |
| Sorting.Insert | data_merge/mergeData.py:241 | inserting into sorted rows keeps them sorted and adds exactly that row |
| Sorting.SortRows | data_merge/mergeData.py:241 | the output is sorted by the keys, is a permutation of the input, and keeps rows with equal keys in their input order |
| Sorting.SortValues | data_merge/mergeData.py:241 | `sort_values(by=names)` succeeds iff every key is a column; same columns; permuted rows, ascending by the keys, rows with equal keys in input order (a multi-key sort is stable) |
| Sorting.InsertStable | data_merge/mergeData.py:241 | inserting the next row into the sorted prefix keeps, for every key value, the tied rows in input order |
| Sorting.TiesAppend | data_merge/mergeData.py:241 | the rows tied with a row, taken from a concatenation, are those of each part in turn |
| Sorting.RowLeqPick | data_merge/mergeData.py:215-217 | cutting rows to columns that carry the sort keys keeps their order |
| RawData.FirstMatch | data_merge/mergeData.py:91-92 | `[...][0]` of an empty match raises IndexError |
| RawData.ReadCsv | data_merge/mergeData.py:113 | `read_csv` of an absent file raises FileNotFoundError for its path |
| RawData.FirstFile | data-cleaning/mergeData.py:52 | the first file of the listing whose name starts with the uid, of any kind, or IndexError when there is none |
| RawData.ActivityFile | data_merge/mergeData.py:91 | the subject's activity export, or IndexError when there is none |
| RawData.SleepFile | data_merge/mergeData.py:92 | the subject's sleep export, or IndexError when there is none |
| RawData.SmsFile | data_merge/mergeData.py:113 | the SMS log, or FileNotFoundError naming it |
| RawData.RunFile | data_merge/mergeData.py:165-167 | the run's event log, or FileNotFoundError naming it |
| RawData.SurveyExports | data_merge/mergeData.py:132-137 | the exports are exactly the files whose names start with "DailySurveys", in listing order |
| RawData.NamedSurvey | data-cleaning/mergeData.py:72 | the export is read by its full name, FileNotFoundError when absent |
| Fields.FormatDate | data_merge/mergeData.py:48-59 | succeeds iff the date has exactly two '/'; otherwise the unpacking raises ValueError |
| Fields.FormatDateShape | data-cleaning/mergeData.py:10-21 | m/d/y becomes y-mm-dd, with m and d padded to two characters |
| Fields.FormatDateReadsBack | data_merge/mergeData.py:54-59 | splitting the result on '-' gives year, month, day; month and day are two digits with their numeric values |
| Fields.FormatDateCell | data_merge/mergeData.py:97 | on a cell: AttributeError unless it is a str, else formatDate |
| Fields.SafeDateConvert | data_merge/mergeData.py:33-46 | "N/A" unless the value is a str holding ':', and then its first whitespace-separated token; it never raises |
| Fields.SafeDateOfTimestamp | data_merge/mergeData.py:35-42 | for "date time" it returns the date |
| Fields.DateOrMissing | data_merge/mergeData.py:117-119 | after dropping the "N/A" entries and assigning back, the cell is NaN exactly where safeDateConvert gave "N/A" |
| Fields.FirstWordCell | data-cleaning/mergeData.py:61 | the unguarded `x.split()[0]`: AttributeError for a non-str, IndexError for a blank str |
| Fields.FirstWordAgrees | data_merge/mergeData.py:40-42 | where the guard accepts a cell, the unguarded split gives the same date |
| Fields.AddOne | data_merge/mergeData.py:115 | the day counter rises by one, NaN stays NaN, and a str raises TypeError |
| Fields.IntOrNaN | data_merge/mergeData.py:182-183 | `int(x) if x != "NA" else NaN`: "NA" gives NaN, NaN raises ValueError, an integer is kept, a float is cut toward zero, a plain digit string is read; any other string raises ValueError here, where `int()` also accepts a sign, whitespace and underscores |
| Fields.Truncated | data_merge/mergeData.py:182-183 | `int()` of a float lies within one of it, on the side of zero |
| Fields.IntOf | data_merge/mergeData.py:147 | `int(uid)` succeeds iff uid is decimal digits, else ValueError; the value prints back as uid |
| Fields.IntOfNatToString | data_merge/mergeData.py:147 | `int(str(n)) == n` for subject numbers |
| Fields.ShortValence | data_merge/mergeData.py:158 | `x[0:3]` is a prefix of length min(3, len); TypeError for a non-str |
| Fields.ShortSns | data_merge/mergeData.py:160 | 3 characters for labels starting with 's', else 6; IndexError for "" and TypeError for a non-str |
| Fields.MsgNumber | data_merge/mergeData.py:161 | the later script's id is `str(id)` minus its last two characters; the earlier one's is whole |
| Fields.RowKey | data_merge/mergeData.py:156-162 | the key exists iff valence is a str and the label a non-empty str |
| Fields.KeyCells | data_merge/mergeData.py:157-162 | the key built column by column agrees with RowKey row by row, and fails iff some row's fails |
| Fields.ShortValences | data_merge/mergeData.py:157 | the valences shorten iff every one is a str, to its first three characters; else a TypeError |
| Fields.ShortLabels | data_merge/mergeData.py:159 | the labels shorten iff every one is a non-empty str, to three or six characters; else a TypeError or IndexError |
| Fields.AddMsgIds | data-cleaning/mergeData.py:82-88 | the first failing statement gives the error, in script order: KeyError for valence, the valences' TypeError, KeyError for s_ns, the labels' error, KeyError for id; msg_id is set iff the three columns exist and every row has a key; row i's msg_id is its key |
| Fields.AddMsgIdsKeepsColumns | data_merge/mergeData.py:162 | adding the key changes no other column |
| Collecting.Collect | data_merge/mergeData.py:233-239 | the first subject's exception, None from the first subject without a frame, or every subject's frame in uid order; with all subjects ok it returns frames |
| Collecting.CollectedFrames | data_merge/mergeData.py:233-239 | one frame per subject, in order, each the subject's own, all with the shared columns |
| MergeLater.SplitColsRemoveActivityDate | data_merge/mergeData.py:210 | `finalCols.remove("ActivityDate")` gives the per-run columns |
| MergeLater.RunCols | data_merge/mergeData.py:217 | `finalCols[2:]` starts with onset and has trial third |
| MergeLater.RunColsInSplit | data_merge/mergeData.py:215-217 | every column written per run, and `run`, is in the split frame |
| MergeLater.ActivityDateAt | data_merge/mergeData.py:199-200 | ActivityDate is column 10 of the final columns |
| MergeLater.SplitInFinal | data_merge/mergeData.py:208-211 | the split columns are all among the final columns |
| MergeLater.ActivitySleep | data_merge/mergeData.py:91-105 | KeyError without ActivityDate; on success every activity date was reformatted and no activity day is lost |
| MergeLater.DayColumn | data_merge/mergeData.py:114 | the rename gives the day counter its name and keeps the rows |
| MergeLater.DayColumnKeeps | data_merge/mergeData.py:114 | the rename moves no other column |
| MergeLater.PrepareSms | data_merge/mergeData.py:113-119 | the counter rises by one per numeric cell; SmsDate is each timestamp's date or NaN; row count kept |
| MergeLater.SmsDayColumn | data_merge/mergeData.py:114-115 | the counter keeps its place through the SmsDate assignment and rises by one |
| MergeLater.SmsDateColumn | data_merge/mergeData.py:117-119 | SmsDate is computed from the export's own timestamps |
| MergeLater.CountedKeeps | data_merge/mergeData.py:115 | `+ 1` on the counter leaves the other columns alone |
| MergeLater.CountedCells | data_merge/mergeData.py:115 | every numeric counter grew by one |
| MergeLater.SmsDateCells | data_merge/mergeData.py:119 | setting SmsDate keeps the counter and stores the dates |
| MergeLater.ActivitySms | data_merge/mergeData.py:122-129 | no activity day is lost; subj_day_num comes first |
| MergeLater.NumberRows | data_merge/mergeData.py:147 | the rows kept are exactly those whose subject id equals the number |
| MergeLater.SelectSubject | data_merge/mergeData.py:147-149 | the rows matching `int(uid)`; only when none does, the rows matching the text uid; KeyError and ValueError cases |
| MergeLater.SurveysForUser | data_merge/mergeData.py:141-149 | KeyError without the timestamp column; SurveyDate added; at most the export's rows |
| MergeLater.AttachSurveys | data_merge/mergeData.py:152-154 | succeeds iff both date columns exist; no day is lost |
| MergeLater.AttachSurveysFilled | data_merge/mergeData.py:154 | after the fill no cell is NaN |
| MergeLater.LabelRun | data_merge/mergeData.py:166 | every row of the run carries its tag |
| MergeLater.Events | data_merge/mergeData.py:165-171 | the first run's rows carry "01" and the second run's carry "02" |
| MergeLater.JoinEvents | data_merge/mergeData.py:177 | succeeds iff msg_id and id exist; every day row is kept |
| MergeLater.Normalise | data_merge/mergeData.py:182-185 | KeyError for a missing TotalSteps, the conversion's ValueError, then KeyError for a missing RestingHeartRate; an "NA" step count fails the run (TypeError); on success both _norm columns are added and nothing else |
| MergeLater.NormaliseCells | data_merge/mergeData.py:182-185 | every step count is a number and its z-score is taken against the converted step counts; every heart rate is scored from its converted value, and an "NA" one gives NaN |
| MergeLater.Converted | data_merge/mergeData.py:182-183 | the column converts iff every cell does, cell by cell, else one cell's error |
| MergeLater.Scores | data_merge/mergeData.py:184-185 | the subtraction fails with TypeError iff some cell is a str, else scores each cell, NaN staying NaN |
| MergeLater.SetNorms | data_merge/mergeData.py:184-185 | both normalised columns hold their values row by row; no other column changes |
| MergeLater.Relabel | data_merge/mergeData.py:189-194 | each column gets its name after both renames; the key becomes msg_id_combined and id_x becomes msg_id |
| MergeLater.Stamp | data_merge/mergeData.py:195-197 | KeyError without survey_complete_timestamp; fails iff some timestamp fails to parse; every row's `sub` is the subject's number |
| MergeLater.StampedTimestamp | data_merge/mergeData.py:195-196 | each row's timestamp is "NA" if it was missing or "NA", and otherwise its parsed value |
| MergeLater.SortedRun | data_merge/mergeData.py:215 | exactly the run's rows, cut to the columns, ascending by trial and onset |
| MergeLater.SortedRunSorted | data_merge/mergeData.py:215-217 | cutting the sorted rows to `finalCols[2:]` keeps them sorted by trial and onset |
| MergeLater.RunTable | data_merge/mergeData.py:215-220 | one run's file: its rows under `finalCols[2:]`, sorted by trial then onset |
| MergeLater.OutName | data_merge/mergeData.py:216-219 | the file path under data_clean, with the uid and the run readable at their places |
| MergeLater.RunFiles | data_merge/mergeData.py:214-220 | the two files by path, from a frame under the split columns |
| MergeLater.MergeFilesForUser | data_merge/mergeData.py:70-226 | IndexError without activity or sleep file; None only without a survey export; on success every activity day is kept, the columns are finalCols, `sub` is the uid's number, and the files are the run tables |
| MergeLater.DailyRows | data_merge/mergeData.py:89-129 | the activity, sleep and SMS files are needed, and no activity day is lost |
| MergeLater.WithSurveys | data_merge/mergeData.py:131-226 | both run files are read; uid is numeric; output as delivered |
| MergeLater.Keyed | data_merge/mergeData.py:141-162 | the keyed days keep every day |
| MergeLater.Finish | data_merge/mergeData.py:171-226 | the event join through the output keeps every keyed day and delivers the final frame |
| MergeLater.Output | data_merge/mergeData.py:199-226 | the returned frame has finalCols, the subject first in each row, and the files only with write_csv |
| MergeLater.SubFirst | data_merge/mergeData.py:197-208 | after the selection, `sub` is the first cell of every row |
| MergeLater.Combined | data_merge/mergeData.py:235 | a subject's frame has the final columns |
| MergeLater.SortKeys | data_merge/mergeData.py:241 | sub and ActivityDate are columns 0 and 10 |
| MergeLater.SortedConcat | data_merge/mergeData.py:240-241 | the concatenated rows as a permutation, sorted by sub and then ActivityDate, rows with the same sub and date in concatenation order |
| MergeLater.GetCombinedFile | data_merge/mergeData.py:228-241 | the first subject's exception, None once a subject has none, ValueError for no uids, else all subjects' rows sorted by sub and ActivityDate, ties in uid order |
| MergeEarlier.HeadAt | data-cleaning/mergeData.py:116 | the leading event columns sit at their places in finalCols |
| MergeEarlier.SortKeys | data-cleaning/mergeData.py:128 | trial and onset are columns 4 and 2 |
| MergeEarlier.FinalColsHave | data-cleaning/mergeData.py:116-122 | sub and survey_complete_timestamp are among the final columns |
| MergeEarlier.Activity | data-cleaning/mergeData.py:52-54 | every activity date is reformatted in place; KeyError without the column |
| MergeEarlier.PrepareSms | data-cleaning/mergeData.py:58-61 | every timestamp must be a non-blank str, and SmsDate is its first word |
| MergeEarlier.SmsDates | data-cleaning/mergeData.py:61 | SmsDate is computed from the export's own timestamps |
| MergeEarlier.SmsTimestamps | data-cleaning/mergeData.py:59-60 | the timestamp column is unchanged by the renaming and the counter |
| MergeEarlier.ActivitySms | data-cleaning/mergeData.py:64-69 | the inner join's rows with subj_day_num first |
| MergeEarlier.ActivitySmsSameDay | data-cleaning/mergeData.py:64 | each joined row's activity date equals its SMS date |
| MergeEarlier.SubjectRows | data-cleaning/mergeData.py:76 | exactly the rows whose subject id equals `int(uid)` |
| MergeEarlier.SubjectRowsAgainstLater | data-cleaning/mergeData.py:76 | this equals the later script's selection when any row matches the number, and is empty otherwise |
| MergeEarlier.SurveysForUser | data-cleaning/mergeData.py:72-76 | KeyError without the timestamp column; SurveyDate added; the uid is numeric |
| MergeEarlier.SurveyTimestampsSplit | data-cleaning/mergeData.py:73 | every survey timestamp, of any subject, had to split |
| MergeEarlier.Keyed | data-cleaning/mergeData.py:78-88 | no day is lost and msg_id is set |
| MergeEarlier.JoinEvents | data-cleaning/mergeData.py:100 | succeeds iff msg_id and id exist |
| MergeEarlier.JoinEventsKeys | data-cleaning/mergeData.py:100 | each joined row pairs a day and an event with the same message key |
| MergeEarlier.RelabelKeepsSub | data-cleaning/mergeData.py:109-114 | no rename produces `sub` |
| MergeEarlier.FinalNameSub | data-cleaning/mergeData.py:109-114 | only `sub` is named `sub` after the renames |
| MergeEarlier.Picked | data-cleaning/mergeData.py:102-124 | the selection succeeds only if a `sub` column came in, giving finalCols |
| MergeEarlier.RunTable | data-cleaning/mergeData.py:128 | exactly the run's rows, every column kept, sorted by trial then onset |
| MergeEarlier.FinalRunKeys | data-cleaning/mergeData.py:116-128 | run is column 1, and trial and onset are columns 4 and 2 |
| MergeEarlier.RunTableAt | data-cleaning/mergeData.py:128-133 | under the final columns the run table exists and is sorted on columns 4 and 2 |
| MergeEarlier.RunFiles | data-cleaning/mergeData.py:127-133 | two files by path, each the rows of its run sorted by trial then onset |
| MergeEarlier.MergeFilesForUser | data-cleaning/mergeData.py:32-136 | IndexError when no file starts with the uid; success needs all files, a numeric uid and a `sub` column in some input; finalCols and the run files |
| MergeEarlier.DailyRows | data-cleaning/mergeData.py:49-69 | the days come from the first file whose name starts with the uid: IndexError when there is none, KeyError when it has no ActivityDate (a sleep log listed first); that file and the SMS file are needed; `sub` can only come from them |
| MergeEarlier.WithSurveys | data-cleaning/mergeData.py:71-124 | the named export and both run files are needed; finalCols |
| MergeEarlier.WithSurveysSub | data-cleaning/mergeData.py:116-123 | a `sub` column comes from the days, the export or an event log |
| MergeEarlier.Surveyed | data-cleaning/mergeData.py:71-88 | the named export is read; `sub` can only come from the days or the export |
| MergeEarlier.Finish | data-cleaning/mergeData.py:90-124 | finalCols, with `sub` from the days or a run |
| MergeEarlier.EventsCols | data-cleaning/mergeData.py:90-97 | a `sub` column of the events came from a run |
| MergeEarlier.Combined | data-cleaning/mergeData.py:145 | a subject's frame has the final columns |
| MergeEarlier.Concatenated | data-cleaning/mergeData.py:146 | frames under finalCols concatenate to their rows in order |
| MergeEarlier.GetCombinedFile | data-cleaning/mergeData.py:138-147 | the first subject's exception, ValueError for no uids, else all rows in uid order under finalCols |
| MessageTask.Padded | health_message_task/message_task_scale.py:24-27 | the id padded with zeros to at least three characters, ending in the id |
| MessageTask.CheckId | health_message_task/message_task_scale.py:24-27 | the while loop returns the padded id |
| MessageTask.PaddedLong | health_message_task/message_task_scale.py:25 | an id of three or more characters is unchanged |
| MessageTask.PaddedIdempotent | health_message_task/message_task_scale.py:24-27 | padding twice pads once |
| MessageTask.PaddedValue | health_message_task/message_task_scale.py:25-26 | the padded id reads as the same number |
| MessageTask.PadRunNumber | health_message_task/message_task_scale.py:157-159 | the padded run number ends in the run number with only zeros before it; at least two characters for a non-empty run number |
| MessageTask.PadRunNumberIdempotent | health_message_task/message_task_scale.py:157-159 | padding a padded run number (of at least one character) again changes nothing |
| MessageTask.PadRunNumberValue | health_message_task/message_task_scale.py:157-159 | a run number of digits is still digits after padding and reads as the same number |
| MessageTask.EventsFileName | health_message_task/message_task_scale.py:161 | the log name holds the subject id and the padded run number, but is not the name the merge scripts read ("HealthMessageTask" against "HealthMessage") |
| MessageTask.GetDurations | health_message_task/message_task_scale.py:30-42 | for a positive frame rate: instruct < rating < message < stabilize, all positive |
| MessageTask.DurationsScale | health_message_task/message_task_scale.py:37-40 | every duration is its one-frame value (8, 5, 10, 2) times the frame rate |
| MessageTask.FixedLists | health_message_task/message_task_scale.py:146-149 | both lists hold 40 intervals of 2 to 6 seconds |
| MessageTask.FirstList | health_message_task/message_task_scale.py:147 | the first list holds 40 intervals of 2 to 6 seconds |
| MessageTask.SecondList | health_message_task/message_task_scale.py:149 | the second list holds 40 intervals of 2 to 6 seconds |
| MessageTask.FixedItisAsWritten | health_message_task/message_task_scale.py:146-149 | 40 intervals of 2 to 6 seconds; the first list exactly when the run number compares equal to 1, so the second for any str |
| MessageTask.AsWrittenAlwaysSecond | health_message_task/message_task_scale.py:146 | both dialog choices "01" and "02" get the second list, and no text run number gets the first |
| MessageTask.FixedItisByRun | health_message_task/message_task_scale.py:146-149 | with the run number read as an integer, "01" and "1" give the first list and "02" the second |
| MessageTask.SwapPermutes | health_message_task/message_task_scale.py:150 | a swap keeps the intervals |
| MessageTask.FisherYatesStep | health_message_task/message_task_scale.py:150 | one shuffle step swaps i with the drawn position |
| MessageTask.FisherYatesPermutes | health_message_task/message_task_scale.py:150 | shuffling keeps the length and the intervals, as a multiset |
| MessageTask.Shuffle | health_message_task/message_task_scale.py:150 | the in-place shuffle leaves the array as the shuffle specification says, a permutation of the old contents |
| MessageTask.ShuffledCopy | health_message_task/message_task_scale.py:147-150 | the list shuffled in an array is its shuffle, a permutation |
| MessageTask.InRangePermutation | health_message_task/message_task_scale.py:143-150 | a permutation keeps the length and the 2 to 6 second range |
| MessageTask.GetFixations | health_message_task/message_task_scale.py:139-151 | the list the comparison picks for the run number, shuffled: 40 intervals of 2 to 6 seconds, the same multiset as that list |
| MessageTask.HeaderMatchesSlots | health_message_task/message_task_scale.py:166-168 | each indDic slot is the header column of its name, trial_num's being "trial" |
| MessageTask.TextCells | health_message_task/message_task_scale.py:166 | the header row holds one text cell per name |
| MessageTask.TaskIdMatchesMergeKey | health_message_task/message_task_scale.py:240-245 | for "social" and "nonsocial" and a numeric id, the task's id is the earlier script's key from an integer id but not from a float one, and the later script's key from a float id but not from an integer one |
| MessageTask.MergeKeyOf | data_merge/mergeData.py:156-162 | for the two labels, the key is the valence prefix, the label cut by three, and the id text |
| MessageTask.TaskMessageIdSplits | health_message_task/message_task_scale.py:242 | the id is its three pieces joined by "_", and splits back into them when none holds "_" |
| MessageTask.ScreenOverwrite | health_message_task/message_task_scale.py:325-337 | writing a screen over the list leaves only that screen's slots |
| MessageTask.EmittedRows | health_message_task/message_task_scale.py:234-338 | n trials write 3n rows; row i is row i % 3 of trial i / 3, which popped the interval i / 3 places from the end |
| MessageTask.TrialRowsShape | health_message_task/message_task_scale.py:322-338 | a trial's three rows share its number, response and message fields, and are iti, message, rating with their onsets and durations |
| MessageTask.RunTrials | health_message_task/message_task_scale.py:234-338 | no error iff every trial had an interval and a response, and then the rows are the trials' rows; otherwise the rows of the trials before, and IndexError from the pop or from the empty history |
| MessageTask.DoRun | health_message_task/message_task_scale.py:155-338 | the file name; the header first; the trial rows over the intervals shuffled from the list picked for the dialog's run string; at most 40 trials succeed; a 41st trial raises IndexError from the pop |

## Left out

- Drawing, the window, clocks, key presses and `core.quit`: these are psychopy runtime. The onsets they give are inputs (`Observed`).
- The rating scale (`CustomRatingScale`, `getCustomScale`): it is third-party code. Its response history is an input, and only `getHistory()[-1]` is read.
- The shuffle's randomness: it is a parameter `pick`. The draw for position i is `pick(i) % (i + 1)`, so every drawn position is in range.
- `getRuns` and the stimulus CSV: file reading. The shuffled trials are an input.
- The message text and `strip('"')`: the text is drawn on screen and never logged.
- `trials.addData`, `logging` and the unused log file name: none of them affects the event log.
- The dialog and the main block: the subject id and run number are inputs. `checkID` is modelled on its own.
- Reading `data_raw` (`os.listdir`, `read_csv`): the folder is a value (`RawData.DataDir`). Parsing CSV text is not modelled.
- Every CSV write: the per-run files are returned as (path, frame) pairs. The combined file and the task's event file are returned as values.
- `getSeparateFiles` and the scripts' main blocks: they only call the modelled functions in a loop over hard-coded uids.
- `print` output, including `safeDateConvert`'s verbose branch and the messages about survey files: it has no effect on the data.
- The z-score statistics (`mean`, `std`): floating-point arithmetic. The parameter `norm` maps the converted column and a value to its score.
- `pd.to_datetime` in `dateToUnix`: parsing, passed in as the parameter `parse`. Only the "NA" branch is modelled.
- The dtypes that pandas infers when reading: numbers are Int or decimal Float cells, and exponent notation in `str()` of a float is not modelled.
- A merge on a key name present on both sides: pandas coalesces that key, and the scripts never merge that way.
- MergeLater.SortedRun: states the rows and their order by trial and onset, but not the order of rows with equal trial and onset after the columns are cut. The sort itself keeps them in input order (Sorting.SortValues).
- MergeEarlier.RunTable: likewise states no order among rows with equal trial and onset.
- Fields.IntOrNaN: reads only plain decimal digits in a TotalSteps or RestingHeartRate text cell, through Fields.IntOf; a cell such as "-60" or " 60 " fails the subject with ValueError here, while `int()` reads it.
- Fields.IntOf: reads only plain decimal digits. Python's `int()` also accepts a sign, surrounding whitespace and underscores between digits; such a uid fails here with ValueError.
- Joins.Joined: when a left join pads a row, every integer cell of the right side becomes a float. Pandas does so per column, and keeps a column that mixes integers and text as it is.
- Inner joins keep the left rows' order, as pandas 2.2 and later do. Older pandas grouped the output by key.
- MergeLater.MergeFilesForUser: states the columns, the row count, the `sub` column and the files. The contents of the other cells are stated stage by stage (PrepareSms, AddMsgIds, Normalise, Relabel), not end to end.
- MergeEarlier.MergeFilesForUser: states the columns, where `sub` must come from and the run files. The other cells are stated stage by stage, as for the later script.
- MessageTask.DoRun: for a run that ends early it states the error only for the case of more than 40 trials. The rows written before any IndexError are stated by RunTrials.
- The event log's cells: modelled as the merge model's cells. The TSV text encoding is not modelled.

## Findings

| source | as written | input that shows it | evidently intended | confidence | as-written member | corrected member |
|---|---|---|---|---|---|---|
| health_message_task/message_task_scale.py:146 | `getFixations(run_num)` compares the run number with the integer 1, but `do_run` passes the dialog's string "01" or "02" | run number "01" from the dialog: `"01" == 1` is False, so run 1 shuffles the run 2 list | run 1 uses the first interval list and run 2 the second | not executed | MessageTask.AsWrittenAlwaysSecond | MessageTask.FixedItisByRun |
