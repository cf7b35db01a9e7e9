/** The per-cell functions both merge scripts apply down a column: `formatDate`,
    `safeDateConvert`, `x.split()[0]`, the day counter `x + 1`, `dateToUnix`, `int(uid)`,
    and the pieces of the composite message key. */
module Fields {
  import opened Results
  import opened Strings
  import opened Frames

  /** The name Python gives the type of a cell's value in its error messages. */
  function TypeName(c: Cell): string
  {
    match c
    case Missing => "float"
    case Float(_, _) => "float"
    case Int(_) => "int"
    case Text(_) => "str"
  }

  // ---------------------------------------------------------------------------
  // formatDate (data_merge/mergeData.py:48-59, data-cleaning/mergeData.py:10-21)
  // ---------------------------------------------------------------------------

  /** A month or day of one character gets a leading '0'. */
  function Pad2(s: string): string
  {
    if |s| < 2 then "0" + s else s
  }

  /** `formatDate`: "M/D/YYYY" rewritten as "YYYY-MM-DD"; the unpacking into three names
      raises ValueError unless there are exactly two slashes. */
  function FormatDate(date: string): (r: Result<string>)
    ensures r.Success? <==> Count(date, '/') == 2
    ensures r.Failure? ==> r.error.ValueError?
  {
    var parts := Split(date, '/');
    SplitJoin(date, '/');
    if |parts| < 3 then Failure(ValueError("not enough values to unpack (expected 3, got " + NatToString(|parts|) + ")"))
    else if |parts| > 3 then Failure(ValueError("too many values to unpack (expected 3)"))
    else Success(Join('-', [parts[2], Pad2(parts[0]), Pad2(parts[1])]))
  }

  lemma JoinThree(sep: char, a: string, b: string, c: string)
    ensures Join(sep, [a, b, c]) == a + [sep] + b + [sep] + c
  {
    assert [a, b, c][1..] == [b, c];
    assert [b, c][1..] == [c];
    assert Join(sep, [b, c]) == b + [sep] + c;
    assert Join(sep, [a, b, c]) == a + [sep] + (b + [sep] + c);
  }

  /** For a date written m/d/y the result is y, then m and d padded to two characters. */
  lemma FormatDateShape(m: string, d: string, y: string)
    requires '/' !in m && '/' !in d && '/' !in y
    ensures FormatDate(m + "/" + d + "/" + y) == Success(y + "-" + Pad2(m) + "-" + Pad2(d))
  {
    JoinThree('/', m, d, y);
    JoinSplit([m, d, y], '/');
    JoinThree('-', y, Pad2(m), Pad2(d));
  }

  /** Reading the result back: splitting on '-' gives the year and two-character month
      and day, and the month and day keep their numeric values. */
  lemma FormatDateReadsBack(m: string, d: string, y: string)
    requires 1 <= |m| <= 2 && 1 <= |d| <= 2
    requires forall i :: 0 <= i < |m| ==> IsDigit(m[i])
    requires forall i :: 0 <= i < |d| ==> IsDigit(d[i])
    requires '/' !in y && '-' !in y
    ensures FormatDate(m + "/" + d + "/" + y).Success?
    ensures Split(FormatDate(m + "/" + d + "/" + y).value, '-') == [y, Pad2(m), Pad2(d)]
    ensures |Pad2(m)| == 2 && DigitsValue(Pad2(m)) == DigitsValue(m)
    ensures |Pad2(d)| == 2 && DigitsValue(Pad2(d)) == DigitsValue(d)
  {
    FormatDateShape(m, d, y);
    JoinThree('-', y, Pad2(m), Pad2(d));
    assert '-' !in Pad2(m) && '-' !in Pad2(d);
    JoinSplit([y, Pad2(m), Pad2(d)], '-');
    LeadingZerosValue(1, m);
    LeadingZerosValue(1, d);
    assert Zeros(1) == "0";
  }

  /** `series.apply(formatDate)` on one cell: only a str has `.split`. */
  function FormatDateCell(c: Cell): (r: Result<Cell>)
    ensures r.Success? <==> c.Text? && Count(c.s, '/') == 2
    ensures r.Success? ==> r.value == Text(FormatDate(c.s).value)
    ensures !c.Text? ==> r.error.AttributeError?
  {
    if !c.Text? then Failure(AttributeError("'" + TypeName(c) + "' object has no attribute 'split'"))
    else
      var d :- FormatDate(c.s);
      Success(Text(d))
  }

  // ---------------------------------------------------------------------------
  // Dates inside timestamps
  // ---------------------------------------------------------------------------

  lemma ColonNotBlank(s: string)
    requires ':' in s
    ensures !AllSpace(s)
  {
    var i :| 0 <= i < |s| && s[i] == ':';
    assert !IsSpace(s[i]);
  }

  /** `safeDateConvert` (data_merge/mergeData.py:33-46): the first whitespace-separated
      token of a str holding ':', and "N/A" for anything else; it never raises. */
  function SafeDateConvert(c: Cell): (r: string)
    ensures r != "N/A" ==> c.Text? && ':' in c.s
    ensures c.Text? && ':' in c.s ==> FirstWord(c.s) == Some(r)
  {
    if c.Text? && ':' in c.s then
      ColonNotBlank(c.s);
      FirstWord(c.s).value
    else "N/A"
  }

  /** A "YYYY-MM-DD HH:MM:SS" stamp yields its date part. */
  lemma SafeDateOfTimestamp(d: string, t: string)
    requires d != [] && NoSpace(d) && ':' in t
    ensures SafeDateConvert(Text(d + " " + t)) == d
  {
    var s := d + " " + t;
    var i :| 0 <= i < |t| && t[i] == ':';
    assert s[|d| + 1 + i] == ':';
    FirstWordOfStamp(d, ' ', t);
  }

  /** The later scripts' SmsDate / SurveyDate cell: NaN where safeDateConvert gave "N/A". */
  function DateOrMissing(c: Cell): (r: Cell)
    ensures r == Missing <==> SafeDateConvert(c) == "N/A"
    ensures r != Missing ==> r == Text(SafeDateConvert(c))
  {
    var d := SafeDateConvert(c);
    if d == "N/A" then Missing else Text(d)
  }

  /** `lambda x: x.split()[0]`, unguarded: AttributeError on a non-str, IndexError on a
      blank str. */
  function FirstWordCell(c: Cell): (r: Result<Cell>)
    ensures r.Success? <==> c.Text? && !AllSpace(c.s)
    ensures r.Success? ==> r.value == Text(FirstWord(c.s).value)
    ensures c.Text? && AllSpace(c.s) ==> r == Failure(IndexError("list index out of range"))
  {
    if !c.Text? then Failure(AttributeError("'" + TypeName(c) + "' object has no attribute 'split'"))
    else
      var w := FirstWord(c.s);
      if w.None? then Failure(IndexError("list index out of range")) else Success(Text(w.value))
  }

  /** Where the later guard accepts a cell, the unguarded split picks the same date. */
  lemma FirstWordAgrees(c: Cell)
    requires c.Text? && ':' in c.s
    ensures FirstWordCell(c) == Success(Text(SafeDateConvert(c)))
  {
    ColonNotBlank(c.s);
  }

  // ---------------------------------------------------------------------------
  // Day counter, timestamps, uid
  // ---------------------------------------------------------------------------

  /** `lambda x: x + 1` on the SMS export's unnamed index column. */
  function AddOne(c: Cell): (r: Result<Cell>)
    ensures r.Success? <==> !c.Text?
    ensures IsNumber(c) ==> IsNumber(r.value) && NumValue(r.value) == NumValue(c) + 1.0
    ensures c == Missing ==> r == Success(Missing)
  {
    match c
    case Int(i) => Success(Int(i + 1))
    case Float(u, p) => ShiftByOne(u, Pow10(p)); Success(Float(u + Pow10(p), p))
    case Missing => Success(Missing)
    case Text(_) => Failure(TypeError("can only concatenate str (not \"int\") to str"))
  }

  lemma ShiftByOne(u: int, d: nat)
    requires d > 0
    ensures (u + d) as real / d as real == u as real / d as real + 1.0
  {
    var x, y := u as real, d as real;
    assert (x + y) / y == x / y + y / y;
    assert y / y == 1.0;
  }

  /** n is x rounded toward zero, as Python's `int()` rounds a float. */
  predicate TruncatesTo(x: real, n: int)
  {
    if x >= 0.0 then n as real <= x < n as real + 1.0 else n as real - 1.0 < x <= n as real
  }

  /** `lambda x: int(x) if x != "NA" else np.NaN` on the step counts and heart rates: "NA"
      becomes NaN, a number is rounded toward zero, a plain digit string is read, and NaN itself
      or any other string raises ValueError (`int()` would also read a sign, surrounding
      whitespace and underscores). */
  function IntOrNaN(c: Cell): (r: Result<Cell>)
    ensures c == Text("NA") ==> r == Success(Missing)
    ensures c == Missing ==> r.Failure? && r.error.ValueError?
    ensures c.Int? ==> r == Success(c)
    ensures c.Float? ==> r.Success? && r.value.Int? && TruncatesTo(NumValue(c), r.value.i)
    ensures c.Text? && c.s != "NA" ==> (r.Success? <==> IsDigits(c.s))
    ensures c.Text? && c.s != "NA" && r.Success? ==> r.value == Int(IntOf(c.s).value)
    ensures r.Success? ==> r.value == Missing || r.value.Int?
  {
    match c
    case Missing => Failure(ValueError("cannot convert float NaN to integer"))
    case Int(_) => Success(c)
    case Float(u, p) => Success(Int(Truncated(u, Pow10(p))))
    case Text(s) =>
      if s == "NA" then Success(Missing)
      else
        var n :- IntOf(s);
        Success(Int(n))
  }

  /** u / d rounded toward zero. */
  function Truncated(u: int, d: nat): (n: int)
    requires d > 0
    ensures TruncatesTo(u as real / d as real, n)
  {
    var a: nat := if u < 0 then -u else u;
    Truncation(a, d);
    if u < 0 then
      assert u as real / d as real == -(a as real / d as real);
      -(a / d)
    else a / d
  }

  /** The quotient a / d is a / d rounded down. */
  lemma Truncation(a: nat, d: nat)
    requires d > 0
    ensures (a / d) as real <= a as real / d as real < (a / d) as real + 1.0
  {
    var q, m := a / d, a % d;
    assert a == q * d + m;
    var x, y := q as real, d as real;
    assert a as real == x * y + m as real;
    assert a as real / y == x + m as real / y;
    assert m as real / y < 1.0;
  }

  /** `dateToUnix`: the "NA" marker passes through; anything else goes to the timestamp
      parser, which is a parameter here. */
  function DateToUnix(c: Cell, parse: Cell -> Result<Cell>): (r: Result<Cell>)
    ensures c == Text("NA") ==> r == Success(Text("NA"))
    ensures c != Text("NA") ==> r == parse(c)
  {
    if c == Text("NA") then Success(c) else parse(c)
  }

  /** `int(uid)` for the digit strings used as subject ids. */
  function IntOf(uid: string): (r: Result<int>)
    ensures r.Success? <==> IsDigits(uid)
    ensures r.Success? ==> r.value >= 0 && (uid[0] != '0' ==> NatToString(r.value) == uid)
    ensures r.Failure? ==> r.error.ValueError?
  {
    if IsDigits(uid) then
      DigitsValueOfDigits(uid);
      Success(DigitsValue(uid))
    else Failure(ValueError("invalid literal for int() with base 10: '" + uid + "'"))
  }

  /** `int(str(n)) == n` for the ids `str()` writes. */
  lemma IntOfNatToString(n: nat)
    ensures IntOf(NatToString(n)) == Success(n)
  {
    NatToStringValue(n);
  }

  lemma {:induction false} DigitsValueOfDigits(s: string)
    requires forall i :: 0 <= i < |s| ==> IsDigit(s[i])
    ensures DigitsValue(s) >= 0
    ensures |s| > 0 && s[0] != '0' ==> NatToString(DigitsValue(s)) == s
  {
    if s != [] {
      var init := s[..|s| - 1];
      DigitsValueOfDigits(init);
      var d := s[|s| - 1] as int - '0' as int;
      if s[0] != '0' && |s| > 1 {
        assert init[0] == s[0];
        assert NatToString(DigitsValue(s)) == NatToString(DigitsValue(init)) + [DigitChar(d)] by {
          assert DigitsValue(s) / 10 == DigitsValue(init) && DigitsValue(s) % 10 == d;
          assert DigitsValue(init) >= 1 by { NatToStringPositive(init); }
        }
        assert DigitChar(d) == s[|s| - 1];
        assert s == init + [s[|s| - 1]];
      } else if |s| == 1 {
        assert DigitChar(d) == s[0];
      }
    }
  }

  lemma {:induction false} NatToStringPositive(s: string)
    requires |s| > 0 && s[0] != '0' && forall i :: 0 <= i < |s| ==> IsDigit(s[i])
    ensures DigitsValue(s) >= 1
  {
    if |s| > 1 {
      NatToStringPositive(s[..|s| - 1]);
    }
  }

  // ---------------------------------------------------------------------------
  // The composite message key (data_merge/mergeData.py:157-162,
  // data-cleaning/mergeData.py:83-88)
  // ---------------------------------------------------------------------------

  /** `x[0:3]` of the valence. */
  function ShortValence(c: Cell): (r: Result<string>)
    ensures r.Success? <==> c.Text?
    ensures r.Success? ==> |r.value| == Min(3, |c.s|) && r.value == c.s[..|r.value|]
  {
    if c.Text? then Success(Prefix(c.s, 3))
    else Failure(TypeError("'" + TypeName(c) + "' object is not subscriptable"))
  }

  /** `x[0:3] if x[0] == 's' else x[0:6]` of the social / non-social label. */
  function ShortSns(c: Cell): (r: Result<string>)
    ensures r.Success? <==> c.Text? && c.s != []
    ensures c == Text("") ==> r == Failure(IndexError("string index out of range"))
    ensures r.Success? ==> |r.value| == Min(if c.s[0] == 's' then 3 else 6, |c.s|)
    ensures r.Success? ==> r.value == c.s[..|r.value|]
  {
    if !c.Text? then Failure(TypeError("'" + TypeName(c) + "' object is not subscriptable"))
    else if c.s == [] then Failure(IndexError("string index out of range"))
    else if c.s[0] == 's' then Success(Prefix(c.s, 3))
    else Success(Prefix(c.s, 6))
  }

  /** `str(id)`, with its last two characters cut off when strip is set (the later script). */
  function MsgNumber(c: Cell, strip: bool): (r: string)
    ensures !strip ==> r == Show(c)
    ensures strip ==> |r| == Max(0, |Show(c)| - 2) && r == Show(c)[..|r|]
  {
    if strip then DropLast(Show(c), 2) else Show(c)
  }

  /** One row's key, computed row by row: the reference for the column-wise version. */
  function RowKey(valence: Cell, sns: Cell, id: Cell, strip: bool): (r: Result<string>)
    ensures r.Success? <==> valence.Text? && sns.Text? && sns.s != []
  {
    var v :- ShortValence(valence);
    var s :- ShortSns(sns);
    Success(v + "_" + s + "_" + MsgNumber(id, strip))
  }

  function AsText(r: Result<string>): Result<Cell>
  {
    if r.Failure? then Failure(r.error) else Success(Text(r.value))
  }

  /** `valence.apply(lambda x: x[0:3])`: the first non-str valence raises TypeError. */
  function ShortValences(rows: seq<Row>, kv: nat): (r: Result<seq<Cell>>)
    ensures r.Success? <==> forall i :: 0 <= i < |rows| ==> At(rows[i], kv).Text?
    ensures r.Success? ==> |r.value| == |rows| && forall i :: 0 <= i < |rows| ==>
      r.value[i] == Text(ShortValence(At(rows[i], kv)).value)
    ensures r.Failure? ==> r.error.TypeError?
  {
    MapRows(rows, row => AsText(ShortValence(At(row, kv))))
  }

  /** `s_ns.apply(lambda x: x[0:3] if x[0] == 's' else x[0:6])`: the first label that is
      not a str raises TypeError, the first empty one IndexError. */
  function ShortLabels(rows: seq<Row>, ks: nat): (r: Result<seq<Cell>>)
    ensures r.Success? <==> forall i :: 0 <= i < |rows| ==> At(rows[i], ks).Text? && At(rows[i], ks).s != []
    ensures r.Success? ==> |r.value| == |rows| && forall i :: 0 <= i < |rows| ==>
      r.value[i] == Text(ShortSns(At(rows[i], ks)).value)
    ensures r.Failure? ==> r.error.TypeError? || r.error.IndexError?
  {
    MapRows(rows, row => AsText(ShortSns(At(row, ks))))
  }

  /** `valence_short + "_" + s_ns_short + "_" + msg_num`, row by row. */
  function Keys(vs: seq<Cell>, ss: seq<Cell>, rows: seq<Row>, ki: nat, strip: bool): seq<Cell>
    requires |vs| == |ss| == |rows|
  {
    seq(|rows|, i requires 0 <= i < |rows| => Text(Show(vs[i]) + "_" + Show(ss[i]) + "_" + MsgNumber(At(rows[i], ki), strip)))
  }

  /** The key column, computed as the script does: all valences shortened first, then all
      labels, then each row's pieces joined; it agrees with RowKey row by row. */
  function KeyCells(rows: seq<Row>, kv: nat, ks: nat, ki: nat, strip: bool): (r: Result<seq<Cell>>)
    ensures r.Success? <==> forall i :: 0 <= i < |rows| ==> RowKey(At(rows[i], kv), At(rows[i], ks), At(rows[i], ki), strip).Success?
    ensures r.Success? ==> |r.value| == |rows| && forall i :: 0 <= i < |rows| ==>
      r.value[i] == Text(RowKey(At(rows[i], kv), At(rows[i], ks), At(rows[i], ki), strip).value)
  {
    var vs :- ShortValences(rows, kv);
    var ss :- ShortLabels(rows, ks);
    Success(Keys(vs, ss, rows, ki, strip))
  }

  /** The statements that build msg_id, in the script's order: look up valence and shorten
      it, look up s_ns and shorten it, look up id; the first of these to raise gives the
      error. Otherwise the key column (KeyCells, so row i holds RowKey of row i) is set as
      msg_id, all else unchanged. */
  function AddMsgIds(f: Frame, strip: bool): (r: Result<Frame>)
    ensures "valence" !in f.cols ==> r == Failure(KeyError("valence"))
    ensures "valence" in f.cols ==> var vs := ShortValences(f.rows, IndexOf(f.cols, "valence").value);
      (vs.Failure? ==> r == Failure(vs.error))
      && (vs.Success? && "s_ns" !in f.cols ==> r == Failure(KeyError("s_ns")))
    ensures "valence" in f.cols && "s_ns" in f.cols ==>
      var vs := ShortValences(f.rows, IndexOf(f.cols, "valence").value);
      var ss := ShortLabels(f.rows, IndexOf(f.cols, "s_ns").value);
      (vs.Success? && ss.Failure? ==> r == Failure(ss.error))
      && (vs.Success? && ss.Success? && "id" !in f.cols ==> r == Failure(KeyError("id")))
    ensures r.Success? <==> ("valence" in f.cols && "s_ns" in f.cols && "id" in f.cols &&
      KeyCells(f.rows, IndexOf(f.cols, "valence").value, IndexOf(f.cols, "s_ns").value, IndexOf(f.cols, "id").value, strip).Success?)
    ensures r.Success? ==> |r.value.rows| == |f.rows| && "msg_id" in r.value.cols
    ensures r.Success? ==> r.value.cols == if "msg_id" in f.cols then f.cols else f.cols + ["msg_id"]
    ensures r.Success? ==> forall i :: 0 <= i < |f.rows| ==>
      At(r.value.rows[i], IndexOf(r.value.cols, "msg_id").value)
        == KeyCells(f.rows, IndexOf(f.cols, "valence").value, IndexOf(f.cols, "s_ns").value, IndexOf(f.cols, "id").value, strip).value[i]
  {
    var kv :- Column(f, "valence");
    var vs :- ShortValences(f.rows, kv);
    var ks :- Column(f, "s_ns");
    var ss :- ShortLabels(f.rows, ks);
    var ki :- Column(f, "id");
    Success(SetColumn(f, "msg_id", Keys(vs, ss, f.rows, ki, strip)))
  }

  /** Adding the key leaves every other column as it was. */
  lemma AddMsgIdsKeepsColumns(f: Frame, strip: bool)
    requires AddMsgIds(f, strip).Success?
    ensures forall i, j :: 0 <= i < |f.rows| && 0 <= j < |f.cols| && f.cols[j] != "msg_id" ==>
      AddMsgIds(f, strip).value.rows[i][j] == f.rows[i][j]
  {
  }
}
