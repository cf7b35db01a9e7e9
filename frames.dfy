/** The subset of a pandas DataFrame that the merge scripts use, kept positional:
    a list of column names and a list of rows, each row one cell per column.
    Every operation that can raise in pandas returns a Result. */
module Frames {
  import opened Results
  import opened Strings

  /** One cell. `Missing` is pandas' NaN; `Float(u, p)` is the decimal u / 10^p. */
  datatype Cell =
    | Missing
    | Text(s: string)
    | Int(i: int)
    | Float(units: int, places: nat)

  function Pow10(n: nat): (r: nat)
    ensures r >= 1
  {
    if n == 0 then 1 else 10 * Pow10(n - 1)
  }

  predicate IsNumber(c: Cell) { c.Int? || c.Float? }

  function NumValue(c: Cell): real
    requires IsNumber(c)
  {
    if c.Int? then c.i as real else c.units as real / Pow10(c.places) as real
  }

  /** Python's `str()` of a cell (a float is shown without exponent, as str() shows
      every float between 1e-4 and 1e16). */
  function Show(c: Cell): string
  {
    match c
    case Missing => "nan"
    case Text(s) => s
    case Int(i) => IntToString(i)
    case Float(u, p) => FloatText(u, p)
  }

  function FloatText(u: int, p: nat): string
  {
    var a: nat := if u < 0 then -u else u;
    var fraction := StripTrailingZeros(FractionDigits(Rem(a, Pow10(p)), p));
    (if u < 0 then "-" else "") + NatToString(Quot(a, Pow10(p))) + "." + (if fraction == [] then "0" else fraction)
  }

  function Quot(a: nat, d: nat): nat
    requires d > 0
  {
    a / d
  }

  function Rem(a: nat, d: nat): nat
    requires d > 0
  {
    a % d
  }

  /** The p digits after the decimal point of a fraction f / 10^p. */
  function FractionDigits(f: nat, p: nat): string
  {
    if p == 0 then []
    else
      var d := NatToString(f);
      (if |d| < p then Zeros(p - |d|) else []) + d
  }

  function StripTrailingZeros(s: string): (r: string)
    ensures |r| <= |s| && r == s[..|r|]
    ensures r == [] || r[|r| - 1] != '0'
  {
    if s == [] || s[|s| - 1] != '0' then s else StripTrailingZeros(s[..|s| - 1])
  }

  /** An integral float is shown as its integer followed by ".0" (`str(3.0) == "3.0"`). */
  lemma ShowWholeFloat(n: int)
    ensures Show(Float(n, 0)) == IntToString(n) + ".0"
  {
    var a: nat := if n < 0 then -n else n;
    assert Quot(a, 1) == a && Rem(a, 1) == 0;
    assert FractionDigits(0, 0) == [];
  }

  // ---------------------------------------------------------------------------
  // Frames
  // ---------------------------------------------------------------------------

  type Row = seq<Cell>

  datatype Table = Table(cols: seq<string>, rows: seq<Row>)

  /** Every row has one cell per column: pandas cannot build any other frame. */
  predicate Rectangular(t: Table)
  {
    forall i :: 0 <= i < |t.rows| ==> |t.rows[i]| == |t.cols|
  }

  type Frame = t: Table | Rectangular(t) witness Table([], [])

  /** Rows picked from a frame fit its columns. */
  lemma PickedRows(f: Frame, rows: seq<Row>)
    requires forall x | x in rows :: x in f.rows
    ensures Rectangular(Table(f.cols, rows))
  {
    forall i | 0 <= i < |rows|
      ensures |rows[i]| == |f.cols|
    {
      assert rows[i] in f.rows;
    }
  }

  /** Cell k of a row, NaN past its end. */
  function At(r: Row, k: nat): Cell
  {
    if k < |r| then r[k] else Missing
  }

  /** Position of the first column with this name. */
  function IndexOf(cols: seq<string>, name: string): (r: Option<nat>)
    ensures r.None? <==> name !in cols
    ensures r.Some? ==> r.value < |cols| && cols[r.value] == name
  {
    IndexFrom(cols, name, 0)
  }

  /** Position of the first column with this name at or after position k. */
  function IndexFrom(cols: seq<string>, name: string, k: nat): (r: Option<nat>)
    requires k <= |cols|
    decreases |cols| - k
    ensures r.None? <==> forall j :: k <= j < |cols| ==> cols[j] != name
    ensures r.Some? ==> k <= r.value < |cols| && cols[r.value] == name
  {
    if k == |cols| then None else if cols[k] == name then Some(k) else IndexFrom(cols, name, k + 1)
  }

  /** `df[name]`'s position, or the KeyError pandas raises. */
  function Column(f: Frame, name: string): (r: Result<nat>)
    ensures r.Success? <==> name in f.cols
    ensures r.Success? ==> r.value < |f.cols| && f.cols[r.value] == name && IndexOf(f.cols, name) == Some(r.value)
    ensures r.Failure? ==> r.error == KeyError(name)
  {
    var k := IndexOf(f.cols, name);
    if k.None? then Failure(KeyError(name)) else Success(k.value)
  }

  /** The cells of column k, top to bottom. */
  function ColumnCells(rows: seq<Row>, k: nat): (c: seq<Cell>)
    ensures |c| == |rows| && forall i :: 0 <= i < |rows| ==> c[i] == At(rows[i], k)
  {
    seq(|rows|, i requires 0 <= i < |rows| => At(rows[i], k))
  }

  /** `df[name] = values`: replaces the column of that name, or appends a new one. */
  function SetColumn(f: Frame, name: string, values: seq<Cell>): (g: Frame)
    requires |values| == |f.rows|
    ensures |g.rows| == |f.rows|
    ensures name in f.cols ==> g.cols == f.cols
    ensures name !in f.cols ==> g.cols == f.cols + [name]
    ensures forall n :: n in g.cols <==> n in f.cols || n == name
    ensures forall i :: 0 <= i < |g.rows| ==> At(g.rows[i], IndexOf(g.cols, name).value) == values[i]
    ensures forall i, k :: 0 <= i < |g.rows| && 0 <= k < |f.cols| && f.cols[k] != name ==> g.rows[i][k] == f.rows[i][k]
  {
    var at := IndexOf(f.cols, name);
    if at.Some? then Overwritten(f, at.value, values) else Appended(f, name, values)
  }

  /** SetColumn on an existing column, at position k. */
  function Overwritten(f: Frame, k: nat, values: seq<Cell>): (g: Frame)
    requires |values| == |f.rows| && k < |f.cols|
    ensures g.cols == f.cols && |g.rows| == |f.rows|
    ensures forall i :: 0 <= i < |g.rows| ==> g.rows[i] == f.rows[i][k := values[i]]
  {
    Table(f.cols, seq(|f.rows|, i requires 0 <= i < |f.rows| => f.rows[i][k := values[i]]))
  }

  /** SetColumn on a new column, added last. */
  function Appended(f: Frame, name: string, values: seq<Cell>): (g: Frame)
    requires |values| == |f.rows| && name !in f.cols
    ensures g.cols == f.cols + [name] && |g.rows| == |f.rows|
    ensures IndexOf(g.cols, name) == Some(|f.cols|)
    ensures forall i :: 0 <= i < |g.rows| ==> g.rows[i] == f.rows[i] + [values[i]]
  {
    assert IndexOf(f.cols + [name], name) == Some(|f.cols|) by {
      assert (f.cols + [name])[..|f.cols|] == f.cols;
    }
    Table(f.cols + [name], seq(|f.rows|, i requires 0 <= i < |f.rows| => f.rows[i] + [values[i]]))
  }

  /** `df[dst] = df[src].apply(g)`: KeyError for a missing source column, else the first
      failure of g down the column, else the frame with column dst set to the results. */
  function ApplyColumn(f: Frame, src: string, dst: string, g: Cell -> Result<Cell>): (r: Result<Frame>)
    ensures src !in f.cols ==> r == Failure(KeyError(src))
    ensures src in f.cols ==> var k := IndexOf(f.cols, src).value;
      && (r.Success? <==> forall i :: 0 <= i < |f.rows| ==> g(At(f.rows[i], k)).Success?)
      && (r.Failure? ==> exists i :: 0 <= i < |f.rows| && g(At(f.rows[i], k)) == Failure(r.error)
                            && forall j :: 0 <= j < i ==> g(At(f.rows[j], k)).Success?)
    ensures r.Success? ==> |r.value.rows| == |f.rows|
    ensures r.Success? ==> r.value.cols == if dst in f.cols then f.cols else f.cols + [dst]
    ensures r.Success? ==> forall i :: 0 <= i < |f.rows| ==>
      At(r.value.rows[i], IndexOf(r.value.cols, dst).value) == g(At(f.rows[i], IndexOf(f.cols, src).value)).value
    ensures r.Success? ==> forall i, j :: 0 <= i < |f.rows| && 0 <= j < |f.cols| && f.cols[j] != dst ==>
      r.value.rows[i][j] == f.rows[i][j]
  {
    var k :- Column(f, src);
    var values :- MapRows(f.rows, row => g(At(row, k)));
    Success(SetColumn(f, dst, values))
  }

  /** `series.apply(g)` over the rows: the values in row order, or the first failure. */
  function MapRows(rows: seq<Row>, g: Row -> Result<Cell>): (r: Result<seq<Cell>>)
    ensures r.Success? <==> forall i :: 0 <= i < |rows| ==> g(rows[i]).Success?
    ensures r.Success? ==> |r.value| == |rows| && forall i :: 0 <= i < |rows| ==> r.value[i] == g(rows[i]).value
    ensures r.Failure? ==> exists i :: 0 <= i < |rows| && g(rows[i]) == Failure(r.error)
                             && forall j :: 0 <= j < i ==> g(rows[j]).Success?
  {
    if rows == [] then Success([])
    else
      var first := g(rows[0]);
      if first.Failure? then Failure(first.error)
      else
        var rest := MapRows(rows[1..], g);
        if rest.Failure? then
          assert forall j :: 1 <= j < |rows| ==> rows[j] == rows[1..][j - 1];
          Failure(rest.error)
        else
          assert forall j :: 1 <= j < |rows| ==> rows[j] == rows[1..][j - 1];
          Success([first.value] + rest.value)
  }

  /** `df.rename(columns=m)`: columns named in m take their new names. */
  function Rename(f: Frame, m: map<string, string>): (g: Frame)
    ensures g.rows == f.rows && |g.cols| == |f.cols|
    ensures forall k :: 0 <= k < |f.cols| ==> g.cols[k] == (if f.cols[k] in m then m[f.cols[k]] else f.cols[k])
  {
    Table(seq(|f.cols|, k requires 0 <= k < |f.cols| => if f.cols[k] in m then m[f.cols[k]] else f.cols[k]), f.rows)
  }

  /** The cells of one row at the given positions. */
  function Pick(r: Row, ks: seq<nat>): (p: Row)
    ensures |p| == |ks| && forall j :: 0 <= j < |ks| ==> p[j] == At(r, ks[j])
  {
    seq(|ks|, j requires 0 <= j < |ks| => At(r, ks[j]))
  }

  /** Positions of the named columns, or the KeyError for the first one absent. */
  function Positions(cols: seq<string>, names: seq<string>): (r: Result<seq<nat>>)
    ensures r.Success? <==> forall j :: 0 <= j < |names| ==> names[j] in cols
    ensures r.Success? ==> |r.value| == |names|
    ensures r.Success? ==> forall j :: 0 <= j < |names| ==>
      r.value[j] < |cols| && cols[r.value[j]] == names[j] && IndexOf(cols, names[j]) == Some(r.value[j])
    ensures r.Failure? ==> exists j :: 0 <= j < |names| && names[j] !in cols && r.error == KeyError(names[j])
  {
    if names == [] then Success([])
    else
      var k := IndexOf(cols, names[0]);
      if k.None? then Failure(KeyError(names[0]))
      else
        var rest := Positions(cols, names[1..]);
        if rest.Failure? then Failure(rest.error)
        else
          assert forall j :: 1 <= j < |names| ==> names[j] == names[1..][j - 1];
          Success([k.value] + rest.value)
  }

  lemma PositionsPair(cols: seq<string>, a: string, b: string, i: nat, j: nat)
    requires IndexOf(cols, a) == Some(i) && IndexOf(cols, b) == Some(j)
    ensures Positions(cols, [a, b]) == Success([i, j])
  {
    assert [b][0] == b && [b][1..] == [] && [j] + [] == [j];
    assert Positions(cols, []) == Success([]);
    assert Positions(cols, [b]) == Success([j]);
    assert [a, b][0] == a && [a, b][1..] == [b] && [i] + [j] == [i, j];
  }

  /** Each row cut down to the given positions. */
  function Project(rows: seq<Row>, ks: seq<nat>): (p: seq<Row>)
    ensures |p| == |rows|
  {
    if rows == [] then [] else [Pick(rows[0], ks)] + Project(rows[1..], ks)
  }

  lemma {:induction false} ProjectAt(rows: seq<Row>, ks: seq<nat>)
    ensures forall i :: 0 <= i < |rows| ==> Project(rows, ks)[i] == Pick(rows[i], ks)
  {
    if rows != [] {
      ProjectAt(rows[1..], ks);
    }
  }

  lemma {:induction false} ProjectConcat(u: seq<Row>, v: seq<Row>, ks: seq<nat>)
    ensures Project(u + v, ks) == Project(u, ks) + Project(v, ks)
  {
    if u != [] {
      ProjectConcat(u[1..], v, ks);
      assert (u + v)[1..] == u[1..] + v;
    } else {
      assert u + v == v;
    }
  }

  lemma ProjectRemove(b: seq<Row>, j: nat, ks: seq<nat>)
    requires j < |b|
    ensures multiset(Project(b, ks)) == multiset(Project(b[..j] + b[j + 1..], ks)) + multiset{Pick(b[j], ks)}
  {
    assert b == b[..j] + ([b[j]] + b[j + 1..]);
    ProjectConcat(b[..j], [b[j]] + b[j + 1..], ks);
    ProjectConcat([b[j]], b[j + 1..], ks);
    ProjectConcat(b[..j], b[j + 1..], ks);
  }

  lemma PermRest(a: seq<Row>, b: seq<Row>, j: nat)
    requires a != [] && j < |b| && b[j] == a[0] && multiset(a) == multiset(b)
    ensures multiset(a[1..]) == multiset(b[..j] + b[j + 1..])
  {
    assert b == b[..j] + [b[j]] + b[j + 1..];
    assert multiset(b[..j] + b[j + 1..]) == multiset(b) - multiset{b[j]};
    assert a == [a[0]] + a[1..];
    assert multiset(a[1..]) == multiset(a) - multiset{a[0]};
  }

  /** Projecting two permutations of the same rows gives permutations of each other. */
  lemma {:induction false} ProjectPerm(a: seq<Row>, b: seq<Row>, ks: seq<nat>)
    requires multiset(a) == multiset(b)
    ensures multiset(Project(a, ks)) == multiset(Project(b, ks))
  {
    if a != [] {
      assert a[0] in multiset(b);
      var j :| 0 <= j < |b| && b[j] == a[0];
      PermRest(a, b, j);
      ProjectPerm(a[1..], b[..j] + b[j + 1..], ks);
      ProjectRemove(b, j, ks);
    }
  }

  /** `df[names]`: those columns in that order, or KeyError. */
  function Select(f: Frame, names: seq<string>): (r: Result<Frame>)
    ensures r.Success? <==> forall j :: 0 <= j < |names| ==> names[j] in f.cols
    ensures r.Success? ==> r.value.cols == names && |r.value.rows| == |f.rows|
    ensures r.Success? ==> r.value.rows == Project(f.rows, Positions(f.cols, names).value)
    ensures r.Success? ==> forall i, j :: 0 <= i < |f.rows| && 0 <= j < |names| ==>
      r.value.rows[i][j] == f.rows[i][IndexOf(f.cols, names[j]).value]
    ensures r.Failure? ==> exists j :: 0 <= j < |names| && names[j] !in f.cols && r.error == KeyError(names[j])
  {
    var ks :- Positions(f.cols, names);
    var rows := Project(f.rows, ks);
    ProjectAt(f.rows, ks);
    assert forall r | r in rows :: |r| == |names|;
    assert forall i, j :: 0 <= i < |f.rows| && 0 <= j < |names| ==> rows[i][j] == f.rows[i][ks[j]] by {
      forall i, j | 0 <= i < |f.rows| && 0 <= j < |names| ensures rows[i][j] == f.rows[i][ks[j]] {
        assert f.rows[i] in f.rows;
      }
    }
    Success(Table(names, rows))
  }

  /** A selection succeeds only if every name it asks for is a column. */
  lemma SelectedFrom(f: Frame, names: seq<string>, name: string)
    requires Select(f, names).Success? && name in names
    ensures name in f.cols
  {
    var j :| 0 <= j < |names| && names[j] == name;
  }

  /** Selecting b from a selection of a is selecting b: `df[a][b] == df[b]`. */
  lemma SelectTwice(f: Frame, a: seq<string>, b: seq<string>)
    requires Select(f, a).Success?
    requires forall j :: 0 <= j < |b| ==> b[j] in a
    ensures Select(Select(f, a).value, b) == Select(f, b)
  {
    var g := Select(f, a).value;
    var x := Select(g, b).value;
    var y := Select(f, b).value;
    forall i | 0 <= i < |f.rows| ensures x.rows[i] == y.rows[i] {
      SelectTwiceRow(f, a, b, i);
    }
    assert x.rows == y.rows;
  }

  lemma SelectTwiceRow(f: Frame, a: seq<string>, b: seq<string>, i: nat)
    requires Select(f, a).Success? && i < |f.rows|
    requires forall j :: 0 <= j < |b| ==> b[j] in a
    ensures Select(f, b).Success? && Select(Select(f, a).value, b).Success?
    ensures Select(Select(f, a).value, b).value.rows[i] == Select(f, b).value.rows[i]
  {
    var g := Select(f, a).value;
    var x := Select(g, b).value;
    var y := Select(f, b).value;
    assert x.rows[i] in x.rows && y.rows[i] in y.rows;
    forall j | 0 <= j < |b| ensures x.rows[i][j] == y.rows[i][j] {
      var k := IndexOf(a, b[j]).value;
      assert x.rows[i][j] == g.rows[i][k];
      assert g.rows[i][k] == f.rows[i][IndexOf(f.cols, a[k]).value];
    }
  }

  /** `list.remove(name)`: drops the first occurrence. Putting name back where the first
      occurrence was gives the list again, no earlier element is name, and one name
      fewer remains. */
  function RemoveFirst(names: seq<string>, name: string): (r: seq<string>)
    requires name in names
    ensures |r| == |names| - 1
    ensures var k := IndexOf(names, name).value; r[..k] + [name] + r[k..] == names && name !in r[..k]
    ensures multiset(r) + multiset{name} == multiset(names)
  {
    var k := IndexOf(names, name).value;
    var r := names[..k] + names[k + 1..];
    assert r[..k] == names[..k] && r[k..] == names[k + 1..];
    assert names == names[..k] + [name] + names[k + 1..];
    IndexOfFirstOnly(names, name);
    r
  }

  /** Removing name from pre + [name] + post, where pre does not hold it, leaves pre + post. */
  lemma RemoveFirstSplit(pre: seq<string>, name: string, post: seq<string>)
    requires name !in pre
    ensures RemoveFirst(pre + [name] + post, name) == pre + post
  {
    var names := pre + [name] + post;
    IndexOfFirst(pre, name, post);
    var r := RemoveFirst(names, name);
    var k := |pre|;
    assert r[..k] + [name] + r[k..] == names;
    assert names[..k] == pre && names[k + 1..] == post;
    assert r[..k] == pre && r[k..] == post;
    assert r == r[..k] + r[k..];
  }

  /** `cols.remove(name); df[[name] + cols]`: the column moved to the front. */
  function MoveToFront(f: Frame, name: string): (r: Result<Frame>)
    ensures r.Success? <==> name in f.cols
    ensures r.Failure? ==> r.error == ValueError("list.remove(x): x not in list")
    ensures r.Success? ==> r.value.cols == [name] + RemoveFirst(f.cols, name) && |r.value.rows| == |f.rows|
    ensures r.Success? ==> forall n :: n in r.value.cols <==> n in f.cols
  {
    if name !in f.cols then Failure(ValueError("list.remove(x): x not in list"))
    else
      var rest := RemoveFirst(f.cols, name);
      Select(f, [name] + rest)
  }

  /** `df.fillna(v)`: every NaN cell becomes the text v. */
  function FillNa(f: Frame, v: string): (g: Frame)
    ensures g.cols == f.cols && |g.rows| == |f.rows|
    ensures forall i, k :: 0 <= i < |f.rows| && 0 <= k < |f.cols| ==>
      g.rows[i][k] == (if f.rows[i][k] == Missing then Text(v) else f.rows[i][k])
    ensures forall i, k :: 0 <= i < |g.rows| && 0 <= k < |g.cols| ==> g.rows[i][k] != Missing
  {
    var rows := seq(|f.rows|, i requires 0 <= i < |f.rows| =>
      seq(|f.rows[i]|, k requires 0 <= k < |f.rows[i]| => if f.rows[i][k] == Missing then Text(v) else f.rows[i][k]));
    assert forall r | r in rows :: |r| == |f.cols|;
    Table(f.cols, rows)
  }

  /** The rows whose cell k equals v, in their order. */
  function Where(rows: seq<Row>, k: nat, v: Cell): (w: seq<Row>)
    ensures forall r | r in w :: r in rows && At(r, k) == v
    ensures forall r | r in rows && At(r, k) == v :: r in w
    ensures |w| <= |rows|
  {
    if rows == [] then []
    else (if At(rows[0], k) == v then [rows[0]] else []) + Where(rows[1..], k, v)
  }

  /** Where keeps multiplicities: each row that passes appears as often as in the input. */
  lemma {:induction false} WhereCount(rows: seq<Row>, k: nat, v: Cell, r: Row)
    ensures multiset(Where(rows, k, v))[r] == if At(r, k) == v then multiset(rows)[r] else 0
  {
    if rows != [] {
      WhereCount(rows[1..], k, v, r);
      var head := if At(rows[0], k) == v then [rows[0]] else [];
      assert multiset(Where(rows, k, v)) == multiset(head) + multiset(Where(rows[1..], k, v));
      assert rows == [rows[0]] + rows[1..];
      assert multiset(rows) == multiset{rows[0]} + multiset(rows[1..]);
    }
  }

  /** `df.loc[df[name] == v]`. */
  function WhereEq(f: Frame, name: string, v: Cell): (r: Result<Frame>)
    ensures r.Success? <==> name in f.cols
    ensures r.Success? ==> r.value.cols == f.cols && r.value.rows == Where(f.rows, IndexOf(f.cols, name).value, v)
  {
    var k :- Column(f, name);
    PickedRows(f, Where(f.rows, k, v));
    Success(Table(f.cols, Where(f.rows, k, v)))
  }

  // ---------------------------------------------------------------------------
  // pd.concat
  // ---------------------------------------------------------------------------

  /** The column union in order of first appearance. */
  function UnionCols(a: seq<string>, b: seq<string>): (u: seq<string>)
    ensures |u| >= |a| && u[..|a|] == a
    ensures forall c :: c in u <==> c in a || c in b
    decreases |b|
  {
    if b == [] then a
    else if b[0] in a then UnionCols(a, b[1..])
    else
      var u := UnionCols(a + [b[0]], b[1..]);
      assert u[..|a|] == u[..|a| + 1][..|a|];
      u
  }

  /** A row of `from` columns laid out under `to` columns, NaN where it has none. */
  function Realign(r: Row, from: seq<string>, to: seq<string>): (p: Row)
    ensures |p| == |to|
    ensures forall j :: 0 <= j < |to| ==> p[j] == if to[j] in from then At(r, IndexOf(from, to[j]).value) else Missing
  {
    seq(|to|, j requires 0 <= j < |to| => var k := IndexOf(from, to[j]); if k.None? then Missing else At(r, k.value))
  }

  /** `pd.concat([a, b])`: rows of a then rows of b, under the union of their columns. */
  function Concat(a: Frame, b: Frame): (c: Frame)
    ensures a.cols == b.cols ==> c == Table(a.cols, a.rows + b.rows)
    ensures |c.rows| == |a.rows| + |b.rows|
    ensures forall n :: n in c.cols <==> n in a.cols || n in b.cols
  {
    if a.cols == b.cols then
      assert forall r | r in a.rows + b.rows :: |r| == |a.cols|;
      Table(a.cols, a.rows + b.rows)
    else
      var cols := UnionCols(a.cols, b.cols);
      var rows := seq(|a.rows|, i requires 0 <= i < |a.rows| => Realign(a.rows[i], a.cols, cols))
                + seq(|b.rows|, i requires 0 <= i < |b.rows| => Realign(b.rows[i], b.cols, cols));
      assert forall r | r in rows :: |r| == |cols|;
      Table(cols, rows)
  }

  /** A column both frames have keeps each row's cell through `pd.concat`. */
  lemma ConcatCell(a: Frame, b: Frame, name: string)
    requires name in a.cols && name in b.cols
    ensures name in Concat(a, b).cols
    ensures var c := Concat(a, b); forall i :: 0 <= i < |c.rows| ==>
      At(c.rows[i], IndexOf(c.cols, name).value)
        == if i < |a.rows| then At(a.rows[i], IndexOf(a.cols, name).value) else At(b.rows[i - |a.rows|], IndexOf(b.cols, name).value)
  {
    var c := Concat(a, b);
    if a.cols == b.cols {
      assert c.rows == a.rows + b.rows;
    } else {
      ConcatCellRealigned(a, b, name);
    }
  }

  lemma ConcatCellRealigned(a: Frame, b: Frame, name: string)
    requires name in a.cols && name in b.cols && a.cols != b.cols
    ensures name in Concat(a, b).cols
    ensures var c := Concat(a, b); forall i :: 0 <= i < |c.rows| ==>
      At(c.rows[i], IndexOf(c.cols, name).value)
        == if i < |a.rows| then At(a.rows[i], IndexOf(a.cols, name).value) else At(b.rows[i - |a.rows|], IndexOf(b.cols, name).value)
  {
    var c := Concat(a, b);
    var cols := UnionCols(a.cols, b.cols);
    forall i | 0 <= i < |c.rows|
      ensures At(c.rows[i], IndexOf(cols, name).value)
        == if i < |a.rows| then At(a.rows[i], IndexOf(a.cols, name).value) else At(b.rows[i - |a.rows|], IndexOf(b.cols, name).value)
    {
      ConcatRow(a, b, i);
      if i < |a.rows| {
        RealignCell(a.rows[i], a.cols, cols, name);
      } else {
        RealignCell(b.rows[i - |a.rows|], b.cols, cols, name);
      }
    }
  }

  /** Row i of a concatenation with differing columns is a realigned row of a or of b. */
  lemma ConcatRow(a: Frame, b: Frame, i: nat)
    requires a.cols != b.cols && i < |a.rows| + |b.rows|
    ensures Concat(a, b).cols == UnionCols(a.cols, b.cols)
    ensures Concat(a, b).rows[i] == if i < |a.rows| then Realign(a.rows[i], a.cols, UnionCols(a.cols, b.cols))
                                    else Realign(b.rows[i - |a.rows|], b.cols, UnionCols(a.cols, b.cols))
  {
  }

  /** No column before the one found has the name. */
  lemma {:induction false} IndexFromFirst(cols: seq<string>, name: string, k: nat)
    requires k <= |cols|
    decreases |cols| - k
    ensures var r := IndexFrom(cols, name, k); r.Some? ==> forall j :: k <= j < r.value ==> cols[j] != name
  {
    if k < |cols| && cols[k] != name {
      IndexFromFirst(cols, name, k + 1);
    }
  }

  /** The search from k finds position p when the name is at p and not between k and p. */
  lemma {:induction false} IndexFromAt(cols: seq<string>, name: string, k: nat, p: nat)
    requires k <= p < |cols| && cols[p] == name
    requires forall j :: k <= j < p ==> cols[j] != name
    decreases p - k
    ensures IndexFrom(cols, name, k) == Some(p)
  {
    if k < p {
      IndexFromAt(cols, name, k + 1, p);
    }
  }

  /** A name at position k that does not occur before k is found at k. */
  lemma IndexOfAt(cols: seq<string>, k: nat, name: string)
    requires k < |cols| && cols[k] == name && name !in cols[..k]
    ensures IndexOf(cols, name) == Some(k)
  {
    forall j | 0 <= j < k ensures cols[j] != name {
      assert cols[j] == cols[..k][j];
    }
    IndexFromAt(cols, name, 0, k);
  }

  /** The name found is not in the columns before it. */
  lemma IndexOfFirstOnly(cols: seq<string>, name: string)
    requires name in cols
    ensures name !in cols[..IndexOf(cols, name).value]
  {
    IndexFromFirst(cols, name, 0);
  }

  /** Appending a column does not move the first column of an existing name. */
  lemma IndexOfAppend(cols: seq<string>, extra: string, name: string)
    requires name in cols
    ensures IndexOf(cols + [extra], name) == IndexOf(cols, name)
  {
    var k := IndexOf(cols, name).value;
    IndexOfFirstOnly(cols, name);
    assert (cols + [extra])[..k] == cols[..k];
    IndexOfAt(cols + [extra], k, name);
  }

  /** The first occurrence of a name is found after a prefix that lacks it. */
  lemma IndexOfFirst(pre: seq<string>, name: string, post: seq<string>)
    requires name !in pre
    ensures IndexOf(pre + [name] + post, name) == Some(|pre|)
  {
    var cols := pre + [name] + post;
    assert cols[..|pre|] == pre;
    IndexOfAt(cols, |pre|, name);
  }

  /** Renaming other columns, to names other than this one, leaves its position alone. */
  lemma {:induction false} IndexFromMapped(cols: seq<string>, renamed: seq<string>, name: string, k: nat)
    requires |renamed| == |cols| && k <= |cols|
    requires forall j :: 0 <= j < |cols| ==> (renamed[j] == name <==> cols[j] == name)
    decreases |cols| - k
    ensures IndexFrom(renamed, name, k) == IndexFrom(cols, name, k)
  {
    if k < |cols| {
      IndexFromMapped(cols, renamed, name, k + 1);
    }
  }

  lemma IndexOfMapped(cols: seq<string>, renamed: seq<string>, name: string)
    requires |renamed| == |cols|
    requires forall k :: 0 <= k < |cols| ==> (renamed[k] == name <==> cols[k] == name)
    ensures IndexOf(renamed, name) == IndexOf(cols, name)
  {
    IndexFromMapped(cols, renamed, name, 0);
  }

  lemma RealignCell(r: Row, from: seq<string>, to: seq<string>, name: string)
    requires name in from && name in to
    ensures At(Realign(r, from, to), IndexOf(to, name).value) == At(r, IndexOf(from, name).value)
  {
  }

  function Flatten(tables: seq<Frame>): seq<Row>
  {
    if tables == [] then [] else Flatten(tables[..|tables| - 1]) + tables[|tables| - 1].rows
  }

  /** `pd.concat(frames)`: ValueError for an empty list. */
  function ConcatAll(frames: seq<Frame>): (r: Result<Frame>)
    ensures r.Success? <==> frames != []
    ensures r.Failure? ==> r.error == ValueError("No objects to concatenate")
  {
    if frames == [] then Failure(ValueError("No objects to concatenate"))
    else if |frames| == 1 then Success(frames[0])
    else
      var init :- ConcatAll(frames[..|frames| - 1]);
      Success(Concat(init, frames[|frames| - 1]))
  }

  /** Frames that share one column list concatenate to their rows one after another. */
  lemma {:induction false} ConcatAllSameCols(frames: seq<Frame>, cols: seq<string>)
    requires frames != []
    requires forall j :: 0 <= j < |frames| ==> frames[j].cols == cols
    ensures ConcatAll(frames) == Success(Table(cols, Flatten(frames)))
  {
    if |frames| == 1 {
      assert frames[..0] == [];
      assert Flatten(frames) == Flatten([]) + frames[0].rows;
      assert frames[0] == Table(cols, frames[0].rows);
      assert ConcatAll(frames) == Success(frames[0]);
      assert Flatten(frames) == frames[0].rows;
    } else {
      var init := frames[..|frames| - 1];
      ConcatAllSameCols(init, cols);
    }
  }
}
