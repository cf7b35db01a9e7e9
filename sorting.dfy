/** `df.sort_values(by=[...])` on two or more columns: the rows reordered so that the key
    columns ascend. pandas sorts on several keys with a stable lexicographic sort, so rows
    whose keys tie keep their input order: the result is sorted, a permutation of the
    input, and stable. */
module Sorting {
  import opened Results
  import opened Strings
  import opened Frames

  /** The order pandas' multi-key sort gives mixed key values: numbers first, then strings,
      with NaN last. */
  function Rank(c: Cell): nat
  {
    match c
    case Int(_) => 0
    case Float(_, _) => 0
    case Text(_) => 1
    case Missing => 2
  }

  /** The order of two cells of one sort column. */
  predicate CellLeq(a: Cell, b: Cell)
  {
    if Rank(a) != Rank(b) then Rank(a) < Rank(b)
    else if IsNumber(a) then NumValue(a) <= NumValue(b)
    else if a.Text? then LexLeq(a.s, b.s)
    else true
  }

  lemma CellLeqTotal(a: Cell, b: Cell)
    ensures CellLeq(a, b) || CellLeq(b, a)
  {
    if a.Text? && b.Text? { LexLeqTotal(a.s, b.s); }
  }

  lemma CellLeqTrans(a: Cell, b: Cell, c: Cell)
    requires CellLeq(a, b) && CellLeq(b, c)
    ensures CellLeq(a, c)
  {
    if a.Text? && b.Text? && c.Text? { LexLeqTrans(a.s, b.s, c.s); }
  }

  /** Lexicographic order on the key cells: the first key decides unless it ties. */
  predicate RowLeq(a: Row, b: Row, keys: seq<nat>)
  {
    keys == [] ||
    (CellLeq(At(a, keys[0]), At(b, keys[0])) &&
     (CellLeq(At(b, keys[0]), At(a, keys[0])) ==> RowLeq(a, b, keys[1..])))
  }

  lemma {:induction false} RowLeqTotal(a: Row, b: Row, keys: seq<nat>)
    ensures RowLeq(a, b, keys) || RowLeq(b, a, keys)
  {
    if keys != [] {
      CellLeqTotal(At(a, keys[0]), At(b, keys[0]));
      RowLeqTotal(a, b, keys[1..]);
    }
  }

  lemma {:induction false} RowLeqTrans(a: Row, b: Row, c: Row, keys: seq<nat>)
    requires RowLeq(a, b, keys) && RowLeq(b, c, keys)
    ensures RowLeq(a, c, keys)
  {
    if keys != [] {
      var x, y, z := At(a, keys[0]), At(b, keys[0]), At(c, keys[0]);
      CellLeqTrans(x, y, z);
      if CellLeq(z, x) {
        CellLeqTrans(z, x, y);
        CellLeqTrans(y, z, x);
        RowLeqTrans(a, b, c, keys[1..]);
      }
    }
  }

  predicate SortedBy(rows: seq<Row>, keys: seq<nat>)
  {
    forall i, j :: 0 <= i < j < |rows| ==> RowLeq(rows[i], rows[j], keys)
  }

  lemma SortedTail(s: seq<Row>, keys: seq<nat>)
    requires s != [] && SortedBy(s, keys)
    ensures SortedBy(s[1..], keys)
  {
    forall i, j | 0 <= i < j < |s[1..]| ensures RowLeq(s[1..][i], s[1..][j], keys) {
      assert s[1..][i] == s[i + 1] && s[1..][j] == s[j + 1];
    }
  }

  lemma SortedCons(h: Row, t: seq<Row>, keys: seq<nat>)
    requires SortedBy(t, keys) && forall i :: 0 <= i < |t| ==> RowLeq(h, t[i], keys)
    ensures SortedBy([h] + t, keys)
  {
    forall i, j | 0 <= i < j < |[h] + t| ensures RowLeq(([h] + t)[i], ([h] + t)[j], keys) {
      assert ([h] + t)[j] == t[j - 1];
      if i > 0 { assert ([h] + t)[i] == t[i - 1]; }
    }
  }

  /** A row that precedes the head of a sorted sequence precedes all of it. */
  lemma BelowHead(x: Row, s: seq<Row>, keys: seq<nat>)
    requires s != [] && SortedBy(s, keys) && RowLeq(x, s[0], keys)
    ensures forall i :: 0 <= i < |s| ==> RowLeq(x, s[i], keys)
  {
    forall i | 0 <= i < |s| ensures RowLeq(x, s[i], keys) {
      if i > 0 { RowLeqTrans(x, s[0], s[i], keys); }
    }
  }

  /** The head of a sorted s precedes every row of t when t holds the rest of s and a row
      x that the head precedes. */
  lemma HeadBelow(x: Row, s: seq<Row>, t: seq<Row>, keys: seq<nat>)
    requires s != [] && SortedBy(s, keys) && RowLeq(s[0], x, keys)
    requires multiset(t) == multiset(s[1..]) + multiset{x}
    ensures forall i :: 0 <= i < |t| ==> RowLeq(s[0], t[i], keys)
  {
    forall i | 0 <= i < |t| ensures RowLeq(s[0], t[i], keys) {
      var y := t[i];
      assert y in multiset(t);
      if y == x {
      } else {
        assert y in multiset(s[1..]);
        var j :| 0 <= j < |s[1..]| && s[1..][j] == y;
        assert s[j + 1] == y;
      }
    }
  }

  /** x placed after every row that precedes it: before the first row that strictly
      follows it. */
  function Insert(x: Row, s: seq<Row>, keys: seq<nat>): (r: seq<Row>)
    requires SortedBy(s, keys)
    ensures SortedBy(r, keys) && multiset(r) == multiset(s) + multiset{x}
  {
    if s == [] then [x]
    else if !RowLeq(s[0], x, keys) then
      RowLeqTotal(x, s[0], keys);
      BelowHead(x, s, keys);
      SortedCons(x, s, keys);
      [x] + s
    else
      SortedTail(s, keys);
      var t := Insert(x, s[1..], keys);
      HeadBelow(x, s, t, keys);
      SortedCons(s[0], t, keys);
      assert s == [s[0]] + s[1..];
      [s[0]] + t
  }

  /** The rows in key order: sorted, the same rows as often as before, and rows whose
      keys tie in their input order. */
  function SortRows(rows: seq<Row>, keys: seq<nat>): (r: seq<Row>)
    ensures SortedBy(r, keys) && multiset(r) == multiset(rows)
    ensures forall y :: Ties(r, y, keys) == Ties(rows, y, keys)
  {
    if rows == [] then []
    else
      var init, last := rows[..|rows| - 1], rows[|rows| - 1];
      assert rows == init + [last];
      var sorted := SortRows(init, keys);
      InsertStable(last, sorted, init, keys);
      Insert(last, sorted, keys)
  }

  /** a and b tie on the keys: each precedes the other. */
  predicate Tied(a: Row, b: Row, keys: seq<nat>)
  {
    RowLeq(a, b, keys) && RowLeq(b, a, keys)
  }

  /** The rows that tie with y, in their order. */
  function Ties(rows: seq<Row>, y: Row, keys: seq<nat>): seq<Row>
  {
    if rows == [] then [] else (if Tied(rows[0], y, keys) then [rows[0]] else []) + Ties(rows[1..], y, keys)
  }

  lemma {:induction false} TiesAppend(a: seq<Row>, b: seq<Row>, y: Row, keys: seq<nat>)
    ensures Ties(a + b, y, keys) == Ties(a, y, keys) + Ties(b, y, keys)
  {
    if a == [] {
      assert a + b == b;
    } else {
      assert (a + b)[0] == a[0] && (a + b)[1..] == a[1..] + b;
      TiesAppend(a[1..], b, y, keys);
    }
  }

  lemma {:induction false} TiesNone(s: seq<Row>, y: Row, keys: seq<nat>)
    requires forall i :: 0 <= i < |s| ==> !Tied(s[i], y, keys)
    ensures Ties(s, y, keys) == []
  {
    if s != [] {
      assert forall i :: 0 <= i < |s[1..]| ==> s[1..][i] == s[i + 1];
      TiesNone(s[1..], y, keys);
    }
  }

  /** No row of a sorted s ties with a row y that ties with x, when x strictly precedes
      the head of s. */
  lemma NoTiesAbove(x: Row, s: seq<Row>, y: Row, keys: seq<nat>)
    requires s != [] && SortedBy(s, keys) && !RowLeq(s[0], x, keys) && Tied(x, y, keys)
    ensures Ties(s, y, keys) == []
  {
    forall i | 0 <= i < |s| ensures !Tied(s[i], y, keys) {
      if Tied(s[i], y, keys) {
        RowLeqTrans(s[i], y, x, keys);
        if i > 0 { RowLeqTrans(s[0], s[i], x, keys); }
        assert false;
      }
    }
    TiesNone(s, y, keys);
  }

  /** Inserting x into a sorted s puts it after the rows of s it ties with. */
  lemma {:induction false} InsertTies(x: Row, s: seq<Row>, y: Row, keys: seq<nat>)
    requires SortedBy(s, keys)
    ensures Ties(Insert(x, s, keys), y, keys) == Ties(s, y, keys) + Ties([x], y, keys)
  {
    if s == [] {
      assert Insert(x, s, keys) == [x];
    } else if !RowLeq(s[0], x, keys) {
      InsertFirst(x, s, y, keys);
    } else {
      SortedTail(s, keys);
      InsertTies(x, s[1..], y, keys);
      InsertLater(x, s, y, keys);
    }
  }

  /** x goes first when it strictly precedes the head; nothing after it ties with it. */
  lemma InsertFirst(x: Row, s: seq<Row>, y: Row, keys: seq<nat>)
    requires s != [] && SortedBy(s, keys) && !RowLeq(s[0], x, keys)
    ensures Ties(Insert(x, s, keys), y, keys) == Ties(s, y, keys) + Ties([x], y, keys)
  {
    assert Insert(x, s, keys) == [x] + s;
    TiesAppend([x], s, y, keys);
    if Tied(x, y, keys) {
      NoTiesAbove(x, s, y, keys);
    } else {
      assert Ties([x], y, keys) == [];
    }
  }

  /** x goes past a head that precedes it: the head's ties come first. */
  lemma InsertLater(x: Row, s: seq<Row>, y: Row, keys: seq<nat>)
    requires s != [] && SortedBy(s, keys) && RowLeq(s[0], x, keys) && SortedBy(s[1..], keys)
    requires Ties(Insert(x, s[1..], keys), y, keys) == Ties(s[1..], y, keys) + Ties([x], y, keys)
    ensures Ties(Insert(x, s, keys), y, keys) == Ties(s, y, keys) + Ties([x], y, keys)
  {
    var t := Insert(x, s[1..], keys);
    var b := Ties([x], y, keys);
    InsertPast(x, s, keys);
    ConsTies(s[0], t, s[1..], b, y, keys);
    HeadTail(s);
  }

  lemma HeadTail(s: seq<Row>)
    requires s != []
    ensures [s[0]] + s[1..] == s
  {
  }

  lemma InsertPast(x: Row, s: seq<Row>, keys: seq<nat>)
    requires s != [] && SortedBy(s, keys) && RowLeq(s[0], x, keys) && SortedBy(s[1..], keys)
    ensures Insert(x, s, keys) == [s[0]] + Insert(x, s[1..], keys)
  {
  }

  /** Putting the same row before two sequences keeps a relation between their ties. */
  lemma ConsTies(h: Row, t: seq<Row>, u: seq<Row>, b: seq<Row>, y: Row, keys: seq<nat>)
    requires Ties(t, y, keys) == Ties(u, y, keys) + b
    ensures Ties([h] + t, y, keys) == Ties([h] + u, y, keys) + b
  {
    TiesAppend([h], t, y, keys);
    TiesAppend([h], u, y, keys);
    var p, q := Ties([h], y, keys), Ties(u, y, keys);
    assert p + (q + b) == (p + q) + b;
  }

  /** One insertion step of SortRows keeps the order of tied rows. */
  lemma InsertStable(x: Row, sorted: seq<Row>, init: seq<Row>, keys: seq<nat>)
    requires SortedBy(sorted, keys) && forall y :: Ties(sorted, y, keys) == Ties(init, y, keys)
    ensures forall y :: Ties(Insert(x, sorted, keys), y, keys) == Ties(init + [x], y, keys)
  {
    forall y ensures Ties(Insert(x, sorted, keys), y, keys) == Ties(init + [x], y, keys) {
      InsertTies(x, sorted, y, keys);
      TiesAppend(init, [x], y, keys);
    }
  }

  /** `df.sort_values(by=names)`, or KeyError: sorted, a permutation, and stable. */
  function SortValues(f: Frame, names: seq<string>): (r: Result<Frame>)
    ensures r.Success? <==> forall j :: 0 <= j < |names| ==> names[j] in f.cols
    ensures r.Success? ==> r.value.cols == f.cols && multiset(r.value.rows) == multiset(f.rows)
    ensures r.Success? ==> SortedBy(r.value.rows, Positions(f.cols, names).value)
    ensures r.Success? ==> forall y :: Ties(r.value.rows, y, Positions(f.cols, names).value)
                                    == Ties(f.rows, y, Positions(f.cols, names).value)
  {
    var ks :- Positions(f.cols, names);
    var rows := SortRows(f.rows, ks);
    assert forall x | x in rows :: x in f.rows by {
      forall x | x in rows ensures x in f.rows { assert x in multiset(rows); }
    }
    PickedRows(f, rows);
    Success(Table(f.cols, rows))
  }

  /** Picking columns keeps an order on keys that the picked columns carry. */
  lemma {:induction false} RowLeqPick(a: Row, b: Row, ks: seq<nat>, keys: seq<nat>, picked: seq<nat>)
    requires |picked| == |keys|
    requires forall j :: 0 <= j < |keys| ==> picked[j] < |ks| && ks[picked[j]] == keys[j]
    ensures RowLeq(Pick(a, ks), Pick(b, ks), picked) == RowLeq(a, b, keys)
  {
    if keys != [] {
      RowLeqPick(a, b, ks, keys[1..], picked[1..]);
    }
  }
}
