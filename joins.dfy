/** `pd.merge(left, right, how=..., left_on=a, right_on=b)` for the two kinds the
    scripts use: a left outer join and an inner join on one key column each side. */
module Joins {
  import opened Results
  import opened Strings
  import opened Frames

  datatype How = LeftJoin | InnerJoin

  /** The right-hand part pandas gives a left row that matched nothing: all NaN. */
  function Blanks(n: nat): (r: Row)
    ensures |r| == n && forall k :: 0 <= k < n ==> r[k] == Missing
  {
    seq(n, _ => Missing)
  }

  /** Each right row paired with l. */
  function Pair(l: Row, m: seq<Row>): (out: seq<Row>)
    ensures |out| == |m| && forall j :: 0 <= j < |m| ==> out[j] == l + m[j]
  {
    seq(|m|, j requires 0 <= j < |m| => l + m[j])
  }

  /** The output rows one left row produces: one per matching right row, in right order;
      a left row without a match is kept once, padded with NaN, by a left join only. */
  function JoinOne(l: Row, right: seq<Row>, lk: nat, rk: nat, how: How, width: nat): (out: seq<Row>)
    ensures var n := |Where(right, rk, At(l, lk))|;
      |out| == if n > 0 then n else if how == LeftJoin then 1 else 0
    ensures forall j :: 0 <= j < |out| ==> |out[j]| >= |l| && out[j][..|l|] == l
  {
    var m := Where(right, rk, At(l, lk));
    if m == [] then (if how == LeftJoin then [l + Blanks(width)] else []) else Pair(l, m)
  }

  /** All output rows: the left rows' outputs in left order; a left join keeps at least
      one row per left row. */
  function JoinRows(left: seq<Row>, right: seq<Row>, lk: nat, rk: nat, how: How, width: nat): (out: seq<Row>)
    ensures how == LeftJoin ==> |out| >= |left|
    ensures left == [] ==> out == []
  {
    if left == [] then [] else JoinOne(left[0], right, lk, rk, how, width) + JoinRows(left[1..], right, lk, rk, how, width)
  }

  /** Some left row matches no right row, so a left join pads it with NaN. */
  predicate Padded(left: seq<Row>, right: seq<Row>, lk: nat, rk: nat)
  {
    exists i :: 0 <= i < |left| && Where(right, rk, At(left[i], lk)) == []
  }

  /** An int64 column cannot hold NaN: pandas turns it into float64, so a Python int
      becomes the float of the same value. Other cells keep their type. */
  function Upcast(c: Cell): (d: Cell)
    ensures !d.Int? && (!c.Int? ==> d == c)
    ensures IsNumber(d) == IsNumber(c) && (IsNumber(c) ==> NumValue(d) == NumValue(c))
  {
    if c.Int? then Float(c.i, 0) else c
  }

  /** Row o with its cells from position w on upcast. */
  function UpcastFrom(o: Row, w: nat): (p: Row)
    ensures |p| == |o|
    ensures forall k :: 0 <= k < |o| ==> p[k] == if k < w then o[k] else Upcast(o[k])
  {
    seq(|o|, k requires 0 <= k < |o| => if k < w then o[k] else Upcast(o[k]))
  }

  /** The joined rows as pandas stores them: when on, every right-hand cell (position w
      and after) is upcast; otherwise the rows are as joined. */
  function Stored(rows: seq<Row>, w: nat, on: bool): (r: seq<Row>)
    ensures |r| == |rows|
    ensures !on ==> r == rows
    ensures forall i :: 0 <= i < |rows| ==> r[i] == if on then UpcastFrom(rows[i], w) else rows[i]
  {
    if on then seq(|rows|, i requires 0 <= i < |rows| => UpcastFrom(rows[i], w)) else rows
  }

  /** Names that occur on both sides get pandas' default suffix. */
  function Suffixed(cols: seq<string>, other: seq<string>, suffix: string): (r: seq<string>)
    ensures |r| == |cols|
    ensures forall k :: 0 <= k < |cols| ==> r[k] == if cols[k] in other then cols[k] + suffix else cols[k]
  {
    seq(|cols|, k requires 0 <= k < |cols| => if cols[k] in other then cols[k] + suffix else cols[k])
  }

  predicate Widths(rows: seq<Row>, w: nat)
  {
    forall i :: 0 <= i < |rows| ==> |rows[i]| == w
  }

  lemma JoinRowsWidth(left: seq<Row>, right: seq<Row>, lk: nat, rk: nat, how: How, w: nat, width: nat)
    requires Widths(left, w) && Widths(right, width)
    ensures Widths(JoinRows(left, right, lk, rk, how, width), w + width)
  {
    var rows := JoinRows(left, right, lk, rk, how, width);
    forall i | 0 <= i < |rows|
      ensures |rows[i]| == w + width
    {
      JoinShape(left, right, lk, rk, how, w, width, rows[i]);
    }
  }

  /** The merged frame, or the KeyError for a key column that is absent. */
  function Merge(l: Frame, r: Frame, leftOn: string, rightOn: string, how: How): (res: Result<Frame>)
    ensures res.Success? <==> leftOn in l.cols && rightOn in r.cols
    ensures res.Failure? ==> res.error == KeyError(if leftOn !in l.cols then leftOn else rightOn)
    ensures res.Success? ==> res.value == Joined(l, r, IndexOf(l.cols, leftOn).value, IndexOf(r.cols, rightOn).value, how)
  {
    if leftOn !in l.cols then Failure(KeyError(leftOn))
    else if rightOn !in r.cols then Failure(KeyError(rightOn))
    else Success(Joined(l, r, IndexOf(l.cols, leftOn).value, IndexOf(r.cols, rightOn).value, how))
  }

  /** The merge on key columns lk and rk: the left columns suffixed "_x" where the right
      frame has the same name, then the right columns suffixed "_y" likewise; the joined
      rows, one per left row at least in a left join, and with equal keys in an inner join.
      When a left join pads a row, the right frame's int cells come out as floats. */
  function Joined(l: Frame, r: Frame, lk: nat, rk: nat, how: How): (res: Frame)
    requires lk < |l.cols| && rk < |r.cols|
    ensures res.cols == Suffixed(l.cols, r.cols, "_x") + Suffixed(r.cols, l.cols, "_y")
    ensures res.rows == Stored(JoinRows(l.rows, r.rows, lk, rk, how, |r.cols|), |l.cols|,
                               how == LeftJoin && Padded(l.rows, r.rows, lk, rk))
    ensures how == LeftJoin ==> |res.rows| >= |l.rows|
  {
    var cols := Suffixed(l.cols, r.cols, "_x") + Suffixed(r.cols, l.cols, "_y");
    var joined := JoinRows(l.rows, r.rows, lk, rk, how, |r.cols|);
    var rows := Stored(joined, |l.cols|, how == LeftJoin && Padded(l.rows, r.rows, lk, rk));
    JoinRowsWidth(l.rows, r.rows, lk, rk, how, |l.cols|, |r.cols|);
    assert |cols| == |l.cols| + |r.cols|;
    assert forall i :: 0 <= i < |rows| ==> |rows[i]| == |joined[i]|;
    Table(cols, rows)
  }

  /** After a padded left join no right-hand cell is a Python int; without padding the
      right-hand cells are the matched right rows' own cells. */
  lemma PaddedJoinHasNoInts(l: Frame, r: Frame, lk: nat, rk: nat, i: nat, k: nat)
    requires lk < |l.cols| && rk < |r.cols|
    requires i < |Joined(l, r, lk, rk, LeftJoin).rows| && |l.cols| <= k < |l.cols| + |r.cols|
    ensures Padded(l.rows, r.rows, lk, rk) ==> !Joined(l, r, lk, rk, LeftJoin).rows[i][k].Int?
    ensures !Padded(l.rows, r.rows, lk, rk) ==>
      Joined(l, r, lk, rk, LeftJoin).rows[i] == JoinRows(l.rows, r.rows, lk, rk, LeftJoin, |r.cols|)[i]
  {
    var joined := JoinRows(l.rows, r.rows, lk, rk, LeftJoin, |r.cols|);
    JoinRowsWidth(l.rows, r.rows, lk, rk, LeftJoin, |l.cols|, |r.cols|);
    assert |joined[i]| == |l.cols| + |r.cols|;
  }

  // ---------------------------------------------------------------------------
  // What a join keeps
  // ---------------------------------------------------------------------------

  /** Joining a concatenation joins each part: output blocks follow the left order. */
  lemma {:induction false} JoinRowsAppend(a: seq<Row>, b: seq<Row>, right: seq<Row>, lk: nat, rk: nat, how: How, width: nat)
    ensures JoinRows(a + b, right, lk, rk, how, width) == JoinRows(a, right, lk, rk, how, width) + JoinRows(b, right, lk, rk, how, width)
  {
    if a == [] {
      assert a + b == b;
    } else {
      var ab := a + b;
      assert ab[0] == a[0] && ab[1..] == a[1..] + b;
      var one := JoinOne(a[0], right, lk, rk, how, width);
      var x, y := JoinRows(a[1..], right, lk, rk, how, width), JoinRows(b, right, lk, rk, how, width);
      JoinRowsAppend(a[1..], b, right, lk, rk, how, width);
      assert JoinRows(ab, right, lk, rk, how, width) == one + (x + y);
      assert JoinRows(a, right, lk, rk, how, width) == one + x;
      Associative(one, x, y);
    }
  }

  lemma Associative(p: seq<Row>, q: seq<Row>, s: seq<Row>)
    ensures p + (q + s) == (p + q) + s
  {
  }

  /** How often right row r is paired with left row l in the output. */
  function Times(l: Row, r: Row, right: seq<Row>, lk: nat, rk: nat, how: How, width: nat): nat
  {
    if Where(right, rk, At(l, lk)) != [] then (if At(r, rk) == At(l, lk) then multiset(right)[r] else 0)
    else if how == LeftJoin && r == Blanks(width) then 1
    else 0
  }

  lemma {:induction false} PairCount(l: Row, m: seq<Row>, x: Row, r: Row)
    requires |x| == |l|
    ensures multiset(Pair(x, m))[l + r] == if x == l then multiset(m)[r] else 0
  {
    if m != [] {
      PairCount(l, m[1..], x, r);
      assert Pair(x, m) == [x + m[0]] + Pair(x, m[1..]);
      HeadCount(m, r);
      SameSplit(x, m[0], l, r);
    }
  }

  /** Two rows whose left parts have the same width are equal exactly when both parts are. */
  lemma SameSplit(x: Row, y: Row, l: Row, r: Row)
    requires |x| == |l|
    ensures x + y == l + r <==> x == l && y == r
  {
    if x + y == l + r {
      assert x == (x + y)[..|l|] == (l + r)[..|l|] == l;
      assert y == (x + y)[|l|..] == (l + r)[|l|..] == r;
    }
  }

  /** What one left row x contributes to the count of l + r. */
  lemma JoinOneCount(x: Row, right: seq<Row>, lk: nat, rk: nat, how: How, width: nat, l: Row, r: Row)
    requires |x| == |l|
    ensures multiset(JoinOne(x, right, lk, rk, how, width))[l + r]
         == if x == l then Times(l, r, right, lk, rk, how, width) else 0
  {
    var w := |l|;
    var m := Where(right, rk, At(x, lk));
    if m == [] {
      if how == LeftJoin {
        assert JoinOne(x, right, lk, rk, how, width) == [x + Blanks(width)];
        if x + Blanks(width) == l + r {
          assert x == (x + Blanks(width))[..w] == (l + r)[..w] == l;
          assert Blanks(width) == (x + Blanks(width))[w..] == (l + r)[w..] == r;
        }
      }
    } else {
      PairCount(l, m, x, r);
      WhereCount(right, rk, At(x, lk), r);
    }
  }

  /** Multiplicity: each output row l + r occurs (occurrences of l on the left) times
      (occurrences of r among the right rows with l's key); a left row with no match
      occurs once, NaN-padded, in a left join and not at all in an inner join. */
  lemma {:induction false} JoinCount(left: seq<Row>, right: seq<Row>, lk: nat, rk: nat, how: How,
                                     w: nat, width: nat, l: Row, r: Row)
    requires Widths(left, w) && |l| == w
    ensures multiset(JoinRows(left, right, lk, rk, how, width))[l + r]
         == multiset(left)[l] * Times(l, r, right, lk, rk, how, width)
  {
    if left != [] {
      var x := left[0];
      var t := Times(l, r, right, lk, rk, how, width);
      var one := JoinOne(x, right, lk, rk, how, width);
      var rest := JoinRows(left[1..], right, lk, rk, how, width);
      WidthsTail(left, w);
      JoinCount(left[1..], right, lk, rk, how, w, width, l, r);
      JoinOneCount(x, right, lk, rk, how, width, l, r);
      assert JoinRows(left, right, lk, rk, how, width) == one + rest;
      HeadCount(left, l);
      SumCount(one, rest, l + r, if x == l then 1 else 0, multiset(left[1..])[l], t);
    }
  }

  lemma WidthsTail(rows: seq<Row>, w: nat)
    requires rows != [] && Widths(rows, w)
    ensures |rows[0]| == w && Widths(rows[1..], w)
  {
    forall i | 0 <= i < |rows[1..]| ensures |rows[1..][i]| == w {
      assert rows[1..][i] == rows[i + 1];
    }
  }

  lemma HeadCount(s: seq<Row>, x: Row)
    requires s != []
    ensures multiset(s)[x] == (if s[0] == x then 1 else 0) + multiset(s[1..])[x]
  {
    assert s == [s[0]] + s[1..];
  }

  lemma SumCount(one: seq<Row>, rest: seq<Row>, o: Row, here: nat, before: nat, t: nat)
    requires multiset(one)[o] == here * t && multiset(rest)[o] == before * t
    ensures multiset(one + rest)[o] == (here + before) * t
  {
    Distribute(here, before, t);
  }

  lemma Distribute(a: nat, b: nat, c: nat)
    ensures a * c + b * c == (a + b) * c
  {
  }

  /** The left part of every output row is a left row; its right part is a right row with
      the same key, or (left join only) all NaN when that left row matched nothing. */
  lemma {:induction false} JoinShape(left: seq<Row>, right: seq<Row>, lk: nat, rk: nat, how: How,
                                     w: nat, width: nat, o: Row)
    requires Widths(left, w) && Widths(right, width)
    requires o in JoinRows(left, right, lk, rk, how, width)
    ensures |o| == w + width && o[..w] in left
    ensures || (o[w..] in right && At(o[w..], rk) == At(o[..w], lk))
            || (how == LeftJoin && o[w..] == Blanks(width) && Where(right, rk, At(o[..w], lk)) == [])
  {
    var x := left[0];
    var one := JoinOne(x, right, lk, rk, how, width);
    var m := Where(right, rk, At(x, lk));
    if o in one {
      assert |x| == w;
      if m == [] {
        assert o == x + Blanks(width);
        assert o[..w] == x && o[w..] == Blanks(width);
      } else {
        var j :| 0 <= j < |m| && o == x + m[j];
        assert m[j] in m;
        assert o[..w] == x && o[w..] == m[j];
      }
    } else {
      JoinShape(left[1..], right, lk, rk, how, w, width, o);
    }
  }

  /** In an inner join the two key cells of every output row are equal. */
  lemma InnerJoinKeysEqual(left: seq<Row>, right: seq<Row>, lk: nat, rk: nat, w: nat, width: nat, o: Row)
    requires Widths(left, w) && Widths(right, width) && lk < w && rk < width
    requires o in JoinRows(left, right, lk, rk, InnerJoin, width)
    ensures |o| == w + width && o[lk] == o[w + rk]
  {
    JoinShape(left, right, lk, rk, InnerJoin, w, width, o);
  }

  /** In an inner merge the two key cells of every output row are equal. */
  lemma JoinedKeys(l: Frame, r: Frame, lk: nat, rk: nat)
    requires lk < |l.cols| && rk < |r.cols|
    ensures forall i :: 0 <= i < |Joined(l, r, lk, rk, InnerJoin).rows| ==>
      KeysAgree(Joined(l, r, lk, rk, InnerJoin).rows[i], lk, |l.cols| + rk)
  {
    assert Widths(l.rows, |l.cols|) && Widths(r.rows, |r.cols|);
    InnerJoinAllKeys(l.rows, r.rows, lk, rk, |l.cols|, |r.cols|);
    assert Joined(l, r, lk, rk, InnerJoin).rows == JoinRows(l.rows, r.rows, lk, rk, InnerJoin, |r.cols|);
  }

  /** The same for a merge on key column names. */
  lemma InnerMergeKeys(l: Frame, r: Frame, leftOn: string, rightOn: string)
    requires leftOn in l.cols && rightOn in r.cols
    ensures forall i :: 0 <= i < |Merge(l, r, leftOn, rightOn, InnerJoin).value.rows| ==>
      KeysAgree(Merge(l, r, leftOn, rightOn, InnerJoin).value.rows[i], IndexOf(l.cols, leftOn).value, |l.cols| + IndexOf(r.cols, rightOn).value)
  {
    var lk, rk := IndexOf(l.cols, leftOn).value, IndexOf(r.cols, rightOn).value;
    assert Merge(l, r, leftOn, rightOn, InnerJoin).value == Joined(l, r, lk, rk, InnerJoin);
    JoinedKeys(l, r, lk, rk);
  }

  /** Row o holds the same cell at positions a and b. */
  predicate KeysAgree(o: Row, a: nat, b: nat)
  {
    a < |o| && b < |o| && o[a] == o[b]
  }

  lemma InnerJoinAllKeys(left: seq<Row>, right: seq<Row>, lk: nat, rk: nat, w: nat, width: nat)
    requires Widths(left, w) && Widths(right, width) && lk < w && rk < width
    ensures var rows := JoinRows(left, right, lk, rk, InnerJoin, width);
      forall i :: 0 <= i < |rows| ==> |rows[i]| == w + width && KeysAgree(rows[i], lk, w + rk)
  {
    var rows := JoinRows(left, right, lk, rk, InnerJoin, width);
    forall i | 0 <= i < |rows|
      ensures |rows[i]| == w + width && KeysAgree(rows[i], lk, w + rk)
    {
      InnerJoinKeysEqual(left, right, lk, rk, w, width, rows[i]);
    }
  }

  /** A suffixed name ends in the suffix's last letter, so a name that does not was on
      that side unchanged. */
  lemma SuffixedFrom(cols: seq<string>, other: seq<string>, suffix: string, name: string)
    requires suffix != [] && name != [] && name[|name| - 1] != suffix[|suffix| - 1]
    requires name in Suffixed(cols, other, suffix)
    ensures name in cols
  {
    var s := Suffixed(cols, other, suffix);
    var k :| 0 <= k < |s| && s[k] == name;
    assert cols[k] == name;
  }

  /** The merged columns come from the two sides: a name ending in neither 'x' nor 'y'
      is one of their own names. */
  lemma MergeColsFrom(l: Frame, r: Frame, leftOn: string, rightOn: string, how: How, name: string)
    requires Merge(l, r, leftOn, rightOn, how).Success?
    requires name != [] && name[|name| - 1] != 'x' && name[|name| - 1] != 'y'
    ensures name in Merge(l, r, leftOn, rightOn, how).value.cols ==> name in l.cols || name in r.cols
  {
    var a, b := Suffixed(l.cols, r.cols, "_x"), Suffixed(r.cols, l.cols, "_y");
    if name in a {
      SuffixedFrom(l.cols, r.cols, "_x", name);
    } else if name in b {
      SuffixedFrom(r.cols, l.cols, "_y", name);
    }
  }

  /** A left join keeps every left row: each one is the left part of some output row. */
  lemma LeftJoinKeepsRows(left: seq<Row>, right: seq<Row>, lk: nat, rk: nat, w: nat, width: nat, l: Row)
    requires Widths(left, w) && l in left
    ensures exists o :: o in JoinRows(left, right, lk, rk, LeftJoin, width) && |o| >= w && o[..w] == l
  {
    var i :| 0 <= i < |left| && left[i] == l;
    var m := Where(right, rk, At(l, lk));
    var r := if m == [] then Blanks(width) else m[0];
    if m != [] {
      WhereCount(right, rk, At(l, lk), r);
      assert r in m;
    }
    assert Times(l, r, right, lk, rk, LeftJoin, width) > 0;
    assert multiset(left)[l] > 0;
    JoinCount(left, right, lk, rk, LeftJoin, w, width, l, r);
    PositiveProduct(multiset(left)[l], Times(l, r, right, lk, rk, LeftJoin, width));
    assert l + r in multiset(JoinRows(left, right, lk, rk, LeftJoin, width));
    assert (l + r)[..w] == l;
  }

  lemma PositiveProduct(a: nat, b: nat)
    requires a > 0 && b > 0
    ensures a * b > 0
  {
  }

}
