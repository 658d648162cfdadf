/** The row sweep of synapse/_scripts/synapse_port_db.py: rows are copied in batches going
    forwards from rowid 1 and backwards from rowid 0, with the position committed together
    with the rows, so that the copy can be resumed after a crash. */
module Porter {
  import opened Basics

  // -------------------------------------------------------------- row selection

  ghost predicate IsMin(s: set<int>, m: int) {
    m in s && forall x :: x in s ==> m <= x
  }

  ghost predicate IsMax(s: set<int>, m: int) {
    m in s && forall x :: x in s ==> x <= m
  }

  lemma {:induction false} MinMaxExist(s: set<int>)
    requires s != {}
    ensures exists m :: IsMin(s, m)
    ensures exists m :: IsMax(s, m)
  {
    assert (forall x: int :: x !in s) ==> s == {};
    var x: int :| x in s;
    var rest := s - {x};
    if rest == {} {
      assert s == {x};
      assert IsMin(s, x) && IsMax(s, x);
    } else {
      MinMaxExist(rest);
      var lo :| IsMin(rest, lo);
      var hi :| IsMax(rest, hi);
      assert forall y :: y in s <==> y == x || y in rest;
      assert IsMin(s, if x < lo then x else lo);
      assert IsMax(s, if x > hi then x else hi);
    }
  }

  function Least(s: set<int>): (m: int)
    requires s != {}
    ensures IsMin(s, m)
  {
    MinMaxExist(s);
    var m :| m in s && forall x :: x in s ==> m <= x;
    m
  }

  function Greatest(s: set<int>): (m: int)
    requires s != {}
    ensures IsMax(s, m)
  {
    MinMaxExist(s);
    var m :| m in s && forall x :: x in s ==> x <= m;
    m
  }

  function AtLeast(ids: set<int>, from: int): set<int> {
    set x | x in ids && from <= x
  }

  function AtMost(ids: set<int>, from: int): set<int> {
    set x | x in ids && x <= from
  }

  /** SELECT ... WHERE rowid >= from ORDER BY rowid LIMIT size */
  function Forwards(ids: set<int>, from: int, size: nat): seq<int>
    decreases size
  {
    var left := AtLeast(ids, from);
    if size == 0 || left == {} then []
    else
      var x := Least(left);
      [x] + Forwards(ids, x + 1, size - 1)
  }

  /** The rows are in range and ascending, and none in range is missed up to the last one taken,
      nor at all when the batch is not full. */
  ghost predicate IsForwardsBatch(ids: set<int>, from: int, size: nat, rows: seq<int>) {
    && |rows| <= size
    && (forall i :: 0 <= i < |rows| ==> rows[i] in ids && from <= rows[i])
    && (forall i, j :: 0 <= i < j < |rows| ==> rows[i] < rows[j])
    && (forall x :: x in ids && from <= x && (|rows| < size || (rows != [] && x <= rows[|rows| - 1])) ==> x in rows)
  }

  lemma ForwardsPrepend(ids: set<int>, from: int, size: nat, first: int, rest: seq<int>)
    requires first in ids && from <= first && (forall x :: x in ids && from <= x ==> first <= x)
    requires size > 0 && IsForwardsBatch(ids, first + 1, size - 1, rest)
    ensures IsForwardsBatch(ids, from, size, [first] + rest)
  {
    var rows := [first] + rest;
    assert forall i :: 1 <= i < |rows| ==> rows[i] == rest[i - 1];
    forall x | x in ids && from <= x && (|rows| < size || x <= rows[|rows| - 1])
      ensures x in rows
    {
      if x == first {
        assert rows[0] == x;
      } else {
        assert x in rest;
      }
    }
  }

  lemma ForwardsUnfold(ids: set<int>, from: int, size: nat) returns (first: int)
    requires size > 0 && AtLeast(ids, from) != {}
    ensures Forwards(ids, from, size) == [first] + Forwards(ids, first + 1, size - 1)
    ensures first in ids && from <= first
    ensures forall x :: x in ids && from <= x ==> first <= x
  {
    assert forall x :: x in ids && from <= x ==> x in AtLeast(ids, from);
    first := Least(AtLeast(ids, from));
  }

  lemma ForwardsEmpty(ids: set<int>, from: int, size: nat)
    requires size == 0 || AtLeast(ids, from) == {}
    ensures Forwards(ids, from, size) == [] && IsForwardsBatch(ids, from, size, [])
  {
    assert forall x :: x in ids && from <= x ==> x in AtLeast(ids, from);
  }

  lemma {:induction false} ForwardsIsBatch(ids: set<int>, from: int, size: nat)
    ensures IsForwardsBatch(ids, from, size, Forwards(ids, from, size))
    decreases size
  {
    if size == 0 || AtLeast(ids, from) == {} {
      ForwardsEmpty(ids, from, size);
    } else {
      var first := ForwardsUnfold(ids, from, size);
      ForwardsIsBatch(ids, first + 1, size - 1);
      ForwardsPrepend(ids, from, size, first, Forwards(ids, first + 1, size - 1));
    }
  }

  /** SELECT ... WHERE rowid <= from ORDER BY rowid DESC LIMIT size */
  function Backwards(ids: set<int>, from: int, size: nat): seq<int>
    decreases size
  {
    var left := AtMost(ids, from);
    if size == 0 || left == {} then []
    else
      var x := Greatest(left);
      [x] + Backwards(ids, x - 1, size - 1)
  }

  /** The rows are in range and descending, and none in range is missed up to the last one taken,
      nor at all when the batch is not full. */
  ghost predicate IsBackwardsBatch(ids: set<int>, from: int, size: nat, rows: seq<int>) {
    && |rows| <= size
    && (forall i :: 0 <= i < |rows| ==> rows[i] in ids && rows[i] <= from)
    && (forall i, j :: 0 <= i < j < |rows| ==> rows[i] > rows[j])
    && (forall x :: x in ids && x <= from && (|rows| < size || (rows != [] && rows[|rows| - 1] <= x)) ==> x in rows)
  }

  lemma BackwardsPrepend(ids: set<int>, from: int, size: nat, first: int, rest: seq<int>)
    requires first in ids && first <= from && (forall x :: x in ids && x <= from ==> x <= first)
    requires size > 0 && IsBackwardsBatch(ids, first - 1, size - 1, rest)
    ensures IsBackwardsBatch(ids, from, size, [first] + rest)
  {
    var rows := [first] + rest;
    assert forall i :: 1 <= i < |rows| ==> rows[i] == rest[i - 1];
    forall x | x in ids && x <= from && (|rows| < size || rows[|rows| - 1] <= x)
      ensures x in rows
    {
      if x == first {
        assert rows[0] == x;
      } else {
        assert x in rest;
      }
    }
  }

  lemma BackwardsUnfold(ids: set<int>, from: int, size: nat) returns (first: int)
    requires size > 0 && AtMost(ids, from) != {}
    ensures Backwards(ids, from, size) == [first] + Backwards(ids, first - 1, size - 1)
    ensures first in ids && first <= from
    ensures forall x :: x in ids && x <= from ==> x <= first
  {
    assert forall x :: x in ids && x <= from ==> x in AtMost(ids, from);
    first := Greatest(AtMost(ids, from));
  }

  lemma BackwardsEmpty(ids: set<int>, from: int, size: nat)
    requires size == 0 || AtMost(ids, from) == {}
    ensures Backwards(ids, from, size) == [] && IsBackwardsBatch(ids, from, size, [])
  {
    assert forall x :: x in ids && x <= from ==> x in AtMost(ids, from);
  }

  lemma {:induction false} BackwardsIsBatch(ids: set<int>, from: int, size: nat)
    ensures IsBackwardsBatch(ids, from, size, Backwards(ids, from, size))
    decreases size
  {
    if size == 0 || AtMost(ids, from) == {} {
      BackwardsEmpty(ids, from, size);
    } else {
      var first := BackwardsUnfold(ids, from, size);
      BackwardsIsBatch(ids, first - 1, size - 1);
      BackwardsPrepend(ids, from, size, first, Backwards(ids, first - 1, size - 1));
    }
  }

  // ---------------------------------------------------------------- conversion

  datatype Cell =
    | Null
    | Integer(n: int)
    | Text(s: string)
    | Bytes(bytes: seq<int>)
    | Boolean(b: bool)

  /** Python's bool(). */
  function Truth(c: Cell): bool {
    match c
    case Null => false
    case Integer(n) => n != 0
    case Text(s) => s != ""
    case Bytes(bs) => bs != []
    case Boolean(b) => b
  }

  type Row = seq<Cell>

  /** conv: None when the value cannot be stored. */
  function ConvertCell(c: Cell, boolean: bool): Option<Cell> {
    if boolean then Some(Boolean(Truth(c)))
    else if c.Text? && '\0' in c.s then None
    else Some(c)
  }

  /** The converted row, None when one of its cells cannot be stored. */
  function ConvertRow(row: Row, booleans: set<nat>): Option<Row> {
    if row == [] then Some([])
    else
      var n := |row| - 1;
      var front, last := ConvertRow(row[..n], booleans), ConvertCell(row[n], n in booleans);
      if front.Some? && last.Some? then Some(front.value + [last.value]) else None
  }

  /** The values that count as false. */
  predicate Falsy(c: Cell) {
    c == Null || c == Integer(0) || c == Text("") || c == Bytes([]) || c == Boolean(false)
  }

  /** A row is dropped exactly when a cell outside the boolean columns holds a NUL; in the others
      the cells of the boolean columns become false exactly where they are falsy, and the rest
      stays. */
  lemma {:induction false} DroppedIffNul(row: Row, booleans: set<nat>)
    ensures ConvertRow(row, booleans).None? <==>
            exists j :: 0 <= j < |row| && j !in booleans && row[j].Text? && '\0' in row[j].s
    ensures ConvertRow(row, booleans).Some? ==>
            && |ConvertRow(row, booleans).value| == |row|
            && forall j :: 0 <= j < |row| ==>
                 ConvertRow(row, booleans).value[j] == if j in booleans then Boolean(!Falsy(row[j])) else row[j]
  {
    if row != [] {
      DroppedIffNul(row[..|row| - 1], booleans);
    }
  }

  type Table = map<int, Row>

  /** The converted forms of the rows with the given ids, in order, without the dropped ones. */
  function ConvertAll(table: Table, ids: seq<int>, booleans: set<nat>): seq<Row>
    requires forall i :: 0 <= i < |ids| ==> ids[i] in table
  {
    if ids == [] then []
    else
      var n := |ids| - 1;
      var row := ConvertRow(table[ids[n]], booleans);
      ConvertAll(table, ids[..n], booleans) + if row.Some? then [row.value] else []
  }

  lemma {:induction false} ConvertAllAppend(table: Table, a: seq<int>, b: seq<int>, booleans: set<nat>)
    requires forall i :: 0 <= i < |a| ==> a[i] in table
    requires forall i :: 0 <= i < |b| ==> b[i] in table
    ensures ConvertAll(table, a + b, booleans) == ConvertAll(table, a, booleans) + ConvertAll(table, b, booleans)
  {
    if b == [] {
      assert a + b == a;
    } else {
      var n := |b| - 1;
      assert (a + b)[..|a + b| - 1] == a + b[..n];
      ConvertAllAppend(table, a, b[..n], booleans);
    }
  }

  ghost predicate Distinct(ids: seq<int>) {
    forall i, j :: 0 <= i < j < |ids| ==> ids[i] != ids[j]
  }

  /** Which of the ids have the given row as their converted form. */
  ghost function Becoming(table: Table, ids: seq<int>, booleans: set<nat>, row: Row): set<int>
    requires forall i :: 0 <= i < |ids| ==> ids[i] in table
  {
    set x | x in ids && x in table && ConvertRow(table[x], booleans) == Some(row)
  }

  lemma OneMoreRow(rows: seq<Row>, r: Row, row: Row)
    ensures multiset(rows + [r])[row] == multiset(rows)[row] + if r == row then 1 else 0
  {
  }

  lemma BecomingMore(table: Table, front: seq<int>, x: int, booleans: set<nat>, row: Row)
    requires x in table && x !in front && forall i :: 0 <= i < |front| ==> front[i] in table
    ensures forall i :: 0 <= i < |front + [x]| ==> (front + [x])[i] in table
    ensures |Becoming(table, front + [x], booleans, row)| ==
      |Becoming(table, front, booleans, row)| + if ConvertRow(table[x], booleans) == Some(row) then 1 else 0
  {
    if ConvertRow(table[x], booleans) == Some(row) {
      assert Becoming(table, front + [x], booleans, row) == Becoming(table, front, booleans, row) + {x};
    } else {
      assert Becoming(table, front + [x], booleans, row) == Becoming(table, front, booleans, row);
    }
  }

  lemma {:induction false} CopiedMore(table: Table, front: seq<int>, x: int, booleans: set<nat>, row: Row)
    requires x in table && forall i :: 0 <= i < |front| ==> front[i] in table
    ensures forall i :: 0 <= i < |front + [x]| ==> (front + [x])[i] in table
    ensures multiset(ConvertAll(table, front + [x], booleans))[row] == multiset(ConvertAll(table, front, booleans))[row]
      + if ConvertRow(table[x], booleans) == Some(row) then 1 else 0
  {
    assert (front + [x])[..|front|] == front;
    var rows, r := ConvertAll(table, front, booleans), ConvertRow(table[x], booleans);
    if r.Some? {
      OneMoreRow(rows, r.value, row);
    } else {
      assert rows + [] == rows;
    }
  }

  /** Each row is copied as many times as there are rows that become it. */
  lemma {:induction false} CopiedAsOften(table: Table, ids: seq<int>, booleans: set<nat>, row: Row)
    requires Distinct(ids) && forall i :: 0 <= i < |ids| ==> ids[i] in table
    ensures multiset(ConvertAll(table, ids, booleans))[row] == |Becoming(table, ids, booleans, row)|
  {
    if ids != [] {
      var n := |ids| - 1;
      var front, x := ids[..n], ids[n];
      CopiedAsOften(table, front, booleans, row);
      assert ids == front + [x] && x !in front;
      BecomingMore(table, front, x, booleans, row);
      CopiedMore(table, front, x, booleans, row);
    }
  }

  lemma TakeOut(table: Table, ids: seq<int>, k: nat, booleans: set<nat>)
    requires k < |ids| && forall i :: 0 <= i < |ids| ==> ids[i] in table
    ensures multiset(ConvertAll(table, ids, booleans))
         == multiset(ConvertAll(table, ids[..k] + ids[k + 1..], booleans))
            + multiset(ConvertAll(table, [ids[k]], booleans))
  {
    var a, x, b := ids[..k], [ids[k]], ids[k + 1..];
    assert ids == a + (x + b);
    ConvertAllAppend(table, a, x + b, booleans);
    ConvertAllAppend(table, x, b, booleans);
    ConvertAllAppend(table, a, b, booleans);
  }

  /** What is copied depends only on which rows are handled, not on the order. */
  lemma {:induction false} OrderIsIrrelevant(table: Table, a: seq<int>, b: seq<int>, booleans: set<nat>)
    requires forall i :: 0 <= i < |a| ==> a[i] in table
    requires forall i :: 0 <= i < |b| ==> b[i] in table
    requires Distinct(a) && Distinct(b) && (forall x :: x in a <==> x in b)
    ensures multiset(ConvertAll(table, a, booleans)) == multiset(ConvertAll(table, b, booleans))
  {
    assert b != [] ==> b[0] in b;
    if a != [] {
      var n := |a| - 1;
      var x := a[n];
      assert x in b;
      var k :| 0 <= k < |b| && b[k] == x;
      var b' := b[..k] + b[k + 1..];
      WithoutOne(a[..n], b, k);
      OrderIsIrrelevant(table, a[..n], b', booleans);
      TakeOut(table, b, k, booleans);
      TakeOut(table, a, n, booleans);
      assert a[..n] + a[n + 1..] == a[..n];
    }
  }

  lemma WithoutOne(a: seq<int>, b: seq<int>, k: nat)
    requires Distinct(b) && k < |b| && Distinct(a) && b[k] !in a
    requires forall y :: y in a || y == b[k] <==> y in b
    ensures Distinct(b[..k] + b[k + 1..])
    ensures forall y :: y in a <==> y in b[..k] + b[k + 1..]
  {
    var b' := b[..k] + b[k + 1..];
    assert forall i :: 0 <= i < |b'| ==> b'[i] == if i < k then b[i] else b[i + 1];
    forall y ensures y in a <==> y in b' {
      if y in a {
        var i :| 0 <= i < |b| && b[i] == y;
        assert b'[if i < k then i else i - 1] == y;
      }
      if y in b' {
        var i :| 0 <= i < |b'| && b'[i] == y;
        assert y in b && y != b[k];
      }
    }
  }

  // ------------------------------------------------------------------ the sweep

  /** The committed positions: everything strictly between them has been handled. */
  datatype Progress = Progress(forward: int, backward: int)

  /** One commit: a batch in each direction, and the positions just beyond them. */
  function Advance(ids: set<int>, p: Progress, size: nat): (seq<int>, Progress) {
    var f, b := Forwards(ids, p.forward, size), Backwards(ids, p.backward, size);
    (f + b, Progress(if f == [] then p.forward else f[|f| - 1] + 1,
                     if b == [] then p.backward else b[|b| - 1] - 1))
  }

  /** `done` lists, once each, exactly the ids strictly between the positions. */
  ghost predicate Swept(ids: set<int>, p: Progress, done: seq<int>) {
    && p.backward < p.forward
    && Distinct(done)
    && (forall i :: 0 <= i < |done| ==> done[i] in ids)
    && (forall x :: x in done <==> x in ids && p.backward < x < p.forward)
  }

  lemma AdvanceDistinct(ids: set<int>, p: Progress, size: nat, done: seq<int>)
    requires Swept(ids, p, done)
    ensures Distinct(done + Advance(ids, p, size).0)
  {
    ForwardsIsBatch(ids, p.forward, size);
    BackwardsIsBatch(ids, p.backward, size);
    var f, b := Forwards(ids, p.forward, size), Backwards(ids, p.backward, size);
    assert forall i :: 0 <= i < |done| ==> done[i] in done;
    assert Distinct(f) && Distinct(b);
    DistinctAppend(f, b);
    DistinctAppend(done, f + b);
  }

  lemma DistinctAppend(a: seq<int>, b: seq<int>)
    requires Distinct(a) && Distinct(b)
    requires forall i, j :: 0 <= i < |a| && 0 <= j < |b| ==> a[i] != b[j]
    ensures Distinct(a + b)
  {
  }

  /** A forward batch is what lies between the position and the one after it. */
  lemma FoundForwards(ids: set<int>, from: int, size: nat, rows: seq<int>, x: int)
    requires IsForwardsBatch(ids, from, size, rows)
    ensures x in rows <==> x in ids && from <= x < if rows == [] then from else rows[|rows| - 1] + 1
  {
  }

  lemma FoundBackwards(ids: set<int>, from: int, size: nat, rows: seq<int>, x: int)
    requires IsBackwardsBatch(ids, from, size, rows)
    ensures x in rows <==> x in ids && from >= x > if rows == [] then from else rows[|rows| - 1] - 1
  {
  }

  lemma AdvanceHandles(ids: set<int>, p: Progress, size: nat, done: seq<int>, x: int)
    requires Swept(ids, p, done)
    ensures var (rows, q) := Advance(ids, p, size);
            && q.backward < q.forward
            && (x in done + rows <==> x in ids && q.backward < x < q.forward)
  {
    var f, b := Forwards(ids, p.forward, size), Backwards(ids, p.backward, size);
    ForwardsIsBatch(ids, p.forward, size);
    BackwardsIsBatch(ids, p.backward, size);
    FoundForwards(ids, p.forward, size, f, x);
    FoundBackwards(ids, p.backward, size, b, x);
    assert x in done + (f + b) <==> x in done || x in f || x in b;
  }

  lemma AdvanceSweeps(ids: set<int>, p: Progress, size: nat, done: seq<int>)
    requires Swept(ids, p, done)
    ensures Swept(ids, Advance(ids, p, size).1, done + Advance(ids, p, size).0)
  {
    AdvanceDistinct(ids, p, size, done);
    var (rows, q) := Advance(ids, p, size);
    forall x ensures x in done + rows <==> x in ids && q.backward < x < q.forward {
      AdvanceHandles(ids, p, size, done, x);
    }
    AdvanceHandles(ids, p, size, done, 0);
    assert forall i :: 0 <= i < |done + rows| ==> (done + rows)[i] in done + rows;
  }

  /** The ids that have not been handled. */
  function Remaining(ids: set<int>, p: Progress): set<int> {
    set x | x in ids && (p.forward <= x || x <= p.backward)
  }

  /** A commit handles at least one row while any is left, if batches hold at least one. */
  lemma AdvanceShrinks(ids: set<int>, p: Progress, size: nat)
    requires size >= 1 && p.backward < p.forward
    ensures var (rows, q) := Advance(ids, p, size);
            && (rows == [] <==> Remaining(ids, p) == {})
            && (rows != [] ==> Remaining(ids, q) < Remaining(ids, p) && |Remaining(ids, q)| < |Remaining(ids, p)|)
  {
    ForwardsIsBatch(ids, p.forward, size);
    BackwardsIsBatch(ids, p.backward, size);
    var (rows, q) := Advance(ids, p, size);
    if rows != [] {
      assert rows[0] in Remaining(ids, p) - Remaining(ids, q);
      ProperSubset(Remaining(ids, q), Remaining(ids, p), rows[0]);
    }
  }

  lemma SubsetCount(a: set<int>, b: set<int>)
    requires a <= b
    ensures |a| <= |b|
  {
    assert b == a + (b - a);
  }

  lemma ProperSubset(a: set<int>, b: set<int>, x: int)
    requires a <= b && x in b && x !in a
    ensures |a| < |b|
  {
    assert b == a + (b - a);
  }

  /** The whole table, copied in the order of its ids. */
  ghost function FullCopy(table: Table, booleans: set<nat>): multiset<Row> {
    multiset(ConvertAll(table, AllIds(table.Keys), booleans))
  }

  ghost function AllIds(ids: set<int>): (r: seq<int>)
    ensures Distinct(r) && forall x :: x in r <==> x in ids
  {
    if ids == {} then []
    else
      var x := Least(ids);
      assert ids == {x} + (ids - {x});
      [x] + AllIds(ids - {x})
  }

  /** Which rows of the table have the given row as their converted form. */
  ghost function Originals(table: Table, booleans: set<nat>, row: Row): set<int> {
    set x | x in table && ConvertRow(table[x], booleans) == Some(row)
  }

  /** The full copy holds each row as many times as there are rows of the table that become it. */
  lemma {:induction false} FullCopyIsExact(table: Table, booleans: set<nat>, row: Row)
    ensures FullCopy(table, booleans)[row] == |Originals(table, booleans, row)|
  {
    var ids := AllIds(table.Keys);
    CopiedAsOften(table, ids, booleans, row);
    assert Becoming(table, ids, booleans, row) == Originals(table, booleans, row);
  }

  method MaxId(rows: seq<int>) returns (m: int)
    requires rows != []
    ensures m in rows && forall i :: 0 <= i < |rows| ==> rows[i] <= m
  {
    m := rows[0];
    for i := 1 to |rows|
      invariant m in rows && forall j :: 0 <= j < i ==> rows[j] <= m
    {
      if rows[i] > m { m := rows[i]; }
    }
  }

  method MinId(rows: seq<int>) returns (m: int)
    requires rows != []
    ensures m in rows && forall i :: 0 <= i < |rows| ==> m <= rows[i]
  {
    m := rows[0];
    for i := 1 to |rows|
      invariant m in rows && forall j :: 0 <= j < i ==> m <= rows[j]
    {
      if rows[i] < m { m := rows[i]; }
    }
  }

  /** _convert_rows */
  method ConvertRows(table: Table, ids: seq<int>, booleans: set<nat>) returns (rows: seq<Row>)
    requires forall i :: 0 <= i < |ids| ==> ids[i] in table
    ensures rows == ConvertAll(table, ids, booleans)
  {
    rows := [];
    for i := 0 to |ids|
      invariant rows == ConvertAll(table, ids[..i], booleans)
    {
      assert ids[..i + 1][..i] == ids[..i];
      var row := ConvertRow(table[ids[i]], booleans);
      if row.Some? {
        rows := rows + [row.value];
      }
    }
    assert ids[..|ids|] == ids;
  }

  /** Where a run is cut: once the old copy is deleted, or just before a commit, counting from
      zero. */
  datatype Crash = BeforeProgressRow | BeforeCommit(budget: nat)

  class TablePorter {
    const source: Table
    const booleans: set<nat>
    const appendOnly: bool
    var progress: Option<Progress>     // the row of port_from_sqlite3
    var dest: seq<Row>
    ghost var ported: seq<int>         // the ids handled, in the order of handling

    /** The rows handled are exactly those strictly between the committed positions, once
        each, and the destination holds the converted form of each that has one. */
    ghost predicate Valid()
      reads this
    {
      match progress
      case None => ported == [] && dest == []
      case Some(p) => Swept(source.Keys, p, ported) && dest == ConvertAll(source, ported, booleans)
    }

    constructor (source: Table, booleans: set<nat>, appendOnly: bool)
      ensures Valid() && progress.None?
      ensures this.source == source && this.booleans == booleans && this.appendOnly == appendOnly
    {
      this.source, this.booleans, this.appendOnly := source, booleans, appendOnly;
      progress, dest, ported := None, [], [];
    }

    /** The transaction in setup_table that forgets what was copied, unless the table is
        append-only. */
    method DeleteAll()
      requires Valid()
      modifies this
      ensures Valid()
      ensures if appendOnly then progress == old(progress) && dest == old(dest) && ported == old(ported)
              else progress.None? && dest == [] && ported == []
    {
      if !appendOnly {
        progress, dest, ported := None, [], [];
      }
    }

    /** setup_table: an append-only table carries on from the committed positions, any other
        table starts again from nothing. */
    method SetupTable() returns (forward: int, backward: int, already: nat, total: nat)
      requires Valid()
      modifies this
      ensures Valid() && progress == Some(Progress(forward, backward))
      ensures appendOnly && old(progress).Some? ==> progress == old(progress) && ported == old(ported)
      ensures !appendOnly || old(progress).None? ==> ported == [] && forward == 1 && backward == 0
      ensures already == |dest| && total == |Remaining(source.Keys, progress.value)| + already
    {
      DeleteAll();
      if progress.Some? {
        forward, backward := progress.value.forward, progress.value.backward;
      } else {
        forward, backward := 1, 0;
        progress := Some(Progress(forward, backward));
      }
      already := |dest|;
      total := |Remaining(source.Keys, progress.value)| + already;
    }

    /** The insert transaction: rows and positions are committed together. */
    method Commit(frows: seq<int>, brows: seq<int>, size: nat)
      requires Valid() && progress.Some?
      requires frows == Forwards(source.Keys, progress.value.forward, size)
      requires brows == Backwards(source.Keys, progress.value.backward, size)
      modifies this
      ensures Valid()
      ensures progress == Some(Advance(source.Keys, old(progress).value, size).1)
      ensures ported == old(ported) + (frows + brows)
    {
      AdvanceSweeps(source.Keys, progress.value, size, ported);
      var next := NextPositions(source.Keys, progress.value, size, frows, brows);
      var batch := frows + brows;
      BatchInSource(source.Keys, progress.value, size);
      ConvertAllAppend(source, ported, batch, booleans);
      var rows := ConvertRows(source, batch, booleans);
      dest, progress := dest + rows, Some(next);
      ported := ported + batch;
    }

    /** handle_table's loop, with a crash just before commit number `budget`, counting from
        zero. It always leaves a valid state; it can stop short only by the crash, which
        does not happen when `budget` exceeds the number of rows left; and when it is done
        the destination holds every convertible row of the table exactly once. */
    method HandleTable(size: nat, budget: nat, total: nat, forward: int, backward: int) returns (done: bool)
      requires Valid() && size >= 1 && progress == Some(Progress(forward, backward))
      requires total == |Remaining(source.Keys, progress.value)| + |dest|
      modifies this
      ensures Valid() && progress.Some?
      ensures done <==> Remaining(source.Keys, progress.value) == {}
      ensures budget > |Remaining(source.Keys, old(progress).value)| ==> done
      ensures done ==> multiset(dest) == FullCopy(source, booleans)
      ensures old(ported) <= ported
    {
      ghost var left := Remaining(source.Keys, progress.value);
      if total == 0 {
        AllDone();
        return true;
      }
      var doForward, doBackward, commits := true, true, 0;
      while true
        invariant Valid() && progress.Some? && old(ported) <= ported
        invariant !doForward ==> Forwards(source.Keys, progress.value.forward, size) == []
        invariant !doBackward ==> Backwards(source.Keys, progress.value.backward, size) == []
        invariant commits <= budget && commits + |Remaining(source.Keys, progress.value)| <= |left|
        decreases |Remaining(source.Keys, progress.value)|
      {
        var frows := if doForward then Forwards(source.Keys, progress.value.forward, size) else [];
        var brows := if doBackward then Backwards(source.Keys, progress.value.backward, size) else [];
        doForward, doBackward := frows != [], brows != [];
        AdvanceShrinks(source.Keys, progress.value, size);
        if frows == [] && brows == [] {
          AllDone();
          return true;
        }
        if commits == budget {
          return false;
        }
        Commit(frows, brows, size);
        commits := commits + 1;
      }
    }

    /** A run that crashes, between two of its transactions. */
    method CrashedRun(size: nat, crash: Crash)
      requires Valid() && size >= 1
      modifies this
      ensures Valid()
    {
      match crash
      case BeforeProgressRow =>
        DeleteAll();
      case BeforeCommit(budget) =>
        var forward, backward, already, total := SetupTable();
        var done := HandleTable(size, budget, total, forward, backward);
    }

    /** Any number of runs that crash, each between any two of its transactions and each resumed
        from what was committed, followed by one that does not, copy every convertible row
        exactly once. */
    method PortAcrossCrashes(size: nat, crashes: seq<Crash>)
      requires Valid() && size >= 1
      modifies this
      ensures Valid() && multiset(dest) == FullCopy(source, booleans)
    {
      for i := 0 to |crashes|
        invariant Valid()
      {
        CrashedRun(size, crashes[i]);
      }
      var forward, backward, already, total := SetupTable();
      SubsetCount(Remaining(source.Keys, progress.value), source.Keys);
      var done := HandleTable(size, |source.Keys| + 1, total, forward, backward);
    }

    /** With nothing left the destination is the full copy, however it came about. */
    lemma AllDone()
      requires Valid() && progress.Some? && Remaining(source.Keys, progress.value) == {}
      ensures multiset(dest) == FullCopy(source, booleans)
    {
      var ids, p := source.Keys, progress.value;
      forall x ensures x in ported <==> x in AllIds(ids) {
        if x in ids { assert x !in Remaining(ids, p); }
      }
      OrderIsIrrelevant(source, ported, AllIds(ids), booleans);
    }
  }

  lemma BatchInSource(ids: set<int>, p: Progress, size: nat)
    ensures forall i :: 0 <= i < |Advance(ids, p, size).0| ==> Advance(ids, p, size).0[i] in ids
  {
    ForwardsIsBatch(ids, p.forward, size);
    BackwardsIsBatch(ids, p.backward, size);
  }

  lemma LastForward(ids: set<int>, from: int, size: nat, m: int)
    requires var rows := Forwards(ids, from, size); m in rows && forall i :: 0 <= i < |rows| ==> rows[i] <= m
    ensures var rows := Forwards(ids, from, size); m == rows[|rows| - 1]
  {
    ForwardsIsBatch(ids, from, size);
  }

  lemma LastBackward(ids: set<int>, from: int, size: nat, m: int)
    requires var rows := Backwards(ids, from, size); m in rows && forall i :: 0 <= i < |rows| ==> m <= rows[i]
    ensures var rows := Backwards(ids, from, size); m == rows[|rows| - 1]
  {
    BackwardsIsBatch(ids, from, size);
  }

  /** The positions just beyond the rows of a batch. */
  method NextPositions(ids: set<int>, p: Progress, size: nat, frows: seq<int>, brows: seq<int>) returns (q: Progress)
    requires frows == Forwards(ids, p.forward, size) && brows == Backwards(ids, p.backward, size)
    ensures q == Advance(ids, p, size).1
  {
    q := p;
    if frows != [] {
      var m := MaxId(frows);
      LastForward(ids, p.forward, size, m);
      q := q.(forward := m + 1);
    }
    if brows != [] {
      var m := MinId(brows);
      LastBackward(ids, p.backward, size, m);
      q := q.(backward := m - 1);
    }
  }
}
