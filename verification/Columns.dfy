/** Column moves of src/dataset-preprocessor/script.py: rows are edited in place by index, and the
    indices of later edits are corrected for the earlier ones. */
module Columns {

  datatype Option<+T> = Some(value: T) | None

  /** Where `list.pop(i)` pops in a list of the given length: a negative index counts from the end;
      -1 stands for the IndexError. */
  function PopIndex(length: nat, i: int): (k: int)
    ensures -1 <= k < length
    ensures k == -1 <==> i >= length || i + length < 0
    ensures 0 <= i < length ==> k == i
    ensures i < 0 <= i + length ==> k == i + length
  {
    if 0 <= i < length then i else if i < 0 <= i + length then i + length else -1
  }

  function Without<T>(row: seq<T>, k: nat): (r: seq<T>)
    requires k < |row|
    ensures |r| == |row| - 1
  {
    row[..k] + row[k + 1..]
  }

  /** The row after the first n classes were moved, or None after an IndexError. */
  function Moved<T>(row: seq<T>, classes: seq<nat>, n: nat): (r: Option<seq<T>>)
    requires n <= |classes|
    ensures r.Some? ==> |r.value| == |row|
  {
    if n == 0 then Some(row)
    else
      match Moved(row, classes, n - 1)
      case None => None
      case Some(r) =>
        var k := PopIndex(|r|, classes[n - 1] - (n - 1));
        if k < 0 then None else Some(Without(r, k) + [r[k]])
  }

  /** How many of the columns lie before an index. */
  function CountBelow(index: nat, columns: seq<nat>): (a: nat)
    ensures a <= |columns|
  {
    if |columns| == 0 then 0
    else CountBelow(index, columns[..|columns| - 1]) + (if columns[|columns| - 1] < index then 1 else 0)
  }

  /** The row after the first n of the columns were removed, or None after an IndexError. */
  function Removed<T>(row: seq<T>, ids: seq<nat>, moved: seq<nat>, n: nat): (r: Option<seq<T>>)
    requires n <= |ids|
    ensures r.Some? ==> |r.value| == |row| - n
  {
    if n == 0 then Some(row)
    else
      match Removed(row, ids, moved, n - 1)
      case None => None
      case Some(r) =>
        var k := PopIndex(|r|, ids[n - 1] - (n - 1) - CountBelow(ids[n - 1], moved));
        if k < 0 then None else Some(Without(r, k))
  }

  lemma {:induction false} MoveStops<T>(row: seq<T>, classes: seq<nat>, n: nat, m: nat)
    requires n <= m <= |classes| && Moved(row, classes, n) == None
    ensures Moved(row, classes, m) == None
  {
    if n < m {
      MoveStops(row, classes, n, m - 1);
    }
  }

  lemma {:induction false} RemoveStops<T>(row: seq<T>, ids: seq<nat>, moved: seq<nat>, n: nat, m: nat)
    requires n <= m <= |ids| && Removed(row, ids, moved, n) == None
    ensures Removed(row, ids, moved, m) == None
  {
    if n < m {
      RemoveStops(row, ids, moved, n, m - 1);
    }
  }

  /** The places of the moved columns that lie before an index. */
  ghost function MovedBefore(index: nat, moved: seq<nat>): set<nat> {
    set i: nat | i < |moved| && moved[i] < index
  }

  lemma {:induction false} BelowIsSize(index: nat, moved: seq<nat>)
    ensures CountBelow(index, moved) == |MovedBefore(index, moved)|
  {
    if |moved| == 0 {
      assert MovedBefore(index, moved) == {};
    } else {
      var n := |moved| - 1;
      BelowIsSize(index, moved[..n]);
      var before := MovedBefore(index, moved[..n]);
      assert MovedBefore(index, moved) == if moved[n] < index then before + {n} else before;
    }
  }

  method AnyAttMovedBefore(index: nat, moved: seq<nat>) returns (a: nat)
    ensures a == CountBelow(index, moved) && a == |MovedBefore(index, moved)|
  {
    BelowIsSize(index, moved);
    a := 0;
    for i := 0 to |moved|
      invariant a == CountBelow(index, moved[..i])
    {
      assert moved[..i + 1][..i] == moved[..i];
      if moved[i] < index {
        a := a + 1;
      }
    }
    assert moved[..|moved|] == moved;
  }

  /** The row as the moves before the IndexError left it. */
  ghost predicate MoveStopped<T>(was: seq<T>, now: seq<T>, classes: seq<nat>) {
    exists n :: 0 <= n < |classes| && Moved(was, classes, n) == Some(now) && Moved(was, classes, n + 1) == None
  }

  ghost predicate RemoveStopped<T>(was: seq<T>, now: seq<T>, ids: seq<nat>, moved: seq<nat>) {
    exists n :: 0 <= n < |ids| && Removed(was, ids, moved, n) == Some(now) && Removed(was, ids, moved, n + 1) == None
  }

  /** The cell that index i counts to, from the end if i is negative. */
  ghost predicate CellAt(length: nat, i: int, k: int) {
    0 <= k < length && k == if i >= 0 then i else i + length
  }

  /** One move: the cell at index i goes to the end. */
  ghost predicate MoveStep<T>(was: seq<T>, i: int, now: seq<T>) {
    exists k :: CellAt(|was|, i, k) && now == was[..k] + was[k + 1..] + [was[k]]
  }

  ghost predicate RemoveStep<T>(was: seq<T>, i: int, now: seq<T>) {
    exists k :: CellAt(|was|, i, k) && now == was[..k] + was[k + 1..]
  }

  /** The row move by move: each index is lowered by the moves before it. */
  ghost predicate MovesBy<T>(classes: seq<nat>, steps: seq<seq<T>>) {
    && 0 < |steps| <= |classes| + 1
    && forall q :: 0 <= q < |steps| - 1 ==> MoveStep(steps[q], classes[q] - q, steps[q + 1])
  }

  /** The same for removals, with each index lowered, besides, by the classes moved from before it. */
  ghost predicate RemovesBy<T>(ids: seq<nat>, moved: seq<nat>, steps: seq<seq<T>>) {
    && 0 < |steps| <= |ids| + 1
    && forall q :: 0 <= q < |steps| - 1 ==>
         RemoveStep(steps[q], ids[q] - q - |MovedBefore(ids[q], moved)|, steps[q + 1])
  }

  lemma MoveNone<T>(classes: seq<nat>, row: seq<T>)
    ensures MovesBy(classes, [row])
  {
  }

  lemma RemoveNone<T>(ids: seq<nat>, moved: seq<nat>, row: seq<T>)
    ensures RemovesBy(ids, moved, [row])
  {
  }

  lemma MoveMore<T>(classes: seq<nat>, steps: seq<seq<T>>, now: seq<T>)
    requires MovesBy(classes, steps) && |steps| <= |classes|
    requires var n, was := |steps| - 1, steps[|steps| - 1];
      var k := PopIndex(|was|, classes[n] - n);
      k >= 0 && now == Without(was, k) + [was[k]]
    ensures MovesBy(classes, steps + [now])
  {
    var n, was := |steps| - 1, steps[|steps| - 1];
    assert CellAt(|was|, classes[n] - n, PopIndex(|was|, classes[n] - n));
    hide PopIndex;
    assert MoveStep(was, classes[n] - n, now);
    hide MoveStep;
    var all := steps + [now];
    assert forall q :: 0 <= q < |steps| ==> all[q] == steps[q];
  }

  lemma RemoveMore<T>(ids: seq<nat>, moved: seq<nat>, steps: seq<seq<T>>, now: seq<T>)
    requires RemovesBy(ids, moved, steps) && |steps| <= |ids|
    requires var n, was := |steps| - 1, steps[|steps| - 1];
      var k := PopIndex(|was|, ids[n] - n - CountBelow(ids[n], moved));
      k >= 0 && now == Without(was, k)
    ensures RemovesBy(ids, moved, steps + [now])
  {
    var n, was := |steps| - 1, steps[|steps| - 1];
    BelowIsSize(ids[n], moved);
    hide CountBelow;
    hide MovedBefore;
    var i := ids[n] - n - CountBelow(ids[n], moved);
    assert CellAt(|was|, i, PopIndex(|was|, i));
    hide PopIndex;
    assert RemoveStep(was, i, now);
    hide RemoveStep;
    var all := steps + [now];
    assert forall q :: 0 <= q < |steps| ==> all[q] == steps[q];
  }

  /** What the edits came to: `steps` from the row as it was to the row as it is, all of them, or those
      before the first index that is no cell's. */
  ghost predicate MovedAll<T>(was: seq<T>, now: seq<T>, classes: seq<nat>, ok: bool, steps: seq<seq<T>>) {
    && MovesBy(classes, steps) && steps[0] == was && steps[|steps| - 1] == now
    && var n := |steps| - 1;
       if ok then n == |classes|
       else n < |classes| && (classes[n] - n >= |now| || classes[n] - n + |now| < 0)
  }

  ghost predicate RemovedAll<T>(was: seq<T>, now: seq<T>, ids: seq<nat>, moved: seq<nat>, ok: bool,
                                steps: seq<seq<T>>)
  {
    && RemovesBy(ids, moved, steps) && steps[0] == was && steps[|steps| - 1] == now
    && var n := |steps| - 1;
       if ok then n == |ids|
       else
         && n < |ids|
         && var i := ids[n] - n - |MovedBefore(ids[n], moved)|;
            i >= |now| || i + |now| < 0
  }

  class Row<T> {
    var cells: seq<T>

    /** `list.pop`: nothing changes on an IndexError. */
    method Pop(i: int) returns (cell: Option<T>)
      modifies this
      ensures var k := PopIndex(|old(cells)|, i);
        if k < 0 then cell == None && cells == old(cells)
        else cell == Some(old(cells)[k]) && cells == Without(old(cells), k)
    {
      var k := PopIndex(|cells|, i);
      if k < 0 {
        return None;
      }
      cell := Some(cells[k]);
      cells := cells[..k] + cells[k + 1..];
    }

    method Append(cell: T)
      modifies this
      ensures cells == old(cells) + [cell]
    {
      cells := cells + [cell];
    }

    /** An IndexError leaves what the edits before it made of the row. */
    method MoveClasses(classes: seq<nat>) returns (ok: bool)
      modifies this
      ensures Moved(old(cells), classes, |classes|) == if ok then Some(cells) else None
      ensures !ok ==> MoveStopped(old(cells), cells, classes)
      ensures exists steps :: MovedAll(old(cells), cells, classes, ok, steps)
    {
      hide MovesBy;
      ghost var steps := [cells];
      assert MovesBy(classes, steps) by { MoveNone(classes, cells); }
      for i := 0 to |classes|
        invariant Moved(old(cells), classes, i) == Some(cells)
        invariant MovesBy(classes, steps) && |steps| == i + 1 && steps[0] == old(cells) && steps[i] == cells
      {
        var cell := Pop(classes[i] - i);
        if cell.None? {
          MoveStops(old(cells), classes, i + 1, |classes|);
          assert MovedAll(old(cells), cells, classes, false, steps);
          return false;
        }
        Append(cell.value);
        MoveMore(classes, steps, cells);
        steps := steps + [cells];
      }
      assert MovedAll(old(cells), cells, classes, true, steps);
      return true;
    }

    method RemoveColumns(ids: seq<nat>, moved: seq<nat>) returns (ok: bool)
      modifies this
      ensures Removed(old(cells), ids, moved, |ids|) == if ok then Some(cells) else None
      ensures !ok ==> RemoveStopped(old(cells), cells, ids, moved)
      ensures exists steps :: RemovedAll(old(cells), cells, ids, moved, ok, steps)
    {
      hide RemovesBy;
      hide CountBelow;
      hide MovedBefore;
      ghost var steps := [cells];
      assert RemovesBy(ids, moved, steps) by { RemoveNone(ids, moved, cells); }
      for i := 0 to |ids|
        invariant Removed(old(cells), ids, moved, i) == Some(cells)
        invariant RemovesBy(ids, moved, steps) && |steps| == i + 1 && steps[0] == old(cells) && steps[i] == cells
      {
        var a := AnyAttMovedBefore(ids[i], moved);
        var cell := Pop(ids[i] - i - a);
        if cell.None? {
          RemoveStops(old(cells), ids, moved, i + 1, |ids|);
          assert RemovedAll(old(cells), cells, ids, moved, false, steps);
          return false;
        }
        RemoveMore(ids, moved, steps, cells);
        steps := steps + [cells];
      }
      assert RemovedAll(old(cells), cells, ids, moved, true, steps);
      return true;
    }
  }

  ghost predicate Apart<T>(rows: seq<Row<T>>) {
    forall i, j :: 0 <= i < j < |rows| ==> rows[i] != rows[j]
  }

  ghost function Cells<T>(rows: seq<Row<T>>): (cells: seq<seq<T>>)
    reads rows
    ensures |cells| == |rows| && forall j :: 0 <= j < |rows| ==> cells[j] == rows[j].cells
  {
    seq(|rows|, j requires 0 <= j < |rows| reads rows => rows[j].cells)
  }

  /** All rows have their classes moved, or an IndexError stopped at one: those before it are done,
      it is as the edits before the error left it, and those after it are as they were. */
  ghost predicate MovedRows<T>(was: seq<seq<T>>, now: seq<seq<T>>, classes: seq<nat>, ok: bool) {
    && |was| == |now|
    && (ok ==> forall j :: 0 <= j < |was| ==> Moved(was[j], classes, |classes|) == Some(now[j]))
    && (!ok ==> exists i :: 0 <= i < |was| && MoveStopped(was[i], now[i], classes) && now[i + 1..] == was[i + 1..]
                  && forall j :: 0 <= j < i ==> Moved(was[j], classes, |classes|) == Some(now[j]))
  }

  method MoveClassesToTheEnd<T>(rows: seq<Row<T>>, classes: seq<nat>) returns (ok: bool)
    requires Apart(rows)
    modifies rows
    ensures MovedRows(old(Cells(rows)), Cells(rows), classes, ok)
  {
    hide Moved;
    hide MovedAll;
    hide MoveStopped;
    ghost var was := Cells(rows);
    for i := 0 to |rows|
      invariant forall j :: 0 <= j < i ==> Moved(was[j], classes, |classes|) == Some(rows[j].cells)
      invariant forall j :: i <= j < |rows| ==> rows[j].cells == was[j]
    {
      ok := rows[i].MoveClasses(classes);
      if !ok {
        assert MoveStopped(was[i], Cells(rows)[i], classes) && Cells(rows)[i + 1..] == was[i + 1..];
        return;
      }
    }
    ok := true;
  }

  /** The same of the removals. */
  ghost predicate RemovedRows<T>(was: seq<seq<T>>, now: seq<seq<T>>, ids: seq<nat>, moved: seq<nat>, ok: bool) {
    && |was| == |now|
    && (ok ==> forall j :: 0 <= j < |was| ==> Removed(was[j], ids, moved, |ids|) == Some(now[j]))
    && (!ok ==> exists i :: 0 <= i < |was| && RemoveStopped(was[i], now[i], ids, moved) && now[i + 1..] == was[i + 1..]
                  && forall j :: 0 <= j < i ==> Removed(was[j], ids, moved, |ids|) == Some(now[j]))
  }

  method RemoveAttributes<T>(rows: seq<Row<T>>, ids: seq<nat>, moved: seq<nat>) returns (ok: bool)
    requires Apart(rows)
    modifies rows
    ensures RemovedRows(old(Cells(rows)), Cells(rows), ids, moved, ok)
  {
    hide Removed;
    hide RemovedAll;
    hide RemoveStopped;
    ghost var was := Cells(rows);
    for i := 0 to |rows|
      invariant forall j :: 0 <= j < i ==> Removed(was[j], ids, moved, |ids|) == Some(rows[j].cells)
      invariant forall j :: i <= j < |rows| ==> rows[j].cells == was[j]
    {
      ok := rows[i].RemoveColumns(ids, moved);
      if !ok {
        assert RemoveStopped(was[i], Cells(rows)[i], ids, moved) && Cells(rows)[i + 1..] == was[i + 1..];
        return;
      }
    }
    ok := true;
  }

  /** The columns before n that are not among `gone`, in order. */
  function Rest(n: nat, gone: seq<nat>): (r: seq<nat>)
    ensures forall q :: 0 <= q < |r| ==> r[q] < n
  {
    if n == 0 then [] else if n - 1 in gone then Rest(n - 1, gone) else Rest(n - 1, gone) + [n - 1]
  }

  ghost predicate Increasing(s: seq<nat>) {
    forall i, j :: 0 <= i < j < |s| ==> s[i] < s[j]
  }

  /** `Rest` is the one increasing list of just the columns that are left. */
  lemma {:induction false} RestIsRest(n: nat, gone: seq<nat>)
    ensures Increasing(Rest(n, gone))
    ensures forall c: nat :: c in Rest(n, gone) <==> c < n && c !in gone
  {
    if n > 0 {
      RestIsRest(n - 1, gone);
    }
  }

  function Select<T>(row: seq<T>, columns: seq<nat>): (r: seq<T>)
    requires forall q :: 0 <= q < |columns| ==> columns[q] < |row|
    ensures |r| == |columns|
  {
    seq(|columns|, q requires 0 <= q < |columns| => row[columns[q]])
  }

  ghost predicate Sorted(s: seq<nat>) {
    forall i, j :: 0 <= i < j < |s| ==> s[i] <= s[j]
  }

  ghost predicate Unlike(s: seq<nat>) {
    forall i, j :: 0 <= i < j < |s| ==> s[i] != s[j]
  }

  ghost predicate Within(s: seq<nat>, n: nat) {
    forall i :: 0 <= i < |s| ==> s[i] < n
  }

  lemma {:induction false} RestSame(n: nat, gone: seq<nat>, gone': seq<nat>)
    requires forall c :: 0 <= c < n ==> (c in gone <==> c in gone')
    ensures Rest(n, gone) == Rest(n, gone')
  {
    if n > 0 {
      RestSame(n - 1, gone, gone');
    }
  }

  /** A column that is left stands where the columns left before it end. */
  lemma {:induction false} RestAt(n: nat, gone: seq<nat>, c: nat)
    requires c < n && c !in gone
    ensures var q := |Rest(c, gone)|;
      && q < |Rest(n, gone)| && Rest(n, gone)[q] == c
      && Rest(n, gone + [c]) == Without(Rest(n, gone), q)
  {
    if n - 1 == c {
      RestSame(c, gone, gone + [c]);
      assert Without(Rest(c, gone) + [c], |Rest(c, gone)|) == Rest(c, gone);
    } else {
      RestAt(n - 1, gone, c);
      assert n - 1 in gone + [c] <==> n - 1 in gone;
      if n - 1 !in gone {
        var rest, q := Rest(n - 1, gone), |Rest(c, gone)|;
        assert Without(rest + [n - 1], q) == Without(rest, q) + [n - 1];
      }
    }
  }

  lemma {:induction false} BelowAppend(index: nat, a: seq<nat>, b: seq<nat>)
    ensures CountBelow(index, a + b) == CountBelow(index, a) + CountBelow(index, b)
  {
    if |b| == 0 {
      assert a + b == a;
    } else {
      BelowAppend(index, a, b[..|b| - 1]);
      assert (a + b)[..|a + b| - 1] == a + b[..|b| - 1];
    }
  }

  /** Of columns none of which repeats, one more lies below c + 1 than below c if c is one. */
  lemma {:induction false} BelowNext(c: nat, s: seq<nat>)
    requires Unlike(s)
    ensures CountBelow(c + 1, s) == CountBelow(c, s) + (if c in s then 1 else 0)
  {
    if |s| > 0 {
      BelowNext(c, s[..|s| - 1]);
      assert c in s <==> c in s[..|s| - 1] || c == s[|s| - 1];
    }
  }

  lemma {:induction false} BelowNone(s: seq<nat>)
    ensures CountBelow(0, s) == 0
  {
    if |s| > 0 {
      BelowNone(s[..|s| - 1]);
    }
  }

  lemma {:induction false} BelowAll(index: nat, s: seq<nat>)
    requires Within(s, index)
    ensures CountBelow(index, s) == |s|
  {
    if |s| > 0 {
      BelowAll(index, s[..|s| - 1]);
    }
  }

  /** The columns left before c: all before it but those gone. */
  lemma {:induction false} RestSize(c: nat, gone: seq<nat>)
    requires Unlike(gone)
    ensures |Rest(c, gone)| + CountBelow(c, gone) == c
  {
    if c == 0 {
      BelowNone(gone);
    } else {
      RestSize(c - 1, gone);
      BelowNext(c - 1, gone);
    }
  }

  lemma WithoutSelect<T>(row: seq<T>, columns: seq<nat>, k: nat)
    requires Within(columns, |row|) && k < |columns|
    ensures Within(Without(columns, k), |row|)
    ensures Without(Select(row, columns), k) == Select(row, Without(columns, k))
  {
  }

  lemma SelectAppend<T>(row: seq<T>, columns: seq<nat>, c: nat)
    requires Within(columns, |row|) && c < |row|
    ensures Select(row, columns) + [row[c]] == Select(row, columns + [c])
  {
  }

  lemma LeftAt(n: nat, gone: seq<nat>, c: nat)
    requires c < n && c !in gone && Unlike(gone)
    ensures var k := c - CountBelow(c, gone);
      0 <= k < |Rest(n, gone)| && Rest(n, gone)[k] == c && Rest(n, gone + [c]) == Without(Rest(n, gone), k)
  {
    hide Rest;
    RestSize(c, gone);
    RestAt(n, gone, c);
  }

  lemma WithoutFront(a: seq<nat>, b: seq<nat>, k: nat)
    requires k < |a|
    ensures Without(a + b, k) == Without(a, k) + b
  {
  }

  /** Taking out the column c, with some columns moved behind the rest. */
  lemma TakeOut<T>(row: seq<T>, gone: seq<nat>, behind: seq<nat>, c: nat)
    requires Within(behind, |row|) && c < |row| && c !in gone && Unlike(gone)
    ensures var k := c - CountBelow(c, gone);
      && 0 <= k < |Rest(|row|, gone)|
      && Select(row, Rest(|row|, gone) + behind)[k] == row[c]
      && Without(Select(row, Rest(|row|, gone) + behind), k) == Select(row, Rest(|row|, gone + [c]) + behind)
  {
    hide Rest;
    hide CountBelow;
    hide Without;
    LeftAt(|row|, gone, c);
    var k := c - CountBelow(c, gone);
    var rest := Rest(|row|, gone);
    WithoutSelect(row, rest + behind, k);
    WithoutFront(rest, behind, k);
    assert (rest + behind)[k] == c;
  }

  lemma {:induction false} RestAll(n: nat)
    ensures |Rest(n, [])| == n && forall q :: 0 <= q < n ==> Rest(n, [])[q] == q
  {
    if n > 0 {
      RestAll(n - 1);
    }
  }

  /** Moving: the untouched columns in order, then the classes in order. */
  lemma {:induction false} MovedColumns<T>(row: seq<T>, classes: seq<nat>, n: nat)
    requires Increasing(classes) && Within(classes, |row|) && n <= |classes|
    ensures Moved(row, classes, n) == Some(Select(row, Rest(|row|, classes[..n]) + classes[..n]))
  {
    hide Rest;
    hide CountBelow;
    hide Without;
    if n == 0 {
      RestAll(|row|);
      assert Select(row, Rest(|row|, []) + []) == row;
    } else {
      var c, gone := classes[n - 1], classes[..n - 1];
      MovedColumns(row, classes, n - 1);
      BelowAll(c, gone);
      TakeOut(row, gone, gone, c);
      assert gone + [c] == classes[..n];
      var rest := Rest(|row|, classes[..n]);
      SelectAppend(row, rest + gone, c);
      assert rest + gone + [c] == rest + classes[..n];
      hide Select;
    }
  }

  lemma UnlikeConcat(a: seq<nat>, b: seq<nat>)
    requires Unlike(a) && Unlike(b) && forall c :: c in b ==> c !in a
    ensures Unlike(a + b)
  {
    forall i, j | 0 <= i < j < |a + b| ensures (a + b)[i] != (a + b)[j] {
      if i < |a| <= j {
        assert b[j - |a|] in b && a[i] in a;
      }
    }
  }

  /** Removing after moving: the columns neither moved nor removed in order, then the classes. */
  lemma {:induction false} RemovedColumns<T>(row: seq<T>, classes: seq<nat>, ids: seq<nat>, n: nat)
    requires Increasing(classes) && Within(classes, |row|) && Increasing(ids) && Within(ids, |row|) && n <= |ids|
    requires forall c :: c in ids ==> c !in classes
    ensures Removed(Select(row, Rest(|row|, classes) + classes), ids, classes, n)
      == Some(Select(row, Rest(|row|, classes + ids[..n]) + classes))
  {
    hide Rest;
    hide CountBelow;
    hide Without;
    hide Select;
    if n == 0 {
      assert classes + [] == classes;
    } else {
      var c, gone := ids[n - 1], classes + ids[..n - 1];
      RemovedColumns(row, classes, ids, n - 1);
      UnlikeConcat(classes, ids[..n - 1]);
      BelowAppend(c, classes, ids[..n - 1]);
      BelowAll(c, ids[..n - 1]);
      TakeOut(row, gone, classes, c);
      assert gone + [c] == classes + ids[..n];
    }
  }

  function Insert(x: nat, s: seq<nat>): (r: seq<nat>)
    requires Sorted(s)
    ensures Sorted(r) && multiset(r) == multiset{x} + multiset(s) && |r| == |s| + 1
    ensures r[0] == x || (|s| > 0 && r[0] == s[0] <= x)
  {
    if |s| == 0 || x <= s[0] then [x] + s
    else
      assert s == [s[0]] + s[1..];
      var r := Insert(x, s[1..]);
      assert forall i :: 0 < i < |r| ==> r[0] <= r[i];
      [s[0]] + r
  }

  /** `sorted`. */
  function SortIds(s: seq<nat>): (r: seq<nat>)
    ensures Sorted(r) && multiset(r) == multiset(s) && |r| == |s|
  {
    if |s| == 0 then [] else assert s == [s[0]] + s[1..]; Insert(s[0], SortIds(s[1..]))
  }

  /** What the program does to one row: nothing is removed unless some column was asked to be, and
      then the binarised ones go with it. */
  function Arranged<T>(row: seq<T>, classes: seq<nat>, binarize: seq<nat>, remove: seq<nat>): (r: Option<seq<T>>) {
    var moved := Moved(row, classes, |classes|);
    if remove == [] || moved.None? then moved
    else Removed(moved.value, SortIds(remove + binarize), classes, |remove + binarize|)
  }

  /** The columns in the order they should come out in. */
  function Intended<T>(row: seq<T>, classes: seq<nat>, ids: seq<nat>): seq<T>
    requires Within(classes, |row|)
  {
    Select(row, Rest(|row|, classes + ids) + classes)
  }

  lemma {:induction false} RestLarge(n: nat, gone: seq<nat>)
    ensures |Rest(n, gone)| + |gone| >= n
    ensures !Unlike(gone) ==> |Rest(n, gone)| + |gone| > n
  {
    if |gone| == 0 {
      RestAll(n);
    } else {
      var front, x := gone[..|gone| - 1], gone[|gone| - 1];
      RestLarge(n, front);
      assert gone == front + [x];
      if x < n && x !in front {
        RestAt(n, front, x);
      } else {
        RestSame(n, front, gone);
      }
    }
  }

  lemma SortKeeps(s: seq<nat>, n: nat, classes: seq<nat>)
    requires Within(s, n) && forall c :: c in s ==> c !in classes
    ensures Within(SortIds(s), n) && forall c :: c in SortIds(s) ==> c !in classes
  {
    var r := SortIds(s);
    forall i | 0 <= i < |r| ensures r[i] in s {
      assert r[i] in multiset(r);
    }
  }

  lemma RepeatsTell(classes: seq<nat>, ids: seq<nat>)
    requires Sorted(classes) && Sorted(ids) && !(Increasing(classes) && Increasing(ids))
    ensures !Unlike(classes + ids)
  {
    var all := classes + ids;
    if i, j :| 0 <= i < j < |classes| && classes[i] >= classes[j] {
      assert all[i] == all[j];
    } else {
      var i, j :| 0 <= i < j < |ids| && ids[i] >= ids[j];
      assert all[|classes| + i] == all[|classes| + j];
    }
  }

  /** The two edits with columns to remove that are sorted. */
  lemma EditedAsIntended<T>(row: seq<T>, classes: seq<nat>, ids: seq<nat>)
    requires Sorted(classes) && Within(classes, |row|) && Sorted(ids) && Within(ids, |row|)
    requires forall c :: c in ids ==> c !in classes
    ensures var moved := Moved(row, classes, |classes|);
      moved.Some? && Removed(moved.value, ids, classes, |ids|) == Some(Intended(row, classes, ids))
      <==> Increasing(classes) && Increasing(ids)
  {
    hide Rest;
    hide CountBelow;
    hide Select;
    hide Moved;
    hide Removed;
    if Increasing(classes) && Increasing(ids) {
      MovedColumns(row, classes, |classes|);
      assert classes[..|classes|] == classes && ids[..|ids|] == ids;
      RemovedColumns(row, classes, ids, |ids|);
    } else {
      hide Increasing;
      RepeatsTell(classes, ids);
      RestLarge(|row|, classes + ids);
    }
  }

  /** The exact condition: with sorted classes and columns to remove that are no classes, all within
      the row, the row comes out as intended if and only if no column is named twice. */
  lemma ArrangedAsIntended<T>(row: seq<T>, classes: seq<nat>, binarize: seq<nat>, remove: seq<nat>)
    requires Sorted(classes) && Within(classes, |row|) && Within(remove + binarize, |row|) && remove != []
    requires forall c :: c in remove + binarize ==> c !in classes
    ensures Arranged(row, classes, binarize, remove) == Some(Intended(row, classes, SortIds(remove + binarize)))
      <==> Increasing(classes) && Increasing(SortIds(remove + binarize))
  {
    hide SortIds;
    SortKeeps(remove + binarize, |row|, classes);
    EditedAsIntended(row, classes, SortIds(remove + binarize));
  }

  lemma {:induction false} RestShrinks(n: nat, gone: seq<nat>, more: seq<nat>)
    ensures |Rest(n, gone + more)| <= |Rest(n, gone)|
  {
    if n > 0 {
      RestShrinks(n - 1, gone, more);
    }
  }

  /** Asked to binarise but not to remove, the program keeps the nominal columns: the row comes
      out without them only if there are none. */
  lemma BinarizedOnly<T>(row: seq<T>, classes: seq<nat>, binarize: seq<nat>)
    requires Increasing(classes) && Within(classes, |row|) && Within(binarize, |row|)
    requires forall c :: c in binarize ==> c !in classes
    ensures Arranged(row, classes, binarize, []) == Some(Intended(row, classes, []))
    ensures Arranged(row, classes, binarize, []) == Some(Intended(row, classes, SortIds(binarize))) <==> binarize == []
  {
    hide Rest;
    hide Moved;
    hide SortIds;
    var ids := SortIds(binarize);
    MovedColumns(row, classes, |classes|);
    assert classes[..|classes|] == classes && classes + [] == classes;
    if binarize != [] {
      SortKeeps(binarize, |row|, classes);
      RestAt(|row|, classes, ids[0]);
      RestShrinks(|row|, classes + [ids[0]], ids[1..]);
      assert classes + [ids[0]] + ids[1..] == classes + ids;
    } else {
      assert ids == [];
    }
  }

  lemma {:induction false} RestBeyond(n: nat, m: nat, gone: seq<nat>)
    requires Within(gone, n)
    ensures Rest(n + m, gone) == Rest(n, gone) + seq(m, q requires 0 <= q < m => n + q)
  {
    if m > 0 {
      RestBeyond(n, m - 1, gone);
    }
  }

  /** A row with binarised columns appended: the untouched original columns, then all appended
      ones, then the classes. */
  lemma {:induction false} AppendedStay<T>(row: seq<T>, flags: seq<T>, classes: seq<nat>, ids: seq<nat>)
    requires Within(classes + ids, |row|) && Within(classes, |row|)
    ensures Within(classes, |row + flags|)
    ensures Intended(row + flags, classes, ids)
        == Select(row, Rest(|row|, classes + ids)) + flags + Select(row, classes)
  {
    var gone, n := classes + ids, |row|;
    RestBeyond(n, |flags|, gone);
    var rest := Rest(n, gone);
    assert Select(row + flags, rest) == Select(row, rest);
    assert Select(row + flags, classes) == Select(row, classes);
  }

  /** The program's two edits, on all rows: the first or the second may stop at an IndexError. */
  method Arrange<T>(rows: seq<Row<T>>, classes: seq<nat>, binarize: seq<nat>, remove: seq<nat>)
    returns (ok: bool, ghost between: seq<seq<T>>)
    requires Apart(rows)
    modifies rows
    ensures ok ==> forall j :: 0 <= j < |rows| ==>
      Arranged(old(rows[j].cells), classes, binarize, remove) == Some(rows[j].cells)
    ensures !ok && between == [] ==> MovedRows(old(Cells(rows)), Cells(rows), classes, false)
    ensures !ok && between != [] ==>
      && MovedRows(old(Cells(rows)), between, classes, true)
      && RemovedRows(between, Cells(rows), SortIds(remove + binarize), classes, false)
  {
    ghost var was := Cells(rows);
    between := [];
    ok := MoveClassesToTheEnd(rows, classes);
    if !ok {
      return;
    }
    between := Cells(rows);
    if remove != [] {
      ok := RemoveAttributes(rows, SortIds(remove + binarize), classes);
    }
    if ok {
      forall j | 0 <= j < |rows| ensures Arranged(was[j], classes, binarize, remove) == Some(rows[j].cells) {
        assert Moved(was[j], classes, |classes|) == Some(between[j]);
        assert rows[j].cells == Cells(rows)[j];
      }
    }
  }
}
