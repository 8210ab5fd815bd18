/**
 Row assembly: samples of one batch become rows, one per event and stamp, every other field of the event carried
 at its last value as of that stamp.
 */
module Rows {
  import opened Services

  datatype Value = Number(r: real) | Text(s: string) | Truth(b: bool)

  /** One decoded sample; no value when the node is Bad, empty or undecodable. */
  datatype Sample = Sample(event: string, field: string, stamp: int, value: Option<Value>)

  /** A value and when it was sampled; rows carry the value, the stamp shows where it came from. */
  datatype Cell = Cell(at: int, value: Value)

  type Field = (string, string)  // event, field

  type Latest = map<Field, Cell>

  datatype Row = Row(event: string, stamp: int, cells: map<string, Cell>)

  predicate Of(x: Sample, e: string, f: string) {
    x.event == e && x.field == f
  }

  /** The cell kept of two: the one sampled later, the second on ties. */
  function Newer(cur: Option<Cell>, c: Cell): Option<Cell> {
    if cur.None? || cur.value.at <= c.at then Some(c) else cur
  }

  function Over(cur: Option<Cell>, next: Option<Cell>): Option<Cell> {
    if next.None? then cur else Newer(cur, next.value)
  }

  /** A field's newest usable sample in the batch, of those stamped `n` or before. */
  function Best(batch: seq<Sample>, e: string, f: string, n: int): Option<Cell> {
    if batch == [] then None else
      var k := |batch| - 1;
      var before := Best(batch[..k], e, f, n);
      if Of(batch[k], e, f) && batch[k].value.Some? && batch[k].stamp <= n
      then Newer(before, Cell(batch[k].stamp, batch[k].value.value)) else before
  }

  /** Which sample that is: the greatest stamp, the last in the batch among equals. */
  ghost predicate IsNewest(batch: seq<Sample>, e: string, f: string, n: int, i: nat) {
    && i < |batch| && Usable(batch[i], e, f, n)
    && forall j :: 0 <= j < |batch| && Usable(batch[j], e, f, n) ==>
         batch[j].stamp <= batch[i].stamp && (batch[j].stamp == batch[i].stamp ==> j <= i)
  }

  predicate Usable(x: Sample, e: string, f: string, n: int) {
    Of(x, e, f) && x.value.Some? && x.stamp <= n
  }

  /** The position of that sample, -1 if there is none. */
  lemma {:induction false} NewestAt(batch: seq<Sample>, e: string, f: string, n: int) returns (i: int)
    ensures -1 <= i < |batch|
    ensures i < 0 ==> Best(batch, e, f, n).None? && forall j :: 0 <= j < |batch| ==> !Usable(batch[j], e, f, n)
    ensures i >= 0 ==> IsNewest(batch, e, f, n, i) && Best(batch, e, f, n) == Some(Cell(batch[i].stamp, batch[i].value.value))
  {
    i := -1;
    if batch != [] {
      var k := |batch| - 1;
      i := NewestAt(batch[..k], e, f, n);
      assert forall j :: 0 <= j < k ==> batch[..k][j] == batch[j];
      if Usable(batch[k], e, f, n) && (i < 0 || batch[i].stamp <= batch[k].stamp) {
        i := k;
      }
    }
  }

  lemma BestIsNewest(batch: seq<Sample>, e: string, f: string, n: int)
    ensures Best(batch, e, f, n).None? <==> forall i :: 0 <= i < |batch| ==> !Usable(batch[i], e, f, n)
    ensures Best(batch, e, f, n).Some? ==>
              exists i: nat :: IsNewest(batch, e, f, n, i) && Best(batch, e, f, n) == Some(Cell(batch[i].stamp, batch[i].value.value))
  {
    var i := NewestAt(batch, e, f, n);
  }

  /** The value sampled exactly at `n`, the last of several. */
  function At(batch: seq<Sample>, e: string, f: string, n: int): Option<Value> {
    if batch == [] then None else
      var k := |batch| - 1;
      if Of(batch[k], e, f) && batch[k].value.Some? && batch[k].stamp == n then batch[k].value else At(batch[..k], e, f, n)
  }

  /** Stamp by stamp: what is sampled at `n` is newest, else what was before. */
  lemma {:induction false} BestAt(batch: seq<Sample>, e: string, f: string, n: int)
    ensures Best(batch, e, f, n) ==
            if At(batch, e, f, n).Some? then Some(Cell(n, At(batch, e, f, n).value)) else Best(batch, e, f, n - 1)
    ensures forall m :: Best(batch, e, f, m).Some? ==> Best(batch, e, f, m).value.at <= m
  {
    if batch != [] {
      BestAt(batch[..|batch| - 1], e, f, n);
    }
  }

  /** Nothing sampled in between changes nothing. */
  lemma {:induction false} BestBetween(batch: seq<Sample>, e: string, f: string, a: int, b: int)
    requires a <= b && forall n :: a < n <= b ==> At(batch, e, f, n).None?
    ensures Best(batch, e, f, a) == Best(batch, e, f, b)
    decreases b - a
  {
    if a < b {
      BestBetween(batch, e, f, a, b - 1);
      BestAt(batch, e, f, b);
    }
  }

  predicate AnyBad(batch: seq<Sample>, e: string, f: string) {
    exists i :: 0 <= i < |batch| && Of(batch[i], e, f) && batch[i].value.None?
  }

  predicate Sampled(batch: seq<Sample>, e: string, n: int) {
    exists i :: 0 <= i < |batch| && batch[i].event == e && batch[i].stamp == n && batch[i].value.Some?
  }

  function Top(batch: seq<Sample>): int {
    if batch == [] then 0 else
      var k := |batch| - 1;
      if batch[k].stamp > Top(batch[..k]) then batch[k].stamp else Top(batch[..k])
  }

  /** What is known of a field once the batch's Bad samples are applied: they come before any good one. */
  function Kept(batch: seq<Sample>, e: string, f: string, cur: Option<Cell>): Option<Cell> {
    if AnyBad(batch, e, f) then None else cur
  }

  /** And once its good samples up to `n` are. */
  function After(batch: seq<Sample>, e: string, f: string, cur: Option<Cell>, n: int): Option<Cell> {
    Over(Kept(batch, e, f, cur), Best(batch, e, f, n))
  }

  /** A field in the row of its event at `n`: the value sampled then, else the one known, if not from later. */
  function RowCell(batch: seq<Sample>, e: string, f: string, cur: Option<Cell>, n: int): Option<Cell> {
    if At(batch, e, f, n).Some? then Some(Cell(n, At(batch, e, f, n).value)) else
      var c := After(batch, e, f, cur, n);
      if c.Some? && c.value.at <= n then c else None
  }

  /** The rows of a batch: one per declared event and stamp sampled, in stamp order. */
  ghost predicate RowsOf(batch: seq<Sample>, declared: set<string>, last: Latest, rows: seq<Row>) {
    && (forall i, j :: 0 <= i < j < |rows| ==>
          rows[i].stamp <= rows[j].stamp && (rows[i].event == rows[j].event ==> rows[i].stamp < rows[j].stamp))
    && (forall i :: 0 <= i < |rows| ==> rows[i].event in declared && Sampled(batch, rows[i].event, rows[i].stamp))
    && (forall e, n :: e in declared && Sampled(batch, e, n) ==> HasRow(rows, e, n))
    && (forall i :: 0 <= i < |rows| ==> IsRow(batch, last, rows[i]))
  }

  ghost predicate HasRow(rows: seq<Row>, e: string, n: int) {
    exists i :: 0 <= i < |rows| && rows[i].event == e && rows[i].stamp == n
  }

  ghost predicate IsRow(batch: seq<Sample>, last: Latest, row: Row) {
    forall f :: Get(row.cells, f) == RowCell(batch, row.event, f, Get(last, (row.event, f)), row.stamp)
  }

  // ------------------------------------------------------------ what a row carries

  /** A field's last value, unless a sample of the batch says the field is Bad. */
  ghost predicate Stays(batch: seq<Sample>, last: Latest, e: string, f: string, c: Cell) {
    && (e, f) in last && last[(e, f)] == c
    && forall j :: 0 <= j < |batch| && Of(batch[j], e, f) ==> batch[j].value.Some?
  }

  /** Carried from before the batch: a last value that stays, not from after `n`, and later than every usable sample up
      to `n`. */
  ghost predicate FromLast(batch: seq<Sample>, last: Latest, e: string, f: string, n: int, c: Cell) {
    && Stays(batch, last, e, f, c) && c.at <= n
    && forall j :: 0 <= j < |batch| && Usable(batch[j], e, f, n) ==> batch[j].stamp < c.at
  }

  /** From the batch: its newest usable sample up to `n`, if that is from `n` or no last value is later. */
  ghost predicate FromBatch(batch: seq<Sample>, last: Latest, e: string, f: string, n: int, c: Cell) {
    exists j: nat ::
      && IsNewest(batch, e, f, n, j) && c == Cell(batch[j].stamp, batch[j].value.value)
      && (c.at == n || forall d :: Stays(batch, last, e, f, d) ==> d.at <= c.at)
  }

  /** The row has every field known by its stamp, each at its newest value, and no other. */
  ghost predicate Carries(batch: seq<Sample>, last: Latest, row: Row) {
    forall f, c :: Get(row.cells, f) == Some(c) <==>
                     FromLast(batch, last, row.event, f, row.stamp, c) || FromBatch(batch, last, row.event, f, row.stamp, c)
  }

  lemma CellIff(batch: seq<Sample>, last: Latest, e: string, f: string, n: int, c: Cell)
    ensures RowCell(batch, e, f, Get(last, (e, f)), n) == Some(c) <==>
              FromLast(batch, last, e, f, n, c) || FromBatch(batch, last, e, f, n, c)
  {
    var cur := Get(last, (e, f));
    var i := NewestAt(batch, e, f, n);
    AtIff(batch, e, f, n);
    assert forall d :: Stays(batch, last, e, f, d) <==> Kept(batch, e, f, cur) == Some(d);
    if i >= 0 {
      var best := Cell(batch[i].stamp, batch[i].value.value);
      assert FromBatch(batch, last, e, f, n, best) <==>
             best.at == n || forall d :: Stays(batch, last, e, f, d) ==> d.at <= best.at;
      assert FromBatch(batch, last, e, f, n, c) ==> c == best;
      assert Usable(batch[i], e, f, n);
    }
  }

  lemma RowCarries(batch: seq<Sample>, last: Latest, row: Row)
    requires IsRow(batch, last, row)
    ensures Carries(batch, last, row)
  {
    forall f, c
      ensures Get(row.cells, f) == Some(c) <==>
                FromLast(batch, last, row.event, f, row.stamp, c) || FromBatch(batch, last, row.event, f, row.stamp, c)
    {
      CellIff(batch, last, row.event, f, row.stamp, c);
    }
  }

  lemma AllCarry(batch: seq<Sample>, declared: set<string>, last: Latest, rows: seq<Row>)
    requires RowsOf(batch, declared, last, rows)
    ensures forall i :: 0 <= i < |rows| ==> Carries(batch, last, rows[i])
  {
    forall i | 0 <= i < |rows|
      ensures Carries(batch, last, rows[i])
    {
      RowCarries(batch, last, rows[i]);
    }
  }

  type Key = (string, int)  // event, stamp

  type Pending = map<Key, map<string, Value>>

  class Sampler {
    var declared: set<string>
    var last: Latest
    var log: seq<Row>

    constructor (declared: set<string>)
      ensures this.declared == declared && last == map[] && log == []
    {
      this.declared, last, log := declared, map[], [];
    }

    /** Logs a batch. */
    method LogSamples(batch: seq<Sample>)
      modifies `last, `log
      ensures |old(log)| <= |log| && log[..|old(log)|] == old(log)
      ensures RowsOf(batch, declared, old(last), log[|old(log)|..])
      ensures forall i :: |old(log)| <= i < |log| ==> Carries(batch, old(last), log[i])
      ensures forall e, f :: Get(last, (e, f)) == Final(batch, declared, e, f, Get(old(last), (e, f)))
    {
      var keys, rows := Collect(batch);
      ghost var base, level := old(last), Low(batch);
      Started(batch, declared, base, keys, last);
      var logged: seq<Row> := [];
      while keys != []
        invariant Underway(batch, declared, base, keys, level, last, logged) && Pends(batch, keys, rows)
        invariant log == old(log) && declared == old(declared)
        decreases |keys|
      {
        var i := Earliest(keys);
        ghost var was, had := last, logged;
        var (e, n) := keys[i];
        if e in declared {
          var row;
          row, last := RowAt(last, e, n, rows[(e, n)]);
          logged := logged + [row];
          Stepped(batch, declared, base, keys, i, level, was, last, had, row);
        } else {
          Skipped(batch, declared, base, keys, i, level, was, had);
        }
        keys := keys[..i] + keys[i + 1..];
        level := n;
      }
      Finished(batch, declared, base, level, last, logged);
      AllCarry(batch, declared, base, logged);
      log := log + logged;
      assert log[|old(log)|..] == logged;
    }

    /** A node no longer mapped stops riding its event's rows. */
    method Resolve(mapped: set<Field>)
      modifies `last
      ensures forall e, f :: Get(last, (e, f)) == if (e, f) in mapped then Get(old(last), (e, f)) else None
    {
      last := map k | k in last && k in mapped :: last[k];
    }

    /** A new session's values start unknown. */
    method NewSession()
      modifies `last
      ensures last == map[]
    {
      last := map[];
    }

    /** Applies the Bad samples; the good ones by event and stamp, in the order first met. */
    method Collect(batch: seq<Sample>) returns (keys: seq<Key>, rows: Pending)
      modifies `last
      ensures forall e, f :: Get(last, (e, f)) == Kept(batch, e, f, Get(old(last), (e, f)))
      ensures Collected(batch, keys, rows)
    {
      keys, rows := [], map[];
      var i := 0;
      assert batch[..0] == [];
      while i < |batch|
        invariant 0 <= i <= |batch|
        invariant forall e, f :: Get(last, (e, f)) == Kept(batch[..i], e, f, Get(old(last), (e, f)))
        invariant Collected(batch[..i], keys, rows) && forall k :: k in rows <==> k in keys
      {
        var x := batch[i];
        assert batch[..i + 1] == batch[..i] + [x];
        OneMore(batch[..i], x);
        if x.value.None? {
          last := last - {(x.event, x.field)};
        } else {
          keys, rows := Gather(batch[..i], x, keys, rows);
        }
        i := i + 1;
      }
      assert batch[..i] == batch;
    }
  }

  function Final(batch: seq<Sample>, declared: set<string>, e: string, f: string, cur: Option<Cell>): Option<Cell> {
    if e in declared then After(batch, e, f, cur, Top(batch)) else Kept(batch, e, f, cur)
  }

  /** Each key once; under it, each field sampled and its value. */
  ghost predicate Collected(batch: seq<Sample>, keys: seq<Key>, rows: Pending) {
    && Distinct(keys)
    && (forall k :: k in keys <==> Sampled(batch, k.0, k.1))
    && Pends(batch, keys, rows)
  }

  ghost predicate Distinct(keys: seq<Key>) {
    forall i, j :: 0 <= i < j < |keys| ==> keys[i] != keys[j]
  }

  ghost predicate Pends(batch: seq<Sample>, keys: seq<Key>, rows: Pending) {
    forall k :: k in keys ==> k in rows && forall f :: Get(rows[k], f) == At(batch, k.0, f, k.1)
  }

  method Gather(before: seq<Sample>, x: Sample, keys0: seq<Key>, rows0: Pending) returns (keys: seq<Key>, rows: Pending)
    requires Collected(before, keys0, rows0) && x.value.Some? && forall k :: k in rows0 <==> k in keys0
    ensures Collected(before + [x], keys, rows) && forall k :: k in rows <==> k in keys
  {
    var key := (x.event, x.stamp);
    keys, rows := keys0, rows0;
    if key !in rows {
      keys, rows := keys + [key], rows[key := map[]];
      Unsampled(before, key.0, key.1);
    }
    rows := rows[key := rows[key][x.field := x.value.value]];
    OneMore(before, x);
  }

  lemma {:induction false} Unsampled(batch: seq<Sample>, e: string, n: int)
    requires !Sampled(batch, e, n)
    ensures forall f :: At(batch, e, f, n).None?
  {
    if batch != [] {
      var k := |batch| - 1;
      assert batch[k].event == e && batch[k].value.Some? ==> batch[k].stamp != n;
      assert forall i :: 0 <= i < k ==> batch[..k][i] == batch[i];
      Unsampled(batch[..k], e, n);
    }
  }

  lemma OneMore(before: seq<Sample>, x: Sample)
    ensures forall e, n :: Sampled(before + [x], e, n) <==>
              Sampled(before, e, n) || (x.value.Some? && e == x.event && n == x.stamp)
    ensures forall e, f, n :: At(before + [x], e, f, n) ==
              if Of(x, e, f) && x.value.Some? && x.stamp == n then x.value else At(before, e, f, n)
    ensures forall e, f :: AnyBad(before + [x], e, f) <==> AnyBad(before, e, f) || (Of(x, e, f) && x.value.None?)
  {
    var all := before + [x];
    assert all[..|before|] == before && all[|before|] == x;
    assert forall i :: 0 <= i < |before| ==> all[i] == before[i];
  }

  /** Below every stamp. */
  ghost function Low(batch: seq<Sample>): (n: int)
    ensures forall i :: 0 <= i < |batch| ==> n < batch[i].stamp
  {
    if batch == [] then 0 else
      var k := |batch| - 1;
      var n := Low(batch[..k]);
      assert forall i :: 0 <= i < k ==> batch[..k][i] == batch[i];
      if batch[k].stamp <= n then batch[k].stamp - 1 else n
  }

  /** The first key of the smallest stamp. */
  method Earliest(keys: seq<Key>) returns (i: nat)
    requires keys != []
    ensures i < |keys| && forall j :: 0 <= j < |keys| ==> keys[i].1 <= keys[j].1
    ensures forall j :: 0 <= j < i ==> keys[i].1 < keys[j].1
  {
    i := 0;
    var k := 1;
    while k < |keys|
      invariant 1 <= k <= |keys| && i < k
      invariant forall j :: 0 <= j < k ==> keys[i].1 <= keys[j].1
      invariant forall j :: 0 <= j < i ==> keys[i].1 < keys[j].1
    {
      if keys[k].1 < keys[i].1 {
        i := k;
      }
      k := k + 1;
    }
  }

  /** A field after a row: sampled in it, it becomes the last known unless that is from later. */
  function Advanced(cur: Option<Cell>, sampled: Option<Value>, n: int): Option<Cell> {
    if sampled.Some? then Newer(cur, Cell(n, sampled.value)) else cur
  }

  /** A field in a row. */
  function Shown(cur: Option<Cell>, sampled: Option<Value>, n: int): Option<Cell> {
    if sampled.Some? then Some(Cell(n, sampled.value))
    else if cur.Some? && cur.value.at <= n then cur else None
  }

  /** What the row at `n` carries of an event. */
  function Carried(last: Latest, e: string, n: int): (r: map<string, Cell>)
    ensures forall f :: Get(r, f) == Shown(Get(last, (e, f)), None, n)
  {
    var r := map k | k in last && k.0 == e && last[k].at <= n :: k.1 := last[k];
    assert forall f :: (e, f) in last && last[(e, f)].at <= n ==> (e, f).1 in r;
    r
  }

  function Updated(last: Latest, e: string, n: int, fields: map<string, Value>): (r: Latest)
    ensures forall d, f :: Get(r, (d, f)) == if d == e then Advanced(Get(last, (e, f)), Get(fields, f), n) else Get(last, (d, f))
  {
    var newer: Latest := map f | f in fields && ((e, f) !in last || last[(e, f)].at <= n) :: (e, f) := Cell(n, fields[f]);
    assert forall f :: (e, f) in newer <==> f in fields && ((e, f) !in last || last[(e, f)].at <= n);
    last + newer
  }

  method RowAt(last0: Latest, e: string, n: int, fields: map<string, Value>) returns (row: Row, last: Latest)
    ensures row.event == e && row.stamp == n
    ensures forall f :: f in fields ==> Get(row.cells, f) == Some(Cell(n, fields[f]))
    ensures forall f :: f !in fields ==> (f in row.cells <==> (e, f) in last0 && last0[(e, f)].at <= n)
    ensures forall f :: f !in fields && f in row.cells ==> (e, f) in last0 && row.cells[f] == last0[(e, f)]
    ensures forall f :: Get(row.cells, f) == Shown(Get(last0, (e, f)), Get(fields, f), n)
    ensures forall d, f :: Get(last, (d, f)) == if d == e then Advanced(Get(last0, (e, f)), Get(fields, f), n) else Get(last0, (d, f))
  {
    row := Row(e, n, CellsOf(last0, e, n, fields));
    last := Updated(last0, e, n, fields);
  }

  function CellsOf(last: Latest, e: string, n: int, fields: map<string, Value>): (r: map<string, Cell>)
    ensures forall f :: Get(r, f) == Shown(Get(last, (e, f)), Get(fields, f), n)
  {
    var carried, sampled := Carried(last, e, n), map f | f in fields :: Cell(n, fields[f]);
    assert forall f :: Get(carried, f) == Shown(Get(last, (e, f)), None, n);
    carried + sampled
  }

  /** Up to which stamp an event's rows are done, those left being no earlier than `level`. */
  ghost function Bound(left: seq<Key>, level: int, e: string): int {
    if (e, level) in left then level - 1 else level
  }

  /** Between two rows: the keys left are no earlier than `level`; the others have their rows, in order; what is
      known is what the batch's samples up to there make it. */
  ghost predicate Underway(batch: seq<Sample>, declared: set<string>, base: Latest, left: seq<Key>, level: int,
                           last: Latest, logged: seq<Row>) {
    && LeftOver(batch, left, level)
    && InOrder(logged, level)
    && (forall i :: 0 <= i < |logged| ==> IsRow(batch, base, logged[i]) && Done(batch, declared, left, logged[i]))
    && (forall e, n :: e in declared && Sampled(batch, e, n) && (e, n) !in left ==> HasRow(logged, e, n))
    && (forall e, f :: Get(last, (e, f)) == Known(batch, declared, base, e, f, Bound(left, level, e)))
  }

  ghost predicate LeftOver(batch: seq<Sample>, left: seq<Key>, level: int) {
    && Distinct(left)
    && (forall k :: k in left ==> Sampled(batch, k.0, k.1) && k.1 >= level)
    && (forall e, n :: Sampled(batch, e, n) && n > level ==> (e, n) in left)
  }

  ghost predicate InOrder(rows: seq<Row>, level: int) {
    && (forall i, j :: 0 <= i < j < |rows| ==>
          rows[i].stamp <= rows[j].stamp && (rows[i].event == rows[j].event ==> rows[i].stamp < rows[j].stamp))
    && forall i :: 0 <= i < |rows| ==> rows[i].stamp <= level
  }

  ghost predicate Done(batch: seq<Sample>, declared: set<string>, left: seq<Key>, row: Row) {
    row.event in declared && Sampled(batch, row.event, row.stamp) && (row.event, row.stamp) !in left
  }

  ghost function Known(batch: seq<Sample>, declared: set<string>, base: Latest, e: string, f: string, n: int): Option<Cell> {
    if e in declared then After(batch, e, f, Get(base, (e, f)), n) else Kept(batch, e, f, Get(base, (e, f)))
  }

  lemma NoneBefore(batch: seq<Sample>, e: string, f: string, n: int)
    requires forall i :: 0 <= i < |batch| ==> n < batch[i].stamp
    ensures Best(batch, e, f, n).None?
  {
    BestIsNewest(batch, e, f, n);
  }

  lemma Started(batch: seq<Sample>, declared: set<string>, base: Latest, keys: seq<Key>, last: Latest)
    requires Distinct(keys) && forall k :: k in keys <==> Sampled(batch, k.0, k.1)
    requires forall e, f :: Get(last, (e, f)) == Kept(batch, e, f, Get(base, (e, f)))
    ensures Underway(batch, declared, base, keys, Low(batch), last, [])
  {
    var low := Low(batch);
    forall e, f
      ensures Get(last, (e, f)) == Known(batch, declared, base, e, f, Bound(keys, low, e))
    {
      NoneBefore(batch, e, f, low);
    }
    forall e, n | Sampled(batch, e, n)
      ensures (e, n) in keys
    {
      assert Sampled(batch, (e, n).0, (e, n).1);
    }
  }

  /** What is known of an event just before its next row. */
  lemma KnownBefore(batch: seq<Sample>, left: seq<Key>, level: int, i: nat, e: string, f: string)
    requires LeftOver(batch, left, level) && i < |left| && forall j :: 0 <= j < |left| ==> left[i].1 <= left[j].1
    ensures var n := left[i].1; var rest := left[..i] + left[i + 1..];
            && (e == left[i].0 ==> Best(batch, e, f, Bound(left, level, e)) == Best(batch, e, f, n - 1) && Bound(rest, n, e) == n)
            && (e != left[i].0 ==> Best(batch, e, f, Bound(left, level, e)) == Best(batch, e, f, Bound(rest, n, e)))
  {
    var n := left[i].1;
    var rest := left[..i] + left[i + 1..];
    var a, b := Bound(left, level, e), if e == left[i].0 then n - 1 else Bound(rest, n, e);
    LeftAfter(batch, left, level, i);
    forall m | a < m <= b
      ensures At(batch, e, f, m).None?
    {
      if !Sampled(batch, e, m) {
        Unsampled(batch, e, m);
      }
    }
    BestBetween(batch, e, f, a, b);
  }

  lemma LeftAfter(batch: seq<Sample>, left: seq<Key>, level: int, i: nat)
    requires LeftOver(batch, left, level) && i < |left| && forall j :: 0 <= j < |left| ==> left[i].1 <= left[j].1
    ensures var rest := left[..i] + left[i + 1..];
            LeftOver(batch, rest, left[i].1) && left[i] !in rest && forall k :: k in left <==> k in rest || k == left[i]
    ensures left[i].1 >= level && Sampled(batch, left[i].0, left[i].1)
  {
    assert left[i] in left;
  }

  /** A row of an event shows and leaves what it should. */
  lemma RowShows(batch: seq<Sample>, e: string, f: string, base: Option<Cell>, n: int)
    ensures Shown(After(batch, e, f, base, n - 1), At(batch, e, f, n), n) == RowCell(batch, e, f, base, n)
    ensures Advanced(After(batch, e, f, base, n - 1), At(batch, e, f, n), n) == After(batch, e, f, base, n)
  {
    BestAt(batch, e, f, n);
    BestAt(batch, e, f, n - 1);
  }

  lemma KnownAfter(batch: seq<Sample>, declared: set<string>, base: Latest, left: seq<Key>, i: nat, level: int,
                   was: Latest, last: Latest, d: string, f: string)
    requires LeftOver(batch, left, level) && i < |left| && forall j :: 0 <= j < |left| ==> left[i].1 <= left[j].1
    requires Get(was, (d, f)) == Known(batch, declared, base, d, f, Bound(left, level, d))
    requires d == left[i].0 && d in declared ==>
               Get(last, (d, f)) == Advanced(Get(was, (d, f)), At(batch, d, f, left[i].1), left[i].1)
    requires d != left[i].0 || d !in declared ==> Get(last, (d, f)) == Get(was, (d, f))
    ensures Get(last, (d, f)) == Known(batch, declared, base, d, f, Bound(left[..i] + left[i + 1..], left[i].1, d))
  {
    KnownBefore(batch, left, level, i, d, f);
    RowShows(batch, d, f, Get(base, (d, f)), left[i].1);
  }

  lemma Stepped(batch: seq<Sample>, declared: set<string>, base: Latest, left: seq<Key>, i: nat, level: int,
                was: Latest, last: Latest, had: seq<Row>, row: Row)
    requires Underway(batch, declared, base, left, level, was, had)
    requires i < |left| && forall j :: 0 <= j < |left| ==> left[i].1 <= left[j].1
    requires row.event == left[i].0 && row.stamp == left[i].1 && row.event in declared
    requires forall f :: Get(row.cells, f) == Shown(Get(was, (row.event, f)), At(batch, row.event, f, row.stamp), row.stamp)
    requires forall d, f :: Get(last, (d, f)) ==
               if d == row.event then Advanced(Get(was, (d, f)), At(batch, d, f, row.stamp), row.stamp) else Get(was, (d, f))
    ensures Underway(batch, declared, base, left[..i] + left[i + 1..], row.stamp, last, had + [row])
  {
    var e, n, rest := row.event, row.stamp, left[..i] + left[i + 1..];
    LeftAfter(batch, left, level, i);
    forall d, f
      ensures Get(last, (d, f)) == Known(batch, declared, base, d, f, Bound(rest, n, d))
    {
      KnownAfter(batch, declared, base, left, i, level, was, last, d, f);
    }
    forall f
      ensures Get(row.cells, f) == RowCell(batch, e, f, Get(base, (e, f)), n)
    {
      KnownBefore(batch, left, level, i, e, f);
      RowShows(batch, e, f, Get(base, (e, f)), n);
    }
    RowAdded(batch, declared, left, rest, had, row, level);
  }

  lemma RowAdded(batch: seq<Sample>, declared: set<string>, left: seq<Key>, rest: seq<Key>, had: seq<Row>, row: Row, level: int)
    requires InOrder(had, level) && row.stamp >= level
    requires forall i :: 0 <= i < |had| ==> Done(batch, declared, left, had[i])
    requires row.event in declared && Sampled(batch, row.event, row.stamp) && (row.event, row.stamp) in left
    requires (row.event, row.stamp) !in rest && forall k :: k in left <==> k in rest || k == (row.event, row.stamp)
    requires forall e, n :: e in declared && Sampled(batch, e, n) && (e, n) !in left ==> HasRow(had, e, n)
    ensures InOrder(had + [row], row.stamp)
    ensures forall i :: 0 <= i <= |had| ==> Done(batch, declared, rest, (had + [row])[i])
    ensures forall e, n :: e in declared && Sampled(batch, e, n) && (e, n) !in rest ==> HasRow(had + [row], e, n)
  {
    var rows := had + [row];
    assert rows[|had|] == row;
    forall e, n | e in declared && Sampled(batch, e, n) && (e, n) !in rest
      ensures HasRow(rows, e, n)
    {
      if (e, n) !in left {
        var i :| 0 <= i < |had| && had[i].event == e && had[i].stamp == n;
        assert rows[i] == had[i];
      }
    }
  }

  /** An event not declared gets no row and changes nothing. */
  lemma Skipped(batch: seq<Sample>, declared: set<string>, base: Latest, left: seq<Key>, i: nat, level: int,
                was: Latest, had: seq<Row>)
    requires Underway(batch, declared, base, left, level, was, had)
    requires i < |left| && left[i].0 !in declared && forall j :: 0 <= j < |left| ==> left[i].1 <= left[j].1
    ensures Underway(batch, declared, base, left[..i] + left[i + 1..], left[i].1, was, had)
  {
    var rest := left[..i] + left[i + 1..];
    LeftAfter(batch, left, level, i);
    forall d, f
      ensures Get(was, (d, f)) == Known(batch, declared, base, d, f, Bound(rest, left[i].1, d))
    {
      KnownAfter(batch, declared, base, left, i, level, was, was, d, f);
    }
  }

  lemma {:induction false} TopIsLast(batch: seq<Sample>, i: nat)
    requires i < |batch|
    ensures batch[i].stamp <= Top(batch)
  {
    if i < |batch| - 1 {
      TopIsLast(batch[..|batch| - 1], i);
    }
  }

  lemma Finished(batch: seq<Sample>, declared: set<string>, base: Latest, level: int, last: Latest, logged: seq<Row>)
    requires Underway(batch, declared, base, [], level, last, logged)
    ensures RowsOf(batch, declared, base, logged)
    ensures forall e, f :: Get(last, (e, f)) == Final(batch, declared, e, f, Get(base, (e, f)))
  {
    forall e, f
      ensures Best(batch, e, f, level) == Best(batch, e, f, Top(batch))
    {
      var a, b := if level < Top(batch) then level else Top(batch), if level < Top(batch) then Top(batch) else level;
      forall m | a < m <= b
        ensures At(batch, e, f, m).None?
      {
        if Sampled(batch, e, m) {
          var i :| 0 <= i < |batch| && batch[i].event == e && batch[i].stamp == m && batch[i].value.Some?;
          TopIsLast(batch, i);
        } else {
          Unsampled(batch, e, m);
        }
      }
      BestBetween(batch, e, f, a, b);
    }
  }

  /** No row carries a value from after it, and what was sampled at its stamp is in it. */
  lemma NoEarlyValue(batch: seq<Sample>, declared: set<string>, last: Latest, rows: seq<Row>, i: nat, f: string)
    requires RowsOf(batch, declared, last, rows) && i < |rows|
    ensures Get(rows[i].cells, f).Some? ==> Get(rows[i].cells, f).value.at <= rows[i].stamp
    ensures forall k :: 0 <= k < |batch| && Usable(batch[k], rows[i].event, f, rows[i].stamp) && batch[k].stamp == rows[i].stamp ==>
              f in rows[i].cells && rows[i].cells[f].at == rows[i].stamp
  {
    var e, n := rows[i].event, rows[i].stamp;
    assert Get(rows[i].cells, f) == RowCell(batch, e, f, Get(last, (e, f)), n);
    AtIff(batch, e, f, n);
    forall k | 0 <= k < |batch| && Usable(batch[k], e, f, n) && batch[k].stamp == n
      ensures At(batch, e, f, n).Some?
    {
      BestIsNewest(batch, e, f, n);
    }
  }

  lemma AtIff(batch: seq<Sample>, e: string, f: string, n: int)
    ensures At(batch, e, f, n).Some? <==> Best(batch, e, f, n).Some? && Best(batch, e, f, n).value.at == n
    ensures At(batch, e, f, n).Some? ==> At(batch, e, f, n).value == Best(batch, e, f, n).value.value
  {
    BestAt(batch, e, f, n);
  }

  // ------------------------------------------------------------ runs

  /** What changes the last values: a batch, with the events declared by then, the nodes mapped anew, a new session. */
  datatype Event = Logged(batch: seq<Sample>, declared: set<string>) | Resolved(mapped: set<Field>) | Fresh

  function FieldStep(cur: Option<Cell>, v: Event, e: string, f: string): Option<Cell> {
    match v
    case Logged(batch, declared) => Final(batch, declared, e, f, cur)
    case Resolved(mapped) => if (e, f) in mapped then cur else None
    case Fresh => None
  }

  function FieldRun(cur: Option<Cell>, run: seq<Event>, e: string, f: string): Option<Cell> {
    if run == [] then cur else
      var n := |run| - 1;
      FieldStep(FieldRun(cur, run[..n], e, f), run[n], e, f)
  }

  /** A field's usable samples in a batch, in order. */
  function Usables(batch: seq<Sample>, e: string, f: string): seq<Cell> {
    if batch == [] then [] else
      var k := |batch| - 1;
      Usables(batch[..k], e, f)
      + (if Of(batch[k], e, f) && batch[k].value.Some? then [Cell(batch[k].stamp, batch[k].value.value)] else [])
  }

  /** A field's usable samples since it was last Bad, unmapped or of another session. */
  function Since(run: seq<Event>, e: string, f: string): seq<Cell> {
    if run == [] then [] else
      var n := |run| - 1;
      var before := Since(run[..n], e, f);
      match run[n]
      case Logged(batch, declared) =>
        (if AnyBad(batch, e, f) then [] else before) + (if e in declared then Usables(batch, e, f) else [])
      case Resolved(mapped) => if (e, f) in mapped then before else []
      case Fresh => []
  }

  /** Of several cells, the one that stays when each is offered in turn. */
  function NewestOf(cells: seq<Cell>): Option<Cell> {
    if cells == [] then None else
      var k := |cells| - 1;
      Newer(NewestOf(cells[..k]), cells[k])
  }

  /** The greatest stamp, the last among equals. */
  ghost predicate IsLatest(cells: seq<Cell>, i: nat) {
    i < |cells| && forall j :: 0 <= j < |cells| ==> cells[j].at <= cells[i].at && (cells[j].at == cells[i].at ==> j <= i)
  }

  lemma NewestIsLatest(cells: seq<Cell>)
    ensures NewestOf(cells).None? <==> cells == []
    ensures NewestOf(cells).Some? ==> exists i: nat :: IsLatest(cells, i) && cells[i] == NewestOf(cells).value
  {
    var i := LatestAt(cells);
  }

  /** Where it is, -1 if there is none. */
  lemma {:induction false} LatestAt(cells: seq<Cell>) returns (i: int)
    ensures -1 <= i < |cells| && (i < 0 ==> NewestOf(cells).None? && cells == [])
    ensures i >= 0 ==> IsLatest(cells, i) && NewestOf(cells) == Some(cells[i])
  {
    i := -1;
    if cells != [] {
      var k := |cells| - 1;
      i := LatestAt(cells[..k]);
      assert forall j :: 0 <= j < k ==> cells[..k][j] == cells[j];
      if i < 0 || cells[i].at <= cells[k].at {
        i := k;
      }
    }
  }

  lemma {:induction false} NewestAppend(a: seq<Cell>, b: seq<Cell>)
    ensures NewestOf(a + b) == Over(NewestOf(a), NewestOf(b))
  {
    if b == [] {
      assert a + b == a;
    } else {
      var k := |b| - 1;
      assert (a + b)[..|a + b| - 1] == a + b[..k];
      NewestAppend(a, b[..k]);
    }
  }

  lemma {:induction false} BestOfUsables(batch: seq<Sample>, e: string, f: string, n: int)
    requires n >= Top(batch)
    ensures Best(batch, e, f, n) == NewestOf(Usables(batch, e, f))
  {
    if batch != [] {
      var k := |batch| - 1;
      BestOfUsables(batch[..k], e, f, n);
      if Of(batch[k], e, f) && batch[k].value.Some? {
        NewestOne(Usables(batch[..k], e, f), Cell(batch[k].stamp, batch[k].value.value));
      } else {
        assert Usables(batch, e, f) == Usables(batch[..k], e, f);
      }
    }
  }

  lemma NewestOne(cells: seq<Cell>, c: Cell)
    ensures NewestOf(cells + [c]) == Newer(NewestOf(cells), c)
  {
    assert (cells + [c])[..|cells|] == cells;
  }

  /** Over any run, what is known of a field is its newest usable sample since it was last Bad or unmapped: the
      greatest stamp, the last to come among equals, whatever the batches it came in. */
  lemma LastIsNewest(run: seq<Event>, e: string, f: string)
    ensures var last, cells := FieldRun(None, run, e, f), Since(run, e, f);
            && (last.None? <==> cells == [])
            && (last.Some? ==> exists i: nat :: IsLatest(cells, i) && cells[i] == last.value)
  {
    LastIsFolded(run, e, f);
    NewestIsLatest(Since(run, e, f));
  }

  /** A field's usable samples in a batch up to a stamp, in order. */
  function UsablesTo(batch: seq<Sample>, e: string, f: string, n: int): (r: seq<Cell>)
    ensures forall c :: c in r ==> c.at <= n
  {
    if batch == [] then [] else
      var k := |batch| - 1;
      UsablesTo(batch[..k], e, f, n)
      + (if Usable(batch[k], e, f, n) then [Cell(batch[k].stamp, batch[k].value.value)] else [])
  }

  lemma {:induction false} BestOfUsablesTo(batch: seq<Sample>, e: string, f: string, n: int)
    ensures Best(batch, e, f, n) == NewestOf(UsablesTo(batch, e, f, n))
  {
    if batch != [] {
      var k := |batch| - 1;
      BestOfUsablesTo(batch[..k], e, f, n);
      if Usable(batch[k], e, f, n) {
        NewestOne(UsablesTo(batch[..k], e, f, n), Cell(batch[k].stamp, batch[k].value.value));
      } else {
        assert UsablesTo(batch, e, f, n) == UsablesTo(batch[..k], e, f, n);
      }
    }
  }

  /** Over any run, a row shows a field's newest usable sample by its stamp since the field was last Bad or unmapped,
      batch and run alike. Only a sample from after the stamp, logged before, keeps it out unless it is sampled at the
      stamp itself. */
  lemma RowIsNewest(run: seq<Event>, batch: seq<Sample>, last: Latest, row: Row, f: string)
    requires forall e, g :: Get(last, (e, g)) == FieldRun(None, run, e, g)
    requires IsRow(batch, last, row)
    ensures var e, n := row.event, row.stamp;
            var kept, now := if AnyBad(batch, e, f) then [] else Since(run, e, f), UsablesTo(batch, e, f, n);
            var late := exists k :: 0 <= k < |kept| && kept[k].at > n;
            && (!late ==> (f in row.cells <==> kept + now != []))
            && (!late && f in row.cells ==> exists i: nat :: IsLatest(kept + now, i) && (kept + now)[i] == row.cells[f])
            && (late ==> (f in row.cells <==> exists c :: c in now && c.at == n))
            && (late && f in row.cells ==> exists i: nat :: IsLatest(now, i) && now[i] == row.cells[f])
  {
    var e, n := row.event, row.stamp;
    var kept, now := if AnyBad(batch, e, f) then [] else Since(run, e, f), UsablesTo(batch, e, f, n);
    LastIsFolded(run, e, f);
    BestOfUsablesTo(batch, e, f, n);
    NewestAppend(kept, now);
    assert Get(row.cells, f) == RowCell(batch, e, f, Get(last, (e, f)), n);
    AtIff(batch, e, f, n);
    RowOfCells(kept, now, n, Get(row.cells, f));
  }

  lemma RowOfCells(kept: seq<Cell>, now: seq<Cell>, n: int, shown: Option<Cell>)
    requires forall c :: c in now ==> c.at <= n
    requires var best, all := NewestOf(now), NewestOf(kept + now);
             && all == Over(NewestOf(kept), best)
             && shown == if best.Some? && best.value.at == n then best else if all.Some? && all.value.at <= n then all else None
    ensures var late := exists k :: 0 <= k < |kept| && kept[k].at > n;
            && (!late ==> (shown.Some? <==> kept + now != []))
            && (!late && shown.Some? ==> exists i: nat :: IsLatest(kept + now, i) && (kept + now)[i] == shown.value)
            && (late ==> (shown.Some? <==> exists c :: c in now && c.at == n))
            && (late && shown.Some? ==> exists i: nat :: IsLatest(now, i) && now[i] == shown.value)
  {
    NewestIsLatest(kept);
    NewestIsLatest(now);
    NewestIsLatest(kept + now);
  }

  lemma {:induction false} LastIsFolded(run: seq<Event>, e: string, f: string)
    ensures FieldRun(None, run, e, f) == NewestOf(Since(run, e, f))
  {
    if run != [] {
      var n := |run| - 1;
      LastIsFolded(run[..n], e, f);
      if run[n].Logged? {
        var batch, before := run[n].batch, Since(run[..n], e, f);
        BestOfUsables(batch, e, f, Top(batch));
        var kept := if AnyBad(batch, e, f) then [] else before;
        NewestAppend(kept, Usables(batch, e, f));
        assert kept + [] == kept;
      }
    }
  }

  // ------------------------------------------------------------ order within a batch

  ghost predicate SameSamples(a: seq<Sample>, b: seq<Sample>) {
    forall x :: x in a <==> x in b
  }

  /** No field has two values at one stamp. */
  ghost predicate Unambiguous(batch: seq<Sample>) {
    forall i, j :: 0 <= i < |batch| && 0 <= j < |batch| && Of(batch[j], batch[i].event, batch[i].field)
                   && batch[i].stamp == batch[j].stamp && batch[i].value.Some? && batch[j].value.Some?
                   ==> batch[i].value == batch[j].value
  }

  lemma SameBest(a: seq<Sample>, b: seq<Sample>, e: string, f: string, n: int)
    requires SameSamples(a, b) && Unambiguous(a)
    ensures Best(a, e, f, n) == Best(b, e, f, n)
  {
    BestIsNewest(a, e, f, n);
    BestIsNewest(b, e, f, n);
    if Best(a, e, f, n).Some? {
      FoundIn(a, b, e, f, n);
    }
    if Best(b, e, f, n).Some? {
      FoundIn(b, a, e, f, n);
      var i: nat :| IsNewest(a, e, f, n, i) && Best(a, e, f, n) == Some(Cell(a[i].stamp, a[i].value.value));
      var j: nat :| IsNewest(b, e, f, n, j) && Best(b, e, f, n) == Some(Cell(b[j].stamp, b[j].value.value));
      assert a[i] in b && b[j] in a;
      var k :| 0 <= k < |b| && b[k] == a[i];
      var l :| 0 <= l < |a| && a[l] == b[j];
      assert Usable(b[k], e, f, n) && Usable(a[l], e, f, n);
    }
  }

  lemma FoundIn(a: seq<Sample>, b: seq<Sample>, e: string, f: string, n: int)
    requires SameSamples(a, b) && Best(a, e, f, n).Some?
    ensures Best(b, e, f, n).Some?
  {
    BestIsNewest(a, e, f, n);
    BestIsNewest(b, e, f, n);
    var i: nat :| IsNewest(a, e, f, n, i);
    assert a[i] in b;
    var k :| 0 <= k < |b| && b[k] == a[i];
    assert Usable(b[k], e, f, n);
  }

  lemma SameAnyBad(a: seq<Sample>, b: seq<Sample>, e: string, f: string)
    requires SameSamples(a, b) && AnyBad(a, e, f)
    ensures AnyBad(b, e, f)
  {
    var i :| 0 <= i < |a| && Of(a[i], e, f) && a[i].value.None?;
    assert a[i] in b;
  }

  lemma SameSampled(a: seq<Sample>, b: seq<Sample>, e: string, n: int)
    requires SameSamples(a, b) && Sampled(a, e, n)
    ensures Sampled(b, e, n)
  {
    var i :| 0 <= i < |a| && a[i].event == e && a[i].stamp == n && a[i].value.Some?;
    assert a[i] in b;
  }

  /** The same samples in another order give every field the same value in every row. */
  lemma SameCell(a: seq<Sample>, b: seq<Sample>, e: string, f: string, cur: Option<Cell>, n: int)
    requires SameSamples(a, b) && Unambiguous(a)
    ensures RowCell(a, e, f, cur, n) == RowCell(b, e, f, cur, n)
    ensures After(a, e, f, cur, n) == After(b, e, f, cur, n) && Kept(a, e, f, cur) == Kept(b, e, f, cur)
  {
    SameBest(a, b, e, f, n);
    AtIff(a, e, f, n);
    AtIff(b, e, f, n);
    if AnyBad(a, e, f) {
      SameAnyBad(a, b, e, f);
    }
    if AnyBad(b, e, f) {
      SameAnyBad(b, a, e, f);
    }
  }

  lemma SameRow(a: seq<Sample>, b: seq<Sample>, declared: set<string>, last: Latest, rows: seq<Row>, others: seq<Row>, row: Row)
    requires SameSamples(a, b) && Unambiguous(a)
    requires RowsOf(a, declared, last, rows) && RowsOf(b, declared, last, others) && row in rows
    ensures row in others
  {
    var e, n := row.event, row.stamp;
    SameSampled(a, b, e, n);
    assert HasRow(others, e, n);
    var j :| 0 <= j < |others| && others[j].event == e && others[j].stamp == n;
    forall f
      ensures Get(row.cells, f) == Get(others[j].cells, f)
    {
      SameCell(a, b, e, f, Get(last, (e, f)), n);
    }
    SameMap(row.cells, others[j].cells);
  }

  lemma SameMap<K, V>(a: map<K, V>, b: map<K, V>)
    requires forall k :: Get(a, k) == Get(b, k)
    ensures a == b
  {
    forall k
      ensures (k in a <==> k in b) && (k in a ==> a[k] == b[k])
    {
      assert Get(a, k) == Get(b, k);
    }
  }

  lemma {:induction false} TopOf(batch: seq<Sample>)
    ensures Top(batch) == 0 || exists x :: x in batch && x.stamp == Top(batch)
    ensures Top(batch) >= 0 && forall x :: x in batch ==> x.stamp <= Top(batch)
  {
    if batch != [] {
      var k := |batch| - 1;
      TopOf(batch[..k]);
      assert batch == batch[..k] + [batch[k]];
    }
  }

  lemma TopSame(a: seq<Sample>, b: seq<Sample>)
    requires SameSamples(a, b)
    ensures Top(a) == Top(b)
  {
    TopOf(a);
    TopOf(b);
  }

  /** The order of samples within a batch does not matter: the same rows, each event's in the same order, and the
      same values known after. */
  lemma OrderIndependent(a: seq<Sample>, b: seq<Sample>, declared: set<string>, last: Latest, rows: seq<Row>, others: seq<Row>)
    requires SameSamples(a, b) && SameSamples(b, a) && Unambiguous(a) && Unambiguous(b)
    requires RowsOf(a, declared, last, rows) && RowsOf(b, declared, last, others)
    ensures forall row :: row in rows <==> row in others
    ensures forall e, f, cur :: Final(a, declared, e, f, cur) == Final(b, declared, e, f, cur)
  {
    forall row
      ensures row in rows <==> row in others
    {
      if row in rows {
        SameRow(a, b, declared, last, rows, others, row);
      }
      if row in others {
        SameRow(b, a, declared, last, others, rows, row);
      }
    }
    TopSame(a, b);
    forall e, f, cur
      ensures Final(a, declared, e, f, cur) == Final(b, declared, e, f, cur)
    {
      SameCell(a, b, e, f, cur, Top(a));
    }
  }
}
