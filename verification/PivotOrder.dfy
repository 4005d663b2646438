/**
 The order of a pivot table in terms of the order of the data: which row of the result an entry, a table
 row, a cell and a column come from.
 */
module PivotOrder {
  import opened Wrappers
  import opened Strings
  import opened Pivot
  import opened PivotLossless
  import opened PivotTable

  // ---- parts, one after the other ----

  function Flat<T>(parts: seq<seq<T>>): seq<T> {
    if parts == [] then [] else Flat(DropLast(parts)) + Last(parts)
  }

  lemma {:induction false} FlatAppend<T>(a: seq<seq<T>>, b: seq<seq<T>>)
    ensures Flat(a + b) == Flat(a) + Flat(b)
  {
    if b == [] {
      assert a + b == a;
    } else {
      assert DropLast(a + b) == a + DropLast(b);
      FlatAppend(a, DropLast(b));
    }
  }

  lemma {:induction false} FlatSingles<T>(parts: seq<seq<T>>, n: nat)
    requires forall i | 0 <= i < |parts| :: |parts[i]| == 1
    ensures |Flat(parts)| == |parts|
    ensures n < |parts| ==> Flat(parts)[n] == parts[n][0]
  {
    if parts != [] {
      FlatSingles(DropLast(parts), n);
    }
  }

  /** Which tuple of a row is the one of the k-th measure. */
  function Place(axis: seq<string>, k: nat): nat {
    if MEASURES in axis then k else 0
  }

  /** The tuples of a row on an axis: one for each measure in order, or a single one. */
  ghost predicate AreTuples(cfg: Config, axis: seq<string>, row: Row, tuples: seq<seq<Val>>) {
    && |tuples| == (if MEASURES in axis then |cfg.measures| else 1)
    && forall k | 0 <= k < |cfg.measures| :: IsTuple(axis, row, cfg.measures[k], tuples[Place(axis, k)])
  }

  lemma TuplesOfRow(cfg: Config, axis: seq<string>, row: Row)
    requires WellNamed(cfg)
    ensures AreTuples(cfg, axis, row, AxisValues(cfg, axis, row))
  {
    forall k | 0 <= k < |cfg.measures|
      ensures IsTuple(axis, row, cfg.measures[k], AxisValues(cfg, axis, row)[Place(axis, k)])
    {
      assert cfg.measures[k] in cfg.measures;
      TupleOfMeasure(cfg, axis, row, k);
    }
    assert cfg.measures[0] in cfg.measures;
    TupleOfMeasure(cfg, axis, row, 0);
  }

  // ---- entries ----

  function EntriesByRow(cfg: Config, data: seq<Row>): (e: seq<seq<Entry>>)
    ensures |e| == |data|
  {
    seq(|data|, n requires 0 <= n < |data| => EntriesOf(data[n], AxisValues(cfg, cfg.x, data[n])))
  }

  lemma {:induction false} EntriesAreFlat(cfg: Config, data: seq<Row>)
    ensures Entries(cfg, data) == Flat(EntriesByRow(cfg, data))
  {
    if data != [] {
      EntriesAreFlat(cfg, DropLast(data));
      assert DropLast(EntriesByRow(cfg, data)) == EntriesByRow(cfg, DropLast(data));
    }
  }

  function XValues(entries: seq<Entry>): (x: seq<seq<Val>>)
    ensures |x| == |entries|
  {
    seq(|entries|, i requires 0 <= i < |entries| => entries[i].xValues)
  }

  /** The entries are those of the rows in order and, with measures on x, of the measures of each in order. */
  lemma EntriesInOrder(cfg: Config, data: seq<Row>)
    requires WellNamed(cfg)
    ensures Entries(cfg, data) == Flat(EntriesByRow(cfg, data))
    ensures forall n | 0 <= n < |data| ::
              && AreTuples(cfg, cfg.x, data[n], XValues(EntriesByRow(cfg, data)[n]))
              && forall e | e in EntriesByRow(cfg, data)[n] :: e.row == data[n]
  {
    EntriesAreFlat(cfg, data);
    forall n | 0 <= n < |data| ensures AreTuples(cfg, cfg.x, data[n], XValues(EntriesByRow(cfg, data)[n])) {
      TuplesOfRow(cfg, cfg.x, data[n]);
      assert XValues(EntriesByRow(cfg, data)[n]) == AxisValues(cfg, cfg.x, data[n]);
    }
  }

  // ---- rows ----

  /** A group is headed by the first entry of its key. */
  lemma {:induction false} FirstMember(entries: seq<Entry>, k: string) returns (m: nat)
    requires k in Keys(entries)
    ensures FirstAt(entries, k, m) && Members(entries, k) != [] && Members(entries, k)[0] == entries[m]
  {
    var init := DropLast(entries);
    KeysElements(init);
    if k in Keys(init) {
      m := FirstMember(init, k);
    } else {
      m := |init|;
      forall i | 0 <= i < m ensures AxisString(entries[i].xValues) != k {
        assert init[i] in init && init[i] !in Members(init, k);
      }
    }
  }

  /** A table row has the x values of the first entry of its group. */
  lemma RowTakesFirst(cfg: Config, data: seq<Row>, a: nat) returns (m: nat)
    requires PlainPivot(cfg, data).Rows? && a < |PlainPivot(cfg, data).rows|
    ensures |PlainPivot(cfg, data).rows| == |Keys(Entries(cfg, data))|
    ensures FirstAt(Entries(cfg, data), Keys(Entries(cfg, data))[a], m)
    ensures PlainPivot(cfg, data).rows[a].xValues == Entries(cfg, data)[m].xValues
  {
    m := FirstMember(Entries(cfg, data), Keys(Entries(cfg, data))[a]);
  }

  /** The n-th row is the first one with these x values, up to the signs for null and the empty text. */
  ghost predicate FirstRowOf(cfg: Config, data: seq<Row>, x: seq<Val>, n: nat)
    requires |cfg.measures| > 0
  {
    && n < |data|
    && IsTuple(cfg.x, data[n], cfg.measures[0], x)
    && forall i, t | 0 <= i < n && IsTuple(cfg.x, data[i], cfg.measures[0], t) :: AxisString(t) != AxisString(x)
  }

  lemma EntryOfRow(cfg: Config, data: seq<Row>, n: nat)
    requires WellNamed(cfg) && MEASURES !in cfg.x
    ensures |Entries(cfg, data)| == |data|
    ensures n < |data| ==> IsTuple(cfg.x, data[n], cfg.measures[0], Entries(cfg, data)[n].xValues)
  {
    EntriesAreFlat(cfg, data);
    forall i | 0 <= i < |data| ensures |EntriesByRow(cfg, data)[i]| == 1 {
      TuplesOfRow(cfg, cfg.x, data[i]);
    }
    FlatSingles(EntriesByRow(cfg, data), n);
    if n < |data| {
      TuplesOfRow(cfg, cfg.x, data[n]);
    }
  }

  lemma FirstRowIs(cfg: Config, data: seq<Row>, k: string, n: nat)
    requires WellNamed(cfg) && MEASURES !in cfg.x && FirstAt(Entries(cfg, data), k, n)
    ensures FirstRowOf(cfg, data, Entries(cfg, data)[n].xValues, n)
  {
    EntryOfRow(cfg, data, n);
    forall i, t | 0 <= i < n && IsTuple(cfg.x, data[i], cfg.measures[0], t) ensures AxisString(t) != k {
      EntryOfRow(cfg, data, i);
      OneTuple(cfg.x, data[i], cfg.measures[0], t, Entries(cfg, data)[i].xValues);
    }
  }

  /**
   Without measures on x, the table rows come in the order in which their x values first occur in the data,
   and each has the values of the row in which they do.
   */
  lemma RowsInDataOrder(cfg: Config, data: seq<Row>, a: nat, b: nat) returns (m: nat, n: nat)
    requires WellNamed(cfg) && MEASURES !in cfg.x
    requires PlainPivot(cfg, data).Rows? && a < b < |PlainPivot(cfg, data).rows|
    ensures m < n
    ensures FirstRowOf(cfg, data, PlainPivot(cfg, data).rows[a].xValues, m)
    ensures FirstRowOf(cfg, data, PlainPivot(cfg, data).rows[b].xValues, n)
  {
    m := RowTakesFirst(cfg, data, a);
    n := RowTakesFirst(cfg, data, b);
    KeysInOrder(Entries(cfg, data), a, b, m, n);
    FirstRowIs(cfg, data, Keys(Entries(cfg, data))[a], m);
    FirstRowIs(cfg, data, Keys(Entries(cfg, data))[b], n);
  }

  // ---- cells ----

  /** The n-th entry is the last one of its group whose row has the column. */
  ghost predicate LastWith(cfg: Config, entries: seq<Entry>, k: string, key: string, n: nat) {
    && n < |entries| && AxisString(entries[n].xValues) == k && HasKey(cfg, entries[n].row, key)
    && forall i | n < i < |entries| :: AxisString(entries[i].xValues) != k || !HasKey(cfg, entries[i].row, key)
  }

  /** A cell takes the last entry of all that has both its x values and its column. */
  lemma {:induction false} CellTakesLast(cfg: Config, entries: seq<Entry>, k: string, key: string, n: nat)
    requires LastWith(cfg, entries, k, key, n)
    ensures LastRow(cfg, Members(entries, k), key) == Some(entries[n].row)
  {
    var init, last := DropLast(entries), Last(entries);
    if n < |init| {
      assert init[n] == entries[n];
      CellTakesLast(cfg, init, k, key, n);
    }
    if AxisString(last.xValues) == k {
      assert Last(Members(entries, k)) == last && DropLast(Members(entries, k)) == Members(init, k);
    } else {
      assert Members(entries, k) == Members(init, k) + [] == Members(init, k);
    }
  }

  /** So it does in the bucket of a series that is filled up. */
  lemma {:induction false} FilledCellTakesLast(cfg: Config, entries: seq<Entry>, d: string, key: string, n: nat)
    requires n < |entries| && FirstKey(entries[n]) == d && HasKey(cfg, entries[n].row, key)
    requires forall i | n < i < |entries| :: FirstKey(entries[i]) != d || !HasKey(cfg, entries[i].row, key)
    ensures LastRow(cfg, MembersAt(entries, d), key) == Some(entries[n].row)
  {
    var init, last := DropLast(entries), Last(entries);
    if n < |init| {
      assert init[n] == entries[n];
      FilledCellTakesLast(cfg, init, d, key, n);
    }
    if FirstKey(last) == d {
      assert Last(MembersAt(entries, d)) == last && DropLast(MembersAt(entries, d)) == MembersAt(init, d);
    } else {
      assert MembersAt(entries, d) == MembersAt(init, d) + [] == MembersAt(init, d);
    }
  }

  // ---- columns ----

  function TuplesByEntry(cfg: Config, entries: seq<Entry>): (t: seq<seq<seq<Val>>>)
    ensures |t| == |entries|
  {
    seq(|entries|, n requires 0 <= n < |entries| => AxisValues(cfg, cfg.y, entries[n].row))
  }

  lemma {:induction false} TuplesAreFlat(cfg: Config, entries: seq<Entry>)
    requires forall e | e in entries :: |e.row| > 0
    ensures TuplesOf(cfg, entries) == Flat(TuplesByEntry(cfg, entries))
  {
    if entries != [] {
      TuplesAreFlat(cfg, DropLast(entries));
      assert DropLast(TuplesByEntry(cfg, entries)) == TuplesByEntry(cfg, DropLast(entries));
    }
  }

  /** The y tuples of a group are those of its entries in order and, with measures on y, of the measures of each. */
  lemma TuplesInOrder(cfg: Config, entries: seq<Entry>)
    requires WellNamed(cfg) && forall e | e in entries :: |e.row| > 0
    ensures TuplesOf(cfg, entries) == Flat(TuplesByEntry(cfg, entries))
    ensures forall n | 0 <= n < |entries| :: AreTuples(cfg, cfg.y, entries[n].row, TuplesByEntry(cfg, entries)[n])
  {
    TuplesAreFlat(cfg, entries);
    forall n | 0 <= n < |entries|
      ensures AreTuples(cfg, cfg.y, entries[n].row, TuplesByEntry(cfg, entries)[n])
    {
      TuplesOfRow(cfg, cfg.y, entries[n].row);
    }
  }

  /** The groups are walked one after the other. */
  lemma {:induction false} GroupsInOrder(cfg: Config, groups: seq<Group>)
    ensures Tuples(cfg, groups) == Flat(Map((g: Group) => TuplesOf(cfg, g.entries), groups))
  {
    if groups != [] {
      GroupsInOrder(cfg, DropLast(groups));
      var byGroup := (g: Group) => TuplesOf(cfg, g.entries);
      assert DropLast(Map(byGroup, groups)) == Map(byGroup, DropLast(groups));
    }
  }
}
