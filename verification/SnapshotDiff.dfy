/** The multiset row diff of src/snapshot-store.ts. */
module SnapshotDiff {
  import opened Sequences

  type Row = seq<string>
  type Key = seq<string>

  datatype Column = Column(name: string, key: bool)
  datatype Table = Table(columns: seq<Column>, rows: seq<Row>)

  datatype FieldChange = FieldChange(column: string, before: string, after: string)
  datatype ChangedRow = ChangedRow(key: Key, changes: seq<FieldChange>)

  datatype Diff = Diff(
    inserted: seq<Row>, deleted: seq<Row>, changed: seq<ChangedRow>, matchedOn: seq<string>, matchedOnFullKey: bool,
    columnsAddedInAfter: seq<string>, columnsRemovedInAfter: seq<string>)

  datatype Result = BadInput(column: string) | Ok(diff: Diff)

  // ----- columns ---------------------------------------------------------------------------------------

  function Names(columns: seq<Column>): (r: seq<string>)
    ensures |r| == |columns| && forall i :: 0 <= i < |r| ==> r[i] == columns[i].name
  {
    seq(|columns|, i requires 0 <= i < |columns| => columns[i].name)
  }

  /** The position of each name, the last one if it occurs twice. */
  ghost predicate IsIndex(names: seq<string>, index: map<string, nat>) {
    && (forall n :: n in index <==> n in names)
    && (forall n :: n in index ==> index[n] < |names| && names[index[n]] == n)
    && (forall n, i :: n in index && index[n] < i < |names| ==> names[i] != n)
  }

  method IndexByName(names: seq<string>) returns (index: map<string, nat>)
    ensures IsIndex(names, index)
  {
    index := map[];
    for i := 0 to |names|
      invariant IsIndex(names[..i], index)
    {
      index := index[names[i] := i];
    }
    assert names[..|names|] == names;
  }

  /** Each name once, in order of first occurrence, without those to skip. */
  function Once<T(==, !new)>(names: seq<T>, skip: seq<T>): (r: seq<T>)
    ensures Distinct(r)
    ensures forall n :: n in r <==> n in names && n !in skip
  {
    if names == [] then []
    else
      var init, last := names[..|names| - 1], names[|names| - 1];
      var r := Once(init, skip);
      if last in r || last in skip then r else r + [last]
  }

  method OnceOver<T(==, !new)>(names: seq<T>, skip: seq<T>) returns (r: seq<T>)
    ensures r == Once(names, skip)
  {
    r := [];
    for i := 0 to |names|
      invariant r == Once(names[..i], skip)
    {
      assert names[..i + 1][..i] == names[..i];
      if names[i] !in r && names[i] !in skip {
        r := r + [names[i]];
      }
    }
    assert names[..|names|] == names;
  }

  /** isFullColumnSet: as many match columns as distinct names, and all of them names. */
  predicate IsFullColumnSet(matchOn: seq<string>, names: seq<string>) {
    |matchOn| == |Once(names, [])| && forall i :: 0 <= i < |matchOn| ==> matchOn[i] in names
  }

  // ----- keys and groups ----------------------------------------------------------------------------------

  /** A missing cell reads as the empty text. */
  function Cell(row: Row, i: nat): string {
    if i < |row| then row[i] else ""
  }

  /** How rows of one side are keyed; every match column has a position. */
  datatype Keying = Keying(matchOn: seq<string>, index: map<string, nat>) {
    ghost predicate Valid() {
      forall i :: 0 <= i < |matchOn| ==> matchOn[i] in index
    }

    function Of(row: Row): Key {
      seq(|matchOn|, i requires 0 <= i < |matchOn| => if matchOn[i] in index then Cell(row, index[matchOn[i]]) else "")
    }
  }

  function KeysOf(m: Keying, rows: seq<Row>): (r: seq<Key>)
    ensures |r| == |rows| && forall i :: 0 <= i < |r| ==> r[i] == m.Of(rows[i])
  {
    seq(|rows|, i requires 0 <= i < |rows| => m.Of(rows[i]))
  }

  /** The rows of one key, in order. */
  function RowsFor(m: Keying, rows: seq<Row>, k: Key): (r: seq<Row>)
    ensures |r| <= |rows|
    ensures forall x :: x in r ==> m.Of(x) == k
  {
    if rows == [] then []
    else
      var init, last := rows[..|rows| - 1], rows[|rows| - 1];
      RowsFor(m, init, k) + if m.Of(last) == k then [last] else []
  }

  function Group(groups: map<Key, seq<Row>>, k: Key): seq<Row> {
    if k in groups then groups[k] else []
  }

  lemma RowsSnoc(m: Keying, rows: seq<Row>, r: Row, k: Key)
    ensures RowsFor(m, rows + [r], k) == RowsFor(m, rows, k) + if m.Of(r) == k then [r] else []
  {
    assert (rows + [r])[..|rows|] == rows;
  }

  lemma OnceKeySnoc(m: Keying, rows: seq<Row>, r: Row)
    ensures var was := Once(KeysOf(m, rows), []);
            Once(KeysOf(m, rows + [r]), []) == if m.Of(r) in was then was else was + [m.Of(r)]
  {
    hide m.Of;
    assert KeysOf(m, rows + [r])[..|rows|] == KeysOf(m, rows);
  }

  ghost predicate Grouped(m: Keying, rows: seq<Row>, groups: map<Key, seq<Row>>) {
    forall k :: Group(groups, k) == RowsFor(m, rows, k)
  }

  ghost predicate SameKeys(order: seq<Key>, groups: map<Key, seq<Row>>) {
    forall k :: k in order <==> k in groups
  }

  lemma GroupStep(m: Keying, rows: seq<Row>, r: Row, was: map<Key, seq<Row>>, groups: map<Key, seq<Row>>)
    requires Grouped(m, rows, was)
    requires groups == was[m.Of(r) := if m.Of(r) in was then was[m.Of(r)] + [r] else [r]]
    ensures Grouped(m, rows + [r], groups)
  {
    hide RowsFor, m.Of;
    forall k ensures Group(groups, k) == RowsFor(m, rows + [r], k) {
      RowsSnoc(m, rows, r, k);
      assert Group(was, k) == RowsFor(m, rows, k);
    }
  }

  lemma NothingGrouped(m: Keying, rows: seq<Row>)
    requires rows == []
    ensures Grouped(m, rows, map[]) && SameKeys([], map[]) && Once(KeysOf(m, rows), []) == []
  {
  }

  lemma KeyStep(order: seq<Key>, was: map<Key, seq<Row>>, k: Key, rows: seq<Row>)
    requires SameKeys(order, was)
    ensures k in order <==> k in was
    ensures SameKeys(if k in was then order else order + [k], was[k := rows])
  {
  }

  /** Groups keep every row under its key; order is the insertion order of the keys. */
  method GroupByKey(m: Keying, rows: seq<Row>) returns (groups: map<Key, seq<Row>>, order: seq<Key>)
    ensures Grouped(m, rows, groups)
    ensures order == Once(KeysOf(m, rows), [])
  {
    hide RowsFor, m.Of, KeysOf, Once, Grouped, SameKeys;
    groups, order := map[], [];
    NothingGrouped(m, rows[..0]);
    for i := 0 to |rows|
      invariant Grouped(m, rows[..i], groups) && SameKeys(order, groups)
      invariant order == Once(KeysOf(m, rows[..i]), [])
    {
      ghost var was := groups;
      var r := rows[i];
      var k := m.Of(r);
      OnceKeySnoc(m, rows[..i], r);
      KeyStep(order, groups, k, if k in groups then groups[k] + [r] else [r]);
      if k in groups {
        groups := groups[k := groups[k] + [r]];
      } else {
        groups, order := groups[k := [r]], order + [k];
      }
      GroupStep(m, rows[..i], r, was, groups);
      assert rows[..i] + [r] == rows[..i + 1];
    }
    assert rows[..|rows|] == rows;
  }

  // ----- the comparison, as functions ---------------------------------------------------------------------

  datatype Sides = Sides(b: Keying, a: Keying, before: seq<Row>, after: seq<Row>) {
    function BeforeRows(k: Key): seq<Row> { RowsFor(b, before, k) }
    function AfterRows(k: Key): seq<Row> { RowsFor(a, after, k) }

    function PairCount(k: Key): (n: nat)
      ensures n <= |BeforeRows(k)| && n <= |AfterRows(k)|
    {
      if |BeforeRows(k)| <= |AfterRows(k)| then |BeforeRows(k)| else |AfterRows(k)|
    }

    function PairsFor(k: Key): (r: seq<(Row, Row)>)
      ensures |r| == PairCount(k)
    {
      seq(PairCount(k), i requires 0 <= i < PairCount(k) => (BeforeRows(k)[i], AfterRows(k)[i]))
    }

    function AllKeys(): seq<Key> {
      var keys := Once(KeysOf(b, before), []);
      keys + Once(KeysOf(a, after), keys)
    }

    /** Rows with a partner on the other side: under one key, occurrence by occurrence. */
    function Pairs(keys: seq<Key>): seq<(Row, Row)> {
      if keys == [] then [] else Pairs(keys[..|keys| - 1]) + PairsFor(keys[|keys| - 1])
    }

    function Deleted(keys: seq<Key>): seq<Row> {
      if keys == [] then []
      else var k := keys[|keys| - 1]; Deleted(keys[..|keys| - 1]) + BeforeRows(k)[PairCount(k)..]
    }

    function Inserted(keys: seq<Key>): seq<Row> {
      if keys == [] then []
      else var k := keys[|keys| - 1]; Inserted(keys[..|keys| - 1]) + AfterRows(k)[PairCount(k)..]
    }
  }

  function ChangeOf(x: Sides, name: string, pair: (Row, Row)): seq<FieldChange> {
    var here, there := name in x.b.index, name in x.a.index;
    var was := if here then Cell(pair.0, x.b.index[name]) else "";
    var now := if there then Cell(pair.1, x.a.index[name]) else "";
    if !here || !there || was != now then [FieldChange(name, was, now)] else []
  }

  function Changes(x: Sides, names: seq<string>, pair: (Row, Row)): seq<FieldChange> {
    if names == [] then [] else Changes(x, names[..|names| - 1], pair) + ChangeOf(x, names[|names| - 1], pair)
  }

  function ChangedRows(x: Sides, names: seq<string>, pairs: seq<(Row, Row)>): seq<ChangedRow> {
    if pairs == [] then []
    else
      var pair := pairs[|pairs| - 1];
      var changes := Changes(x, names, pair);
      ChangedRows(x, names, pairs[..|pairs| - 1]) + if changes == [] then [] else [ChangedRow(x.b.Of(pair.0), changes)]
  }

  // ----- the comparison, as the loops -----------------------------------------------------------------------

  method CompareRows(x: Sides, names: seq<string>, pair: (Row, Row)) returns (changes: seq<FieldChange>)
    ensures changes == Changes(x, names, pair)
  {
    changes := [];
    for i := 0 to |names|
      invariant changes == Changes(x, names[..i], pair)
    {
      assert names[..i + 1][..i] == names[..i];
      var name := names[i];
      var was := if name in x.b.index then Cell(pair.0, x.b.index[name]) else "";
      var now := if name in x.a.index then Cell(pair.1, x.a.index[name]) else "";
      if name !in x.b.index || name !in x.a.index || was != now {
        changes := changes + [FieldChange(name, was, now)];
      }
    }
    assert names[..|names|] == names;
  }

  lemma {:induction false} ChangedRowsConcat(x: Sides, names: seq<string>, p: seq<(Row, Row)>, q: seq<(Row, Row)>)
    ensures ChangedRows(x, names, p + q) == ChangedRows(x, names, p) + ChangedRows(x, names, q)
  {
    hide Changes;
    if q == [] {
      assert p + q == p;
    } else {
      var init, pair := q[..|q| - 1], q[|q| - 1];
      ChangedRowsConcat(x, names, p, init);
      assert (p + q)[..|p + q| - 1] == p + init;
      var own := if Changes(x, names, pair) == [] then [] else [ChangedRow(x.b.Of(pair.0), Changes(x, names, pair))];
      Assoc(ChangedRows(x, names, p), ChangedRows(x, names, init), own);
    }
  }

  lemma PairAt(x: Sides, names: seq<string>, k: Key, i: nat)
    requires i < x.PairCount(k)
    ensures x.PairsFor(k)[i] == (x.BeforeRows(k)[i], x.AfterRows(k)[i]) && x.b.Of(x.BeforeRows(k)[i]) == k
  {
    hide RowsFor, x.b.Of;
    assert x.BeforeRows(k)[i] in x.BeforeRows(k);
  }

  lemma ChangedRowsSnoc(x: Sides, names: seq<string>, pairs: seq<(Row, Row)>, i: nat)
    requires i < |pairs|
    ensures ChangedRows(x, names, pairs[..i + 1])
         == ChangedRows(x, names, pairs[..i])
            + if Changes(x, names, pairs[i]) == [] then [] else [ChangedRow(x.b.Of(pairs[i].0), Changes(x, names, pairs[i]))]
  {
    hide Changes, x.b.Of;
    assert pairs[..i + 1][..i] == pairs[..i];
  }

  /** The rows that differ among the pairs of one key. */
  method ComparePairs(x: Sides, names: seq<string>, k: Key) returns (changed: seq<ChangedRow>)
    ensures changed == ChangedRows(x, names, x.PairsFor(k))
  {
    hide Changes, RowsFor, x.b.Of, ChangedRows, x.PairsFor, x.PairCount;
    changed := [];
    var bRows, aRows := x.BeforeRows(k), x.AfterRows(k);
    assert x.PairsFor(k)[..0] == [] && ChangedRows(x, names, []) == [] by {
      NoPairs(x, names);
    }
    for i := 0 to x.PairCount(k)
      invariant x.PairCount(k) == |x.PairsFor(k)| && changed == ChangedRows(x, names, x.PairsFor(k)[..i])
    {
      PairAt(x, names, k, i);
      ChangedRowsSnoc(x, names, x.PairsFor(k), i);
      var changes := CompareRows(x, names, (bRows[i], aRows[i]));
      if |changes| > 0 {
        changed := changed + [ChangedRow(k, changes)];
      } else {
        assert changed + [] == changed;
      }
    }
    assert x.PairsFor(k)[..|x.PairsFor(k)|] == x.PairsFor(k);
  }

  lemma NoPairs(x: Sides, names: seq<string>)
    ensures ChangedRows(x, names, []) == []
  {
  }

  /** One key: pairs occurrence by occurrence, the surplus on either side apart. */
  method CompareKey(x: Sides, names: seq<string>, k: Key, bRows: seq<Row>, aRows: seq<Row>)
    returns (inserted: seq<Row>, deleted: seq<Row>, changed: seq<ChangedRow>)
    requires bRows == x.BeforeRows(k) && aRows == x.AfterRows(k)
    ensures inserted == aRows[x.PairCount(k)..] && deleted == bRows[x.PairCount(k)..]
    ensures changed == ChangedRows(x, names, x.PairsFor(k))
  {
    hide ChangedRows, RowsFor, x.PairsFor;
    inserted, deleted := [], [];
    var pairCount := if |bRows| <= |aRows| then |bRows| else |aRows|;
    changed := ComparePairs(x, names, k);
    for i := pairCount to |bRows|
      invariant deleted == bRows[pairCount..i]
    {
      deleted := deleted + [bRows[i]];
    }
    for i := pairCount to |aRows|
      invariant inserted == aRows[pairCount..i]
    {
      inserted := inserted + [aRows[i]];
    }
  }

  /** What both tables are compared by, given an index of each. */
  function SidesOf(before: Table, after: Table, matchOn: seq<string>, b: map<string, nat>, a: map<string, nat>): Sides {
    Sides(Keying(matchOn, b), Keying(matchOn, a), before.rows, after.rows)
  }

  function AllNames(before: Table, after: Table): seq<string> {
    Names(before.columns) + Once(Names(after.columns), Names(before.columns))
  }

  /** The result for some of the keys. */
  ghost predicate Compared(x: Sides, names: seq<string>, keys: seq<Key>, inserted: seq<Row>, deleted: seq<Row>, changed: seq<ChangedRow>) {
    && inserted == x.Inserted(keys) && deleted == x.Deleted(keys)
    && changed == ChangedRows(x, names, x.Pairs(keys))
  }

  /** All keys, those of the before side first. */
  method CompareAll(x: Sides, names: seq<string>) returns (inserted: seq<Row>, deleted: seq<Row>, changed: seq<ChangedRow>)
    ensures Compared(x, names, x.AllKeys(), inserted, deleted, changed)
  {
    hide RowsFor, Group, Grouped, Once, KeysOf, Compared, ChangedRows, x.PairCount, x.PairsFor;
    var beforeGroups, beforeKeys := GroupByKey(x.b, x.before);
    var afterGroups, afterKeys := GroupByKey(x.a, x.after);
    var newKeys := OnceOver(KeysOf(x.a, x.after), beforeKeys);
    var keys := beforeKeys + newKeys;
    assert keys == x.AllKeys();
    hide x.AllKeys;
    inserted, deleted, changed := [], [], [];
    NothingCompared(x, names, keys[..0]);
    for i := 0 to |keys|
      invariant Compared(x, names, keys[..i], inserted, deleted, changed)
    {
      var k := keys[i];
      GroupedAt(x.b, x.before, beforeGroups, k);
      GroupedAt(x.a, x.after, afterGroups, k);
      var ins, del, chg := CompareKey(x, names, k, Group(beforeGroups, k), Group(afterGroups, k));
      OneMoreCompared(x, names, keys, i, inserted, deleted, changed);
      inserted, deleted, changed := inserted + ins, deleted + del, changed + chg;
    }
    assert keys[..|keys|] == keys;
  }

  lemma NothingCompared(x: Sides, names: seq<string>, keys: seq<Key>)
    requires keys == []
    ensures Compared(x, names, keys, [], [], [])
  {
  }

  lemma GroupedAt(m: Keying, rows: seq<Row>, groups: map<Key, seq<Row>>, k: Key)
    requires Grouped(m, rows, groups)
    ensures Group(groups, k) == RowsFor(m, rows, k)
  {
  }

  lemma OneMoreCompared(x: Sides, names: seq<string>, keys: seq<Key>, i: nat, inserted: seq<Row>, deleted: seq<Row>, changed: seq<ChangedRow>)
    requires i < |keys| && Compared(x, names, keys[..i], inserted, deleted, changed)
    ensures var k := keys[i];
            Compared(x, names, keys[..i + 1], inserted + x.AfterRows(k)[x.PairCount(k)..], deleted + x.BeforeRows(k)[x.PairCount(k)..],
                     changed + ChangedRows(x, names, x.PairsFor(k)))
  {
    hide ChangedRows, RowsFor, x.PairsFor, x.PairCount;
    assert keys[..i + 1][..i] == keys[..i];
    ChangedRowsConcat(x, names, x.Pairs(keys[..i]), x.PairsFor(keys[i]));
  }

  method DiffSnapshotRows(before: Table, after: Table, matchOn: seq<string>) returns (result: Result, ghost x: Sides)
    ensures result.BadInput? <==> exists c :: c in matchOn && !(c in Names(before.columns) && c in Names(after.columns))
    ensures result.BadInput? ==>
      result.column in matchOn && !(result.column in Names(before.columns) && result.column in Names(after.columns))
    ensures IsIndex(Names(before.columns), x.b.index) && IsIndex(Names(after.columns), x.a.index)
    ensures x == SidesOf(before, after, matchOn, x.b.index, x.a.index)
    ensures result.Ok? ==>
      && x.b.Valid() && x.a.Valid()
      && result.diff == Diff(
           x.Inserted(x.AllKeys()), x.Deleted(x.AllKeys()), ChangedRows(x, AllNames(before, after), x.Pairs(x.AllKeys())), matchOn,
           !IsFullColumnSet(matchOn, Names(before.columns)) && !IsFullColumnSet(matchOn, Names(after.columns)),
           Once(Names(after.columns), Names(before.columns)), Once(Names(before.columns), Names(after.columns)))
  {
    var beforeNames, afterNames := Names(before.columns), Names(after.columns);
    var b := IndexByName(beforeNames);
    var a := IndexByName(afterNames);
    var both := SidesOf(before, after, matchOn, b, a);
    x := both;
    for i := 0 to |matchOn|
      invariant forall j :: 0 <= j < i ==> matchOn[j] in b && matchOn[j] in a
    {
      if matchOn[i] !in b || matchOn[i] !in a {
        assert matchOn[i] in matchOn;
        return BadInput(matchOn[i]), x;
      }
    }
    var added := OnceOver(afterNames, beforeNames);
    var removed := OnceOver(beforeNames, afterNames);
    var full := !IsFullColumnSet(matchOn, beforeNames) && !IsFullColumnSet(matchOn, afterNames);
    var inserted, deleted, changed := CompareAll(both, beforeNames + added);
    assert inserted == x.Inserted(x.AllKeys()) && deleted == x.Deleted(x.AllKeys());
    result := Ok(Diff(inserted, deleted, changed, matchOn, full, added, removed));
  }

  // ----- no row is lost or made up ---------------------------------------------------------------------------

  function Gather(m: Keying, rows: seq<Row>, keys: seq<Key>): seq<Row> {
    if keys == [] then [] else Gather(m, rows, keys[..|keys| - 1]) + RowsFor(m, rows, keys[|keys| - 1])
  }

  /** One more row turns up once if its key is asked for, and not at all otherwise. */
  lemma {:induction false} GatherSnoc(m: Keying, rows: seq<Row>, r: Row, keys: seq<Key>, x: Row)
    requires Distinct(keys)
    ensures Times(Gather(m, rows + [r], keys), x) == Times(Gather(m, rows, keys), x) + if m.Of(r) in keys && r == x then 1 else 0
  {
    if keys != [] {
      hide RowsFor, m.Of, Times, Distinct;
      var init, k := keys[..|keys| - 1], keys[|keys| - 1];
      LastIsNew(keys, m.Of(r));
      GatherSnoc(m, rows, r, init, x);
      RowsSnoc(m, rows, r, k);
      TimesConcat(Gather(m, rows + [r], init), RowsFor(m, rows + [r], k), x);
      TimesConcat(Gather(m, rows, init), RowsFor(m, rows, k), x);
      if m.Of(r) == k {
        TimesSnoc(RowsFor(m, rows, k), r, x);
      } else {
        assert RowsFor(m, rows, k) + [] == RowsFor(m, rows, k);
      }
    }
  }

  lemma GatherOne(m: Keying, rows: seq<Row>, r: Row, keys: seq<Key>, x: Row)
    requires Distinct(keys) && m.Of(r) in keys && Times(Gather(m, rows, keys), x) == Times(rows, x)
    ensures Times(Gather(m, rows + [r], keys), x) == Times(rows + [r], x)
  {
    hide m.Of, Times, Distinct, Gather;
    GatherSnoc(m, rows, r, keys, x);
    TimesSnoc(rows, r, x);
  }

  lemma {:induction false} GatherAll(m: Keying, rows: seq<Row>, keys: seq<Key>, x: Row)
    requires Distinct(keys) && forall i :: 0 <= i < |rows| ==> m.Of(rows[i]) in keys
    ensures Times(Gather(m, rows, keys), x) == Times(rows, x)
  {
    if rows == [] {
      GatherNone(m, keys);
    } else {
      var init, last := rows[..|rows| - 1], rows[|rows| - 1];
      assert m.Of(last) in keys;
      GatherAll(m, init, keys, x);
      hide m.Of, Times, Distinct, Gather;
      GatherOne(m, init, last, keys, x);
      assert init + [last] == rows;
    }
  }

  lemma {:induction false} GatherNone(m: Keying, keys: seq<Key>)
    ensures Gather(m, [], keys) == []
  {
    if keys != [] {
      GatherNone(m, keys[..|keys| - 1]);
    }
  }

  function Firsts(pairs: seq<(Row, Row)>): (r: seq<Row>)
    ensures |r| == |pairs| && forall i :: 0 <= i < |r| ==> r[i] == pairs[i].0
  {
    seq(|pairs|, i requires 0 <= i < |pairs| => pairs[i].0)
  }

  function Seconds(pairs: seq<(Row, Row)>): (r: seq<Row>)
    ensures |r| == |pairs| && forall i :: 0 <= i < |r| ==> r[i] == pairs[i].1
  {
    seq(|pairs|, i requires 0 <= i < |pairs| => pairs[i].1)
  }

  lemma SplitKey(x: Sides, k: Key)
    ensures Firsts(x.PairsFor(k)) + x.BeforeRows(k)[x.PairCount(k)..] == x.BeforeRows(k)
    ensures Seconds(x.PairsFor(k)) + x.AfterRows(k)[x.PairCount(k)..] == x.AfterRows(k)
  {
  }

  lemma FirstsConcat(p: seq<(Row, Row)>, q: seq<(Row, Row)>)
    ensures Firsts(p + q) == Firsts(p) + Firsts(q) && Seconds(p + q) == Seconds(p) + Seconds(q)
  {
  }

  lemma {:induction false} SplitBefore(x: Sides, keys: seq<Key>, r: Row)
    ensures Times(Firsts(x.Pairs(keys)), r) + Times(x.Deleted(keys), r) == Times(Gather(x.b, x.before, keys), r)
  {
    if keys != [] {
      hide RowsFor, Firsts, Seconds, Times;
      var init, k := keys[..|keys| - 1], keys[|keys| - 1];
      var gone := x.BeforeRows(k)[x.PairCount(k)..];
      SplitBefore(x, init, r);
      SplitKey(x, k);
      FirstsConcat(x.Pairs(init), x.PairsFor(k));
      TimesConcat(Firsts(x.Pairs(init)), Firsts(x.PairsFor(k)), r);
      TimesConcat(x.Deleted(init), gone, r);
      TimesConcat(Gather(x.b, x.before, init), x.BeforeRows(k), r);
      TimesConcat(Firsts(x.PairsFor(k)), gone, r);
    }
  }

  lemma {:induction false} SplitAfter(x: Sides, keys: seq<Key>, r: Row)
    ensures Times(Seconds(x.Pairs(keys)), r) + Times(x.Inserted(keys), r) == Times(Gather(x.a, x.after, keys), r)
  {
    if keys != [] {
      hide RowsFor, Firsts, Seconds, Times;
      var init, k := keys[..|keys| - 1], keys[|keys| - 1];
      var come := x.AfterRows(k)[x.PairCount(k)..];
      SplitAfter(x, init, r);
      SplitKey(x, k);
      FirstsConcat(x.Pairs(init), x.PairsFor(k));
      TimesConcat(Seconds(x.Pairs(init)), Seconds(x.PairsFor(k)), r);
      TimesConcat(x.Inserted(init), come, r);
      TimesConcat(Gather(x.a, x.after, init), x.AfterRows(k), r);
      TimesConcat(Seconds(x.PairsFor(k)), come, r);
    }
  }

  lemma DistinctConcat<T>(a: seq<T>, b: seq<T>)
    requires Distinct(a) && Distinct(b) && forall n :: n in b ==> n !in a
    ensures Distinct(a + b)
  {
    forall i, j | 0 <= i < j < |a + b| ensures (a + b)[i] != (a + b)[j] {
      if i < |a| <= j {
        assert b[j - |a|] in b;
      }
    }
  }

  lemma AllKeysCover(x: Sides)
    ensures Distinct(x.AllKeys())
    ensures forall i :: 0 <= i < |x.before| ==> x.b.Of(x.before[i]) in x.AllKeys()
    ensures forall i :: 0 <= i < |x.after| ==> x.a.Of(x.after[i]) in x.AllKeys()
  {
    var keys := Once(KeysOf(x.b, x.before), []);
    DistinctConcat(keys, Once(KeysOf(x.a, x.after), keys));
    hide Once;
    forall i | 0 <= i < |x.before| ensures x.b.Of(x.before[i]) in x.AllKeys() {
      assert KeysOf(x.b, x.before)[i] in KeysOf(x.b, x.before);
    }
    forall i | 0 <= i < |x.after| ensures x.a.Of(x.after[i]) in x.AllKeys() {
      assert KeysOf(x.a, x.after)[i] in KeysOf(x.a, x.after);
    }
  }

  /** Deleted and paired rows make up the before side, inserted and paired ones the after side. */
  lemma RowsAreConserved(x: Sides)
    ensures var keys := x.AllKeys();
            && multiset(x.Deleted(keys)) + multiset(Firsts(x.Pairs(keys))) == multiset(x.before)
            && multiset(x.Inserted(keys)) + multiset(Seconds(x.Pairs(keys))) == multiset(x.after)
  {
    AllKeysCover(x);
    var keys := x.AllKeys();
    hide Gather, Firsts, Seconds, x.AllKeys, x.Pairs, x.Deleted, x.Inserted, Distinct;
    forall r
      ensures Times(x.Deleted(keys), r) + Times(Firsts(x.Pairs(keys)), r) == Times(x.before, r)
      ensures Times(x.Inserted(keys), r) + Times(Seconds(x.Pairs(keys)), r) == Times(x.after, r)
    {
      SplitBefore(x, keys, r);
      SplitAfter(x, keys, r);
      GatherAll(x.b, x.before, keys, r);
      GatherAll(x.a, x.after, keys, r);
    }
    SameMultiset(x.Deleted(keys), Firsts(x.Pairs(keys)), x.before);
    SameMultiset(x.Inserted(keys), Seconds(x.Pairs(keys)), x.after);
  }

  lemma SameMultiset(a: seq<Row>, b: seq<Row>, all: seq<Row>)
    requires forall r :: Times(a, r) + Times(b, r) == Times(all, r)
    ensures multiset(a) + multiset(b) == multiset(all)
  {
    forall r ensures (multiset(a) + multiset(b))[r] == multiset(all)[r] {
      assert Times(a, r) + Times(b, r) == Times(all, r);
    }
  }

  lemma {:induction false} PairsMatch(x: Sides, keys: seq<Key>)
    ensures forall i :: 0 <= i < |x.Pairs(keys)| ==> x.b.Of(x.Pairs(keys)[i].0) == x.a.Of(x.Pairs(keys)[i].1)
  {
    if keys != [] {
      var k := keys[|keys| - 1];
      PairsMatch(x, keys[..|keys| - 1]);
      forall i | 0 <= i < |x.PairsFor(k)|
        ensures x.b.Of(x.PairsFor(k)[i].0) == x.a.Of(x.PairsFor(k)[i].1)
      {
        assert x.BeforeRows(k)[i] in x.BeforeRows(k) && x.AfterRows(k)[i] in x.AfterRows(k);
      }
    }
  }

  lemma {:induction false} SurplusOf(x: Sides, keys: seq<Key>)
    ensures forall r :: r in x.Deleted(keys) ==> |x.BeforeRows(x.b.Of(r))| > |x.AfterRows(x.b.Of(r))|
    ensures forall r :: r in x.Inserted(keys) ==> |x.AfterRows(x.a.Of(r))| > |x.BeforeRows(x.a.Of(r))|
  {
    if keys != [] {
      var init, k := keys[..|keys| - 1], keys[|keys| - 1];
      SurplusOf(x, init);
      forall r | r in x.Deleted(keys) ensures |x.BeforeRows(x.b.Of(r))| > |x.AfterRows(x.b.Of(r))| {
        if r !in x.Deleted(init) {
          assert r in x.BeforeRows(k);
        }
      }
      forall r | r in x.Inserted(keys) ensures |x.AfterRows(x.a.Of(r))| > |x.BeforeRows(x.a.Of(r))| {
        if r !in x.Inserted(init) {
          assert r in x.AfterRows(k);
        }
      }
    }
  }

  /** No key has rows both deleted and inserted: pairing is as complete as counts allow. */
  lemma NoKeyOnBothSides(x: Sides, keys: seq<Key>, gone: Row, come: Row)
    requires gone in x.Deleted(keys) && come in x.Inserted(keys)
    ensures x.b.Of(gone) != x.a.Of(come)
  {
    SurplusOf(x, keys);
  }

  // ----- on the cells ------------------------------------------------------------------------------------------

  /** What a row shows in a column: nothing if the side lacks the column or the row is too short. */
  ghost function Shows(row: Row, index: map<string, nat>, column: string): string {
    if column in index && index[column] < |row| then row[index[column]] else ""
  }

  /** A key is what the row shows in the match columns, so rows have one key exactly if they show the same there. */
  lemma KeysAgreeIff(x: Sides, matchOn: seq<string>, before: Row, after: Row)
    requires x.b.matchOn == x.a.matchOn == matchOn && x.b.Valid() && x.a.Valid()
    ensures |x.b.Of(before)| == |matchOn| && forall i :: 0 <= i < |matchOn| ==> x.b.Of(before)[i] == Shows(before, x.b.index, matchOn[i])
    ensures x.b.Of(before) == x.a.Of(after) <==> forall n :: n in matchOn ==> Shows(before, x.b.index, n) == Shows(after, x.a.index, n)
  {
    var k, l := x.b.Of(before), x.a.Of(after);
    assert forall i :: 0 <= i < |matchOn| ==> k[i] == Shows(before, x.b.index, matchOn[i]) && l[i] == Shows(after, x.a.index, matchOn[i]);
    if k == l {
      forall n | n in matchOn ensures Shows(before, x.b.index, n) == Shows(after, x.a.index, n) {
        var i :| 0 <= i < |matchOn| && matchOn[i] == n;
        assert k[i] == l[i];
      }
    }
    if forall n :: n in matchOn ==> Shows(before, x.b.index, n) == Shows(after, x.a.index, n) {
      forall i | 0 <= i < |matchOn| ensures k[i] == l[i] {
        assert matchOn[i] in matchOn;
      }
    }
  }

  /** The changes of a pair: each column that one side lacks or that shows something else, with what it showed and shows. */
  lemma {:induction false} ChangesAre(x: Sides, names: seq<string>, pair: (Row, Row), c: FieldChange)
    ensures c in Changes(x, names, pair) <==>
              && c.column in names
              && c == FieldChange(c.column, Shows(pair.0, x.b.index, c.column), Shows(pair.1, x.a.index, c.column))
              && (c.column !in x.b.index || c.column !in x.a.index || c.before != c.after)
  {
    if names != [] {
      var init, last := names[..|names| - 1], names[|names| - 1];
      ChangesAre(x, init, pair, c);
      assert names == init + [last];
    }
  }

  // ----- the field changes say everything ----------------------------------------------------------------------

  /** Writes the new values over the old row. */
  function Apply(index: map<string, nat>, row: Row, changes: seq<FieldChange>): (r: Row)
    ensures |r| == |row|
  {
    if changes == [] then row
    else
      var c := changes[|changes| - 1];
      var r := Apply(index, row, changes[..|changes| - 1]);
      if c.column in index && index[c.column] < |r| then r[index[c.column] := c.after] else r
  }

  ghost predicate SameColumns(x: Sides, names: seq<string>) {
    && (forall n :: n in x.b.index <==> n in names)
    && (forall n :: n in x.a.index <==> n in names)
    && (forall n, m :: n in x.b.index && m in x.b.index && n != m ==> x.b.index[n] != x.b.index[m])
  }

  ghost predicate FullWidth(x: Sides, pair: (Row, Row)) {
    && (forall n :: n in x.b.index ==> x.b.index[n] < |pair.0|)
    && (forall n :: n in x.a.index ==> x.a.index[n] < |pair.1|)
  }

  /** One more column: its cell becomes the new one, unless it was already equal. */
  lemma ApplyOne(x: Sides, name: string, pair: (Row, Row), init: seq<FieldChange>)
    requires name in x.b.index && name in x.a.index && FullWidth(x, pair)
    ensures var was, now := Apply(x.b.index, pair.0, init), Apply(x.b.index, pair.0, init + ChangeOf(x, name, pair));
            var i := x.b.index[name];
            if pair.0[i] != pair.1[x.a.index[name]] then now == was[i := pair.1[x.a.index[name]]] else now == was
  {
    var own := ChangeOf(x, name, pair);
    if own != [] {
      assert (init + own)[..|init + own| - 1] == init;
    } else {
      assert init + own == init;
    }
  }

  /** A column reads as in the after row once it was compared, and as before until then. */
  lemma {:induction false} ApplySoFar(x: Sides, done: seq<string>, pair: (Row, Row), n: string)
    requires FullWidth(x, pair) && n in x.b.index && n in x.a.index
    requires forall m :: m in done ==> m in x.b.index && m in x.a.index && (m != n ==> x.b.index[m] != x.b.index[n])
    ensures Apply(x.b.index, pair.0, Changes(x, done, pair))[x.b.index[n]]
         == if n in done then pair.1[x.a.index[n]] else pair.0[x.b.index[n]]
  {
    if done != [] {
      var init, name := done[..|done| - 1], done[|done| - 1];
      assert done == init + [name];
      ApplySoFar(x, init, pair, n);
      ApplyOne(x, name, pair, Changes(x, init, pair));
      hide Apply, ChangeOf;
    }
  }

  /** With the same columns on both sides, applying a pair's changes to its old row reads as its new row. */
  lemma ChangesAreComplete(x: Sides, names: seq<string>, pair: (Row, Row), n: string)
    requires SameColumns(x, names) && FullWidth(x, pair) && n in names
    ensures Apply(x.b.index, pair.0, Changes(x, names, pair))[x.b.index[n]] == pair.1[x.a.index[n]]
  {
    ApplySoFar(x, names, pair, n);
  }

  lemma PlainIndex(names: seq<string>, index: map<string, nat>, i: nat)
    requires Distinct(names) && IsIndex(names, index) && i < |names|
    ensures names[i] in index && index[names[i]] == i
  {
    assert names[i] in names;
  }

  lemma {:induction false} NothingNew(names: seq<string>, skip: seq<string>)
    requires forall n :: n in names ==> n in skip
    ensures Once(names, skip) == []
  {
    if names != [] {
      NothingNew(names[..|names| - 1], skip);
    }
  }

  lemma ApplyInOrder(x: Sides, names: seq<string>, pair: (Row, Row))
    requires Distinct(names) && IsIndex(names, x.b.index) && IsIndex(names, x.a.index)
    requires |pair.0| == |names| == |pair.1|
    ensures Apply(x.b.index, pair.0, Changes(x, names, pair)) == pair.1
  {
    var r := Apply(x.b.index, pair.0, Changes(x, names, pair));
    assert SameColumns(x, names) && FullWidth(x, pair);
    hide SameColumns, FullWidth, Apply, Changes, IsIndex, Distinct;
    forall i | 0 <= i < |r| ensures r[i] == pair.1[i] {
      PlainIndex(names, x.b.index, i);
      PlainIndex(names, x.a.index, i);
      assert names[i] in names;
      ChangesAreComplete(x, names, pair, names[i]);
    }
  }

  /** With the same distinct columns in the same order, the changes reported for a pair rebuild its new row. */
  lemma ApplyGivesTheNewRow(before: Table, after: Table, x: Sides, pair: (Row, Row))
    requires Names(before.columns) == Names(after.columns) && Distinct(Names(before.columns))
    requires IsIndex(Names(before.columns), x.b.index) && IsIndex(Names(after.columns), x.a.index)
    requires |pair.0| == |before.columns| == |pair.1|
    ensures Apply(x.b.index, pair.0, Changes(x, AllNames(before, after), pair)) == pair.1
  {
    NothingNew(Names(after.columns), Names(before.columns));
    assert AllNames(before, after) == Names(before.columns);
    ApplyInOrder(x, Names(before.columns), pair);
  }

  lemma {:induction false} ChangesIff(x: Sides, names: seq<string>, pair: (Row, Row))
    ensures Changes(x, names, pair) == [] <==> forall n :: n in names ==> ChangeOf(x, n, pair) == []
  {
    hide ChangeOf;
    if names != [] {
      var init, last := names[..|names| - 1], names[|names| - 1];
      ChangesIff(x, init, pair);
      assert names == init + [last];
    }
  }

  lemma {:induction false} DistinctCount<T>(s: seq<T>)
    ensures |set n | n in s| == |s| <==> Distinct(s)
    ensures |set n | n in s| <= |s|
  {
    if s != [] {
      var init, last := s[..|s| - 1], s[|s| - 1];
      DistinctCount(init);
      assert s == init + [last];
      assert (set n | n in s) == (set n | n in init) + {last};
      if last in init {
        assert (set n | n in s) == (set n | n in init);
      }
    }
  }

  /** As many match columns as distinct names are all the names exactly when none is named twice. */
  lemma FullMeansAll(matchOn: seq<string>, names: seq<string>)
    requires IsFullColumnSet(matchOn, names)
    ensures Distinct(matchOn) <==> forall n :: n in names ==> n in matchOn
  {
    var once := Once(names, []);
    DistinctCount(matchOn);
    DistinctCount(once);
    var wanted, given := set n | n in matchOn, set n | n in once;
    hide Once, Distinct;
    assert wanted <= given;
    if forall n :: n in names ==> n in matchOn {
      assert wanted == given;
    } else {
      var n :| n in names && n !in matchOn;
      assert wanted <= given - {n} && n in given;
      SubsetSize(wanted, given - {n});
    }
  }

  /** A column both keys cover shows no change. */
  lemma MatchedColumnIsEqual(x: Sides, pair: (Row, Row), n: string)
    requires x.b.matchOn == x.a.matchOn && n in x.b.matchOn && x.b.Valid() && x.a.Valid()
    requires x.b.Of(pair.0) == x.a.Of(pair.1)
    ensures ChangeOf(x, n, pair) == []
  {
    var i :| 0 <= i < |x.b.matchOn| && x.b.matchOn[i] == n;
    assert x.b.Of(pair.0)[i] == x.a.Of(pair.1)[i];
  }

  /** What the source promises for rows matched on all columns: a pair of one key is never reported as changed. */
  ghost predicate PairsNeverChange(x: Sides, names: seq<string>) {
    forall b: Row, a: Row :: x.b.Of(b) == x.a.Of(a) ==> Changes(x, names, (b, a)) == []
  }

  /** The sides as diffSnapshotRows has them once no match column is missing. */
  ghost predicate AreSidesOf(x: Sides, before: Table, after: Table, matchOn: seq<string>) {
    && x == SidesOf(before, after, matchOn, x.b.index, x.a.index) && x.b.Valid() && x.a.Valid()
    && IsIndex(Names(before.columns), x.b.index) && IsIndex(Names(after.columns), x.a.index)
  }

  /** A row whose cells are all empty but one. */
  function OneCell(i: nat): Row {
    seq(i + 1, j => if j == i then "x" else "")
  }

  /** An unmatched column can be edited, or is missing on a side, under one and the same key. */
  lemma UnmatchedColumnCanChange(x: Sides, b: seq<string>, a: seq<string>, n: string)
    requires x.b.matchOn == x.a.matchOn && x.b.Valid() && x.a.Valid() && IsIndex(b, x.b.index) && IsIndex(a, x.a.index)
    requires n !in x.b.matchOn
    ensures exists before: Row :: x.b.Of(before) == x.a.Of([]) && ChangeOf(x, n, (before, [])) != []
  {
    var before := if n in x.b.index then OneCell(x.b.index[n]) else [];
    forall i | 0 <= i < |x.b.matchOn| ensures Cell(before, x.b.index[x.b.matchOn[i]]) == "" {
      assert x.b.matchOn[i] in x.b.index;
    }
    assert x.b.Of(before) == x.a.Of([]);
    assert ChangeOf(x, n, (before, [])) != [];
  }

  /** Pairs of one key never show a change exactly when every column of either side is matched on. */
  lemma NeverChangeIffAllMatched(before: Table, after: Table, matchOn: seq<string>, x: Sides)
    requires AreSidesOf(x, before, after, matchOn)
    ensures PairsNeverChange(x, AllNames(before, after)) <==> forall n :: n in AllNames(before, after) ==> n in matchOn
  {
    var names := AllNames(before, after);
    var b, a := Names(before.columns), Names(after.columns);
    hide AllNames, Names, Changes, ChangeOf;
    if forall n :: n in names ==> n in matchOn {
      forall r: Row, s: Row | x.b.Of(r) == x.a.Of(s) ensures Changes(x, names, (r, s)) == [] {
        ChangesIff(x, names, (r, s));
        forall n | n in names ensures ChangeOf(x, n, (r, s)) == [] {
          MatchedColumnIsEqual(x, (r, s), n);
        }
      }
    } else {
      var n :| n in names && n !in matchOn;
      UnmatchedColumnCanChange(x, b, a, n);
      var r :| x.b.Of(r) == x.a.Of([]) && ChangeOf(x, n, (r, [])) != [];
      ChangesIff(x, names, (r, []));
    }
  }

  /**
    Matched on a whole column set, pairs of one key are never reported as changed exactly when no
    match column is named twice and both sides have the same columns.
   */
  lemma FullRowPairsNeverChangeIff(before: Table, after: Table, matchOn: seq<string>, x: Sides)
    requires AreSidesOf(x, before, after, matchOn)
    requires IsFullColumnSet(matchOn, Names(before.columns)) || IsFullColumnSet(matchOn, Names(after.columns))
    ensures PairsNeverChange(x, AllNames(before, after))
       <==> Distinct(matchOn) && forall n :: n in Names(before.columns) <==> n in Names(after.columns)
  {
    var b, a := Names(before.columns), Names(after.columns);
    NeverChangeIffAllMatched(before, after, matchOn, x);
    if IsFullColumnSet(matchOn, b) {
      FullMeansAll(matchOn, b);
    }
    if IsFullColumnSet(matchOn, a) {
      FullMeansAll(matchOn, a);
    }
    assert forall n :: n in AllNames(before, after) <==> n in b || n in a;
    assert forall n :: n in matchOn ==> n in b && n in a by {
      assert forall n :: n in matchOn ==> n in x.b.index && n in x.a.index;
    }
    hide IsFullColumnSet, Distinct, AllNames, Names, Changes, PairsNeverChange;
  }

  /** The key columns of a snapshot, on which rows are matched when the whole entity was read. */
  function KeyNames(columns: seq<Column>): seq<string> {
    if columns == [] then [] else (if columns[0].key then [columns[0].name] else []) + KeyNames(columns[1..])
  }

  /** An entity that repeats its key column and has one more. */
  function RepeatedKey(a: string, b: string): seq<Column> {
    [Column(a, true), Column(a, true), Column(b, false)]
  }

  lemma RepeatedKeyNames(a: string, b: string)
    ensures Names(RepeatedKey(a, b)) == [a, a, b] && KeyNames(RepeatedKey(a, b)) == [a, a]
  {
    var columns := RepeatedKey(a, b);
    assert columns[1..][1..] == [Column(b, false)] && KeyNames([Column(b, false)]) == [];
  }

  lemma RepeatedNameIsFull(a: string, b: string)
    requires a != b
    ensures IsFullColumnSet([a, a], [a, a, b])
  {
    assert [a, a, b][..2] == [a, a] && [a, a][..1] == [a] && [a][..0] == [];
    assert Once([a], []) == [a];
    assert Once([a, a], []) == [a];
  }

  lemma RepeatedNameIndex(a: string, b: string)
    requires a != b
    ensures IsIndex([a, a, b], map[a := 1, b := 2])
  {
    var names := [a, a, b];
    assert names[0] == a && names[1] == a && names[2] == b;
  }

  /** A repeated key column passes for all columns, so a pair matched on the key can still show an edit. */
  lemma RepeatedKeyColumn(a: string, b: string)
    requires a != b
    ensures var table, index := Table(RepeatedKey(a, b), []), map[a := 1, b := 2];
            var matchOn := KeyNames(table.columns);
            var x := SidesOf(table, table, matchOn, index, index);
            && AreSidesOf(x, table, table, matchOn) && IsFullColumnSet(matchOn, Names(table.columns))
            && !PairsNeverChange(x, AllNames(table, table))
  {
    var table, index := Table(RepeatedKey(a, b), []), map[a := 1, b := 2];
    var matchOn := KeyNames(table.columns);
    var x := SidesOf(table, table, matchOn, index, index);
    RepeatedKeyNames(a, b);
    RepeatedNameIsFull(a, b);
    RepeatedNameIndex(a, b);
    assert matchOn == [a, a] && !Distinct([a, a]) by {
      assert [a, a][0] == [a, a][1];
    }
    hide IsFullColumnSet, IsIndex, Names, KeyNames, AllNames, PairsNeverChange, Distinct, RepeatedKey;
    FullRowPairsNeverChangeIff(table, table, matchOn, x);
  }
}
