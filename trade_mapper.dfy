/** The trade lookup: a left merge of inspection rows against the master
    (Room, Component) -> Trade table, with "Unknown Trade" for rows that find no
    trade, and a mapper object that loads the master table on first use. */
module TradeMapper {
  import opened Wrappers
  import opened Seqs

  /** One row of the master mapping. A CSV cell left empty reads as a missing value. */
  datatype MapRow = MapRow(room: Option<string>, component: Option<string>, trade: Option<string>)

  /** An inspection row, keyed by Room and Component; `rest` stands for its other columns. */
  datatype Item<T> = Item(room: Option<string>, component: Option<string>, rest: T)

  /** A merged row: the inspection row with the trade the mapping gave it. */
  datatype Mapped<T> = Mapped(item: Item<T>, trade: string)

  const UnknownTrade: string := "Unknown Trade"

  /** The merge key matches; a missing key matches a missing key, as in a DataFrame merge. */
  predicate SameKey<T>(m: MapRow, x: Item<T>) {
    m.room == x.room && m.component == x.component
  }

  /** The mapping rows that share the item's key, in table order. */
  function Matches<T>(mapping: seq<MapRow>, x: Item<T>): (r: seq<MapRow>)
    ensures forall k :: 0 <= k < |r| ==> r[k] in mapping && SameKey(r[k], x)
    ensures forall m :: m in mapping && SameKey(m, x) ==> m in r
  {
    FilterMembersAll(mapping, (m: MapRow) => SameKey(m, x));
    Filter(mapping, (m: MapRow) => SameKey(m, x))
  }

  lemma FilterMembersAll<U>(s: seq<U>, p: U -> bool)
    ensures forall y :: y in Filter(s, p) <==> y in s && p(y)
  {
    forall y ensures y in Filter(s, p) <==> y in s && p(y) {
      FilterMembers(s, p, y);
    }
  }

  /** A missing trade becomes "Unknown Trade". */
  function FillTrade(t: Option<string>): (r: string)
    ensures t.Some? ==> r == t.value
    ensures t.None? ==> r == UnknownTrade
  {
    OptionOr(t, UnknownTrade)
  }

  /** The rows one item contributes: one per matching mapping row, or the item alone. */
  function RowsFor<T>(matches: seq<MapRow>, x: Item<T>): (r: seq<Mapped<T>>)
    ensures |r| == if matches == [] then 1 else |matches|
  {
    if matches == [] then [Mapped(x, UnknownTrade)]
    else seq(|matches|, k requires 0 <= k < |matches| => Mapped(x, FillTrade(matches[k].trade)))
  }

  /** The left merge on (Room, Component) followed by filling the missing trades. */
  function LeftMerge<T>(items: seq<Item<T>>, mapping: seq<MapRow>): seq<Mapped<T>>
    decreases |items|
  {
    if items == [] then []
    else RowsFor(Matches(mapping, items[0]), items[0]) + LeftMerge(items[1..], mapping)
  }

  /** How many output rows a left merge produces for one item. */
  function Multiplicity<T>(mapping: seq<MapRow>, x: Item<T>): nat {
    var n := |Matches(mapping, x)|;
    if n == 0 then 1 else n
  }

  function TotalRows<T>(items: seq<Item<T>>, mapping: seq<MapRow>): nat
    decreases |items|
  {
    if items == [] then 0 else Multiplicity(mapping, items[0]) + TotalRows(items[1..], mapping)
  }

  /** The merge keeps every input row and multiplies it by its number of matches. */
  lemma {:induction false} LeftMergeSize<T>(items: seq<Item<T>>, mapping: seq<MapRow>)
    ensures |LeftMerge(items, mapping)| == TotalRows(items, mapping)
    ensures |LeftMerge(items, mapping)| >= |items|
    decreases |items|
  {
    if items != [] {
      LeftMergeSize(items[1..], mapping);
    }
  }

  /** A merged row is right for the mapping: an item without a matching mapping row
      keeps the default trade, and an item with matches takes the (filled) trade of
      one of them. */
  predicate MergedRight<T>(mapping: seq<MapRow>, row: Mapped<T>) {
    (Matches(mapping, row.item) == [] ==> row.trade == UnknownTrade)
    && (Matches(mapping, row.item) != [] ==>
          exists m :: m in mapping && SameKey(m, row.item) && row.trade == FillTrade(m.trade))
  }

  /** Every merged row comes from an input row and carries the trade the mapping gives
      it: the default without a match, a matching row's trade otherwise. */
  lemma {:induction false} LeftMergeRows<T>(items: seq<Item<T>>, mapping: seq<MapRow>)
    ensures forall k :: 0 <= k < |LeftMerge(items, mapping)| ==>
      LeftMerge(items, mapping)[k].item in items && MergedRight(mapping, LeftMerge(items, mapping)[k])
    decreases |items|
  {
    if items != [] {
      LeftMergeRows(items[1..], mapping);
      var x := items[0];
      var ms := Matches(mapping, x);
      var head := RowsFor(ms, x);
      var tail := LeftMerge(items[1..], mapping);
      forall k | 0 <= k < |head|
        ensures head[k].item == x && MergedRight(mapping, head[k])
      {
        if ms != [] {
          assert head[k] == Mapped(x, FillTrade(ms[k].trade));
          assert ms[k] in mapping && SameKey(ms[k], x);
        }
      }
      forall k | 0 <= k < |tail| ensures tail[k].item in items {
        assert tail[k].item in items[1..];
      }
    }
  }

  /** It is a left merge: every input row appears in the output, in input order. */
  lemma {:induction false} LeftMergeKeepsItems<T>(items: seq<Item<T>>, mapping: seq<MapRow>)
    ensures forall i :: 0 <= i < |items| ==>
      exists k :: 0 <= k < |LeftMerge(items, mapping)| && LeftMerge(items, mapping)[k].item == items[i]
    decreases |items|
  {
    if items != [] {
      LeftMergeKeepsItems(items[1..], mapping);
      var head := RowsFor(Matches(mapping, items[0]), items[0]);
      var tail := LeftMerge(items[1..], mapping);
      assert LeftMerge(items, mapping) == head + tail;
      assert head[0].item == items[0] by {
        if Matches(mapping, items[0]) != [] {
          assert head[0] == Mapped(items[0], FillTrade(Matches(mapping, items[0])[0].trade));
        }
      }
      forall i | 0 < i < |items|
        ensures exists k :: 0 <= k < |head + tail| && (head + tail)[k].item == items[i]
      {
        assert items[1..][i - 1] == items[i];
        var k :| 0 <= k < |tail| && tail[k].item == items[1..][i - 1];
        assert (head + tail)[|head| + k] == tail[k];
      }
      assert (head + tail)[0] == head[0];
    }
  }

  /** Keys are unique when no two mapping rows share a (Room, Component) pair. */
  predicate UniqueKeys(mapping: seq<MapRow>) {
    forall i, j :: 0 <= i < j < |mapping| ==>
      (mapping[i].room, mapping[i].component) != (mapping[j].room, mapping[j].component)
  }

  /** The trade a unique-key mapping gives an item: the matching row's, or the default. */
  function LookupTrade<T>(mapping: seq<MapRow>, x: Item<T>): (r: string)
    ensures r == UnknownTrade ||
            exists m :: m in mapping && SameKey(m, x) && m.trade == Some(r)
    ensures (forall m :: m in mapping ==> !SameKey(m, x)) ==> r == UnknownTrade
    ensures (exists m :: m in mapping && SameKey(m, x)) ==>
              exists m :: m in mapping && SameKey(m, x) && r == FillTrade(m.trade)
    decreases |mapping|
  {
    if mapping == [] then UnknownTrade
    else if SameKey(mapping[0], x) then FillTrade(mapping[0].trade)
    else LookupTrade(mapping[1..], x)
  }

  /** The first mapping row with the item's key decides the lookup. */
  lemma {:induction false} LookupFirstMatch<T>(mapping: seq<MapRow>, x: Item<T>, i: nat)
    requires i < |mapping| && SameKey(mapping[i], x)
    requires forall j :: 0 <= j < i ==> !SameKey(mapping[j], x)
    ensures LookupTrade(mapping, x) == FillTrade(mapping[i].trade)
    decreases i
  {
    if i > 0 {
      assert !SameKey(mapping[0], x);
      assert forall j :: 0 <= j < i - 1 ==> mapping[1..][j] == mapping[j + 1];
      LookupFirstMatch(mapping[1..], x, i - 1);
    }
  }

  /** With unique keys, an item whose key is in the mapping gets that row's trade. */
  lemma LookupFindsTrade<T>(mapping: seq<MapRow>, x: Item<T>, m: MapRow)
    requires UniqueKeys(mapping) && m in mapping && SameKey(m, x)
    ensures LookupTrade(mapping, x) == FillTrade(m.trade)
  {
    var i :| 0 <= i < |mapping| && mapping[i] == m;
    forall j | 0 <= j < i ensures !SameKey(mapping[j], x) {
      assert (mapping[j].room, mapping[j].component) != (mapping[i].room, mapping[i].component);
    }
    LookupFirstMatch(mapping, x, i);
  }

  lemma {:induction false} UniqueMatchesAtMostOne<T>(mapping: seq<MapRow>, x: Item<T>)
    requires UniqueKeys(mapping)
    ensures |Matches(mapping, x)| <= 1
    ensures Matches(mapping, x) == [] ==> LookupTrade(mapping, x) == UnknownTrade
    ensures Matches(mapping, x) == [] || FillTrade(Matches(mapping, x)[0].trade) == LookupTrade(mapping, x)
    decreases |mapping|
  {
    if mapping != [] {
      var p := (m: MapRow) => SameKey(m, x);
      assert UniqueKeys(mapping[1..]) by {
        forall i, j | 0 <= i < j < |mapping[1..]|
          ensures (mapping[1..][i].room, mapping[1..][i].component) !=
                  (mapping[1..][j].room, mapping[1..][j].component)
        {
          assert mapping[1..][i] == mapping[i + 1] && mapping[1..][j] == mapping[j + 1];
        }
      }
      UniqueMatchesAtMostOne(mapping[1..], x);
      if SameKey(mapping[0], x) {
        NoOtherMatch(mapping, x);
        assert Filter(mapping, p) == [mapping[0]] + Filter(mapping[1..], p);
      } else {
        assert Filter(mapping, p) == Filter(mapping[1..], p);
      }
    }
  }

  lemma NoOtherMatch<T>(mapping: seq<MapRow>, x: Item<T>)
    requires UniqueKeys(mapping) && mapping != [] && SameKey(mapping[0], x)
    ensures Filter(mapping[1..], (m: MapRow) => SameKey(m, x)) == []
  {
    var p := (m: MapRow) => SameKey(m, x);
    var f := Filter(mapping[1..], p);
    if f != [] {
      FilterMembers(mapping[1..], p, f[0]);
      assert false;
    }
  }

  /** With unique keys the merge is one-to-one: row k is item k with its looked-up trade. */
  lemma {:induction false} UniqueKeysPreserveRows<T>(items: seq<Item<T>>, mapping: seq<MapRow>)
    requires UniqueKeys(mapping)
    ensures |LeftMerge(items, mapping)| == |items|
    ensures forall k :: 0 <= k < |items| ==>
      LeftMerge(items, mapping)[k] == Mapped(items[k], LookupTrade(mapping, items[k]))
    decreases |items|
  {
    if items != [] {
      UniqueKeysPreserveRows(items[1..], mapping);
      UniqueMatchesAtMostOne(mapping, items[0]);
      var ms := Matches(mapping, items[0]);
      var head := RowsFor(ms, items[0]);
      assert |head| == 1 && head[0] == Mapped(items[0], LookupTrade(mapping, items[0]));
      forall k | 0 <= k < |items|
        ensures LeftMerge(items, mapping)[k] == Mapped(items[k], LookupTrade(mapping, items[k]))
      {
        if k > 0 {
          assert LeftMerge(items, mapping)[k] == LeftMerge(items[1..], mapping)[k - 1];
          assert items[1..][k - 1] == items[k];
        }
      }
    }
  }

  /** A key that appears twice in the mapping doubles the item's rows. */
  lemma DuplicatedKeyDuplicatesRow<T>(x: Item<T>, a: MapRow, b: MapRow)
    requires SameKey(a, x) && SameKey(b, x)
    ensures |LeftMerge([x], [a, b])| == 2
    ensures LeftMerge([x], [a, b]) == [Mapped(x, FillTrade(a.trade)), Mapped(x, FillTrade(b.trade))]
  {
    var p := (m: MapRow) => SameKey(m, x);
    assert Filter([a, b], p) == [a] + Filter([b], p);
    assert Filter([b], p) == [b] + Filter([], p);
    assert Matches([a, b], x) == [a, b];
  }

  // ---------------------------------------------------------------------------
  // The master table and the caching mapper
  // ---------------------------------------------------------------------------

  /** What looking for the master CSV found. */
  datatype MappingSource = CsvFile(rows: seq<MapRow>) | NoFile | ReadError

  /** The built-in table used when the CSV is absent. */
  const FallbackMapping: seq<MapRow> := [
    MapRow(Some("Apartment Entry Door"), Some("Door Handle"), Some("Doors")),
    MapRow(Some("Apartment Entry Door"), Some("Door Locks and Keys"), Some("Doors")),
    MapRow(Some("Balcony"), Some("Balustrade"), Some("Carpentry & Joinery")),
    MapRow(Some("Bathroom"), Some("Tiles"), Some("Flooring - Tiles")),
    MapRow(Some("Kitchen Area"), Some("Cabinets"), Some("Carpentry & Joinery"))
  ]

  /** The CSV's rows, the fallback table when there is no file, nothing on error. */
  function LoadMasterMapping(src: MappingSource): (r: seq<MapRow>)
    ensures src.CsvFile? ==> r == src.rows
    ensures src.NoFile? ==> |r| == 5 && UniqueKeys(r)
    ensures src.ReadError? ==> r == []
  {
    match src
    case CsvFile(rows) => rows
    case NoFile => FallbackUnique(); FallbackMapping
    case ReadError => []
  }

  lemma FallbackUnique()
    ensures UniqueKeys(FallbackMapping)
  {
    var f := FallbackMapping;
    assert f[0].component != f[1].component;
    assert forall i, j :: 0 <= i < 2 && 2 <= j < |f| ==> f[i].room != f[j].room;
    assert f[2].room != f[3].room && f[2].room != f[4].room && f[3].room != f[4].room;
  }

  /** With no mapping rows at all, every row is kept once with the default trade. */
  lemma EmptyMappingAllUnknown<T>(items: seq<Item<T>>)
    ensures UniqueKeys([])
    ensures |LeftMerge(items, [])| == |items|
    ensures forall k :: 0 <= k < |items| ==> LeftMerge(items, [])[k] == Mapped(items[k], UnknownTrade)
  {
    UniqueKeysPreserveRows(items, []);
  }

  /** The mapper: the master table stays unloaded until the first merge asks for it. */
  class Mapper {
    var masterMapping: Option<seq<MapRow>>

    constructor ()
      ensures masterMapping == None
    {
      masterMapping := None;
    }

    /** Loads the master table if it is not cached yet (from `src`, what the loader
        finds now), then merges against the cached table. */
    method ApplyMapping<T>(items: seq<Item<T>>, src: MappingSource) returns (merged: seq<Mapped<T>>)
      modifies this
      ensures old(masterMapping).None? ==> masterMapping == Some(LoadMasterMapping(src))
      ensures old(masterMapping).Some? ==> masterMapping == old(masterMapping)
      ensures masterMapping.Some? && merged == LeftMerge(items, masterMapping.value)
    {
      if masterMapping.None? {
        masterMapping := Some(LoadMasterMapping(src));
      }
      merged := LeftMerge(items, masterMapping.value);
    }
  }

  /** Once loaded, later calls ignore what the loader would find: the result depends
      only on the cached table. */
  method CachedAcrossCalls<T>(a: seq<Item<T>>, b: seq<Item<T>>, first: MappingSource, later: MappingSource)
    returns (ra: seq<Mapped<T>>, rb: seq<Mapped<T>>)
    ensures ra == LeftMerge(a, LoadMasterMapping(first))
    ensures rb == LeftMerge(b, LoadMasterMapping(first))
  {
    var m := new Mapper();
    ra := m.ApplyMapping(a, first);
    rb := m.ApplyMapping(b, later);
  }
}
