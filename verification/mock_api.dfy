/** `MockApiController.getSiteDetails`: turns the rows of the site-details
    query into `{"Results": [{Site, CM, Ranges}, ...]}`. Rows are grouped by
    the string `site + "_" + cm`; every row contributes one range to its
    group. The query itself is an oracle that returns rows or throws. */
module MockApiController {
  import opened Wrappers
  import opened JavaLang

  /** One row of the query, column name to value (`Map<String, Object>`). */
  type Row = map<string, Obj>

  /** `row.get(column)`: null when the column is absent. */
  function Column(row: Row, column: string): Obj {
    if column in row then row[column] else Null
  }

  /** The ClassCastException of `(String)` on a value of another class; the
      JVM's text names that class, which a row value does not record. */
  const CastFailure: Throwable := JvmRaised(ClassCast, "cannot be cast to class java.lang.String")

  /** `(String) row.get(column)`: a string or null; any other value makes the cast throw. */
  function CastString(row: Row, column: string): (r: Result<Option<string>, Throwable>)
    ensures r.Success? <==> Column(row, column).Null? || Column(row, column).Text?
    ensures r.Success? && Column(row, column).Text? ==> r.value == Some(Column(row, column).text)
    ensures r.Failure? ==> RaisedByJvm(r.error, ClassCast)
  {
    match Column(row, column)
    case Null => Success(None)
    case Text(t) => Success(Some(t))
    case _ => Failure(CastFailure)
  }

  /** One entry of `Ranges`; `AvailableExtensions` is always an empty list. */
  datatype Range = Range(kind: Obj, lowerbound: Obj, upperbound: Obj, prefix: Obj, availableExtensions: seq<string>)

  /** One entry of `Results`. */
  datatype Entry = Entry(site: Option<string>, cm: Option<string>, ranges: seq<Range>)

  /** The response map, whose single key is `Results`. */
  datatype Response = Response(results: seq<Entry>)

  /** A row once its `site` and `cm` columns have been cast. */
  datatype Keyed = Keyed(site: Option<string>, cm: Option<string>, range: Range)

  /** The range a row contributes: its four columns, no extensions. */
  function RangeOf(row: Row): (r: Range)
    ensures r.availableExtensions == []
    ensures r.kind == Column(row, "type") && r.lowerbound == Column(row, "lowerbound")
    ensures r.upperbound == Column(row, "upperbound") && r.prefix == Column(row, "prefix")
  {
    Range(Column(row, "type"), Column(row, "lowerbound"), Column(row, "upperbound"), Column(row, "prefix"), [])
  }

  /** The grouping key `site + "_" + cm` (a null operand is spelled "null"). */
  function Key(site: Option<string>, cm: Option<string>): string {
    NullableText(site) + "_" + NullableText(cm)
  }

  /** A grouping key computed from Site and CM. The grouping below works for
      any such key; `getSiteDetails` uses `Key`. */
  type KeyFn<K> = (Option<string>, Option<string>) -> K

  function KeyOf<K>(kf: KeyFn<K>, k: Keyed): K {
    kf(k.site, k.cm)
  }

  function EntryKey<K>(kf: KeyFn<K>, e: Entry): K {
    kf(e.site, e.cm)
  }

  /** Casts `site` and `cm` of every row, in order; the first failing cast aborts. */
  function CastRows(rows: seq<Row>): (r: Result<seq<Keyed>, Throwable>)
    ensures r.Success? <==> forall i :: 0 <= i < |rows| ==>
              CastString(rows[i], "site").Success? && CastString(rows[i], "cm").Success?
    ensures r.Success? ==> |r.value| == |rows| && forall i :: 0 <= i < |rows| ==>
              r.value[i] == Keyed(CastString(rows[i], "site").value, CastString(rows[i], "cm").value, RangeOf(rows[i]))
    ensures r.Failure? ==> RaisedByJvm(r.error, ClassCast)
  {
    if rows == [] then Success([])
    else
      var site :- CastString(rows[0], "site");
      var cm :- CastString(rows[0], "cm");
      var rest :- CastRows(rows[1..]);
      var r := [Keyed(site, cm, RangeOf(rows[0]))] + rest;
      forall i | 1 <= i < |rows|
        ensures r[i] == Keyed(CastString(rows[i], "site").value, CastString(rows[i], "cm").value, RangeOf(rows[i]))
      {
        assert rows[i] == rows[1..][i - 1] && r[i] == rest[i - 1];
      }
      Success(r)
  }

  // ---------------------------------------------------------------------
  // Reference definitions, by the rows
  // ---------------------------------------------------------------------

  /** The keys the rows carry. */
  function RowKeys<K(==)>(kf: KeyFn<K>, rows: seq<Keyed>): set<K> {
    if rows == [] then {} else RowKeys(kf, rows[..|rows| - 1]) + {KeyOf(kf, rows[|rows| - 1])}
  }

  /** The ranges of the rows with key `key`, in row order. */
  function RangesWithKey<K(==)>(kf: KeyFn<K>, rows: seq<Keyed>, key: K): seq<Range> {
    if rows == [] then []
    else RangesWithKey(kf, rows[..|rows| - 1], key) + (if KeyOf(kf, rows[|rows| - 1]) == key then [rows[|rows| - 1].range] else [])
  }

  /** The first row with key `key`. */
  function FirstWithKey<K(==)>(kf: KeyFn<K>, rows: seq<Keyed>, key: K): (r: Option<Keyed>)
    ensures r.Some? ==> KeyOf(kf, r.value) == key
  {
    if rows == [] then None
    else
      var f := FirstWithKey(kf, rows[..|rows| - 1], key);
      if f.Some? then f
      else if KeyOf(kf, rows[|rows| - 1]) == key then Some(rows[|rows| - 1])
      else None
  }

  lemma {:induction false} FirstWithKeyIffKey<K>(kf: KeyFn<K>, rows: seq<Keyed>, key: K)
    ensures FirstWithKey(kf, rows, key).Some? <==> key in RowKeys(kf, rows)
    decreases |rows|
  {
    if rows != [] {
      FirstWithKeyIffKey(kf, rows[..|rows| - 1], key);
    }
  }

  function TotalRanges(entries: seq<Entry>): nat {
    if entries == [] then 0 else TotalRanges(entries[..|entries| - 1]) + |entries[|entries| - 1].ranges|
  }

  lemma {:induction false} TotalRangesAppend(entries: seq<Entry>, e: Entry)
    ensures TotalRanges(entries + [e]) == TotalRanges(entries) + |e.ranges|
  {
    assert (entries + [e])[..|entries|] == entries;
  }

  lemma {:induction false} TotalRangesUpdate(entries: seq<Entry>, j: nat, e: Entry)
    requires j < |entries|
    ensures TotalRanges(entries[j := e]) == TotalRanges(entries) - |entries[j].ranges| + |e.ranges|
    decreases |entries|
  {
    var n := |entries| - 1;
    if j < n {
      TotalRangesUpdate(entries[..n], j, e);
      assert entries[j := e][..n] == entries[..n][j := e];
    } else {
      assert entries[j := e][..n] == entries[..n];
    }
  }

  // ---------------------------------------------------------------------
  // Grouping
  // ---------------------------------------------------------------------

  /** The position of the group with key `key`, if there is one. */
  function IndexOfKey<K(==)>(kf: KeyFn<K>, groups: seq<Entry>, key: K): (r: Option<nat>)
    ensures r.Some? ==> r.value < |groups| && EntryKey(kf, groups[r.value]) == key
    ensures r.None? ==> forall i :: 0 <= i < |groups| ==> EntryKey(kf, groups[i]) != key
  {
    if groups == [] then None
    else if EntryKey(kf, groups[|groups| - 1]) == key then Some(|groups| - 1)
    else IndexOfKey(kf, groups[..|groups| - 1], key)
  }

  /** No two groups share a key. */
  ghost predicate DistinctKeys<K>(kf: KeyFn<K>, groups: seq<Entry>) {
    forall i, j :: 0 <= i < j < |groups| ==> EntryKey(kf, groups[i]) != EntryKey(kf, groups[j])
  }

  /** The group keys are exactly the row keys. */
  ghost predicate CoversKeys<K>(kf: KeyFn<K>, groups: seq<Entry>, rows: seq<Keyed>) {
    && (forall i :: 0 <= i < |groups| ==> EntryKey(kf, groups[i]) in RowKeys(kf, rows))
    && (forall k :: k in RowKeys(kf, rows) ==> exists i :: 0 <= i < |groups| && EntryKey(kf, groups[i]) == k)
  }

  /** Each group holds the ranges of all rows with its key, in row order. */
  ghost predicate CollectsRanges<K>(kf: KeyFn<K>, groups: seq<Entry>, rows: seq<Keyed>) {
    forall i :: 0 <= i < |groups| ==> groups[i].ranges == RangesWithKey(kf, rows, EntryKey(kf, groups[i]))
  }

  /** Each group took Site and CM from the first row with its key. */
  ghost predicate HeadedByFirst<K>(kf: KeyFn<K>, groups: seq<Entry>, rows: seq<Keyed>) {
    forall i :: 0 <= i < |groups| ==>
      var first := FirstWithKey(kf, rows, EntryKey(kf, groups[i]));
      first.Some? && first.value.site == groups[i].site && first.value.cm == groups[i].cm
  }

  /** `groups` is the grouping of `rows`. */
  ghost predicate GroupsOf<K>(kf: KeyFn<K>, groups: seq<Entry>, rows: seq<Keyed>) {
    DistinctKeys(kf, groups) && CoversKeys(kf, groups, rows) && CollectsRanges(kf, groups, rows) && HeadedByFirst(kf, groups, rows)
  }

  /** `groups` is the grouping of `rows`, whose ranges number the rows and
      whose groups number the distinct keys. */
  ghost predicate Grouping<K>(kf: KeyFn<K>, groups: seq<Entry>, rows: seq<Keyed>) {
    GroupsOf(kf, groups, rows) && TotalRanges(groups) == |rows| && |groups| == |RowKeys(kf, rows)|
  }

  /** Adds one row: a new group for a new key, else one more range in the
      group of that key. */
  function AddRow<K(==)>(kf: KeyFn<K>, groups: seq<Entry>, row: Keyed): seq<Entry> {
    match IndexOfKey(kf, groups, KeyOf(kf, row))
    case None => groups + [Entry(row.site, row.cm, [row.range])]
    case Some(j) => groups[j := groups[j].(ranges := groups[j].ranges + [row.range])]
  }

  /** A left fold: `f` applied to each element in turn, starting from `init`. */
  function Fold<S, X>(f: (S, X) -> S, init: S, xs: seq<X>): S
    decreases |xs|
  {
    if xs == [] then init else f(Fold(f, init, xs[..|xs| - 1]), xs[|xs| - 1])
  }

  /** A property of the state and the elements seen so far that every step
      keeps holds after the whole fold. */
  lemma {:induction false} FoldInvariant<S, X>(f: (S, X) -> S, inv: (S, seq<X>) -> bool, init: S, xs: seq<X>)
    requires inv(init, [])
    requires forall s, ys, x | inv(s, ys) :: inv(f(s, x), ys + [x])
    ensures inv(Fold(f, init, xs), xs)
    decreases |xs|
  {
    if xs != [] {
      var prefix := xs[..|xs| - 1];
      FoldInvariant(f, inv, init, prefix);
      assert xs == prefix + [xs[|xs| - 1]];
    }
  }

  /** One step of the grouping loop. */
  function GroupStep<K(==)>(kf: KeyFn<K>): (seq<Entry>, Keyed) -> seq<Entry> {
    (groups, row) => AddRow(kf, groups, row)
  }

  /** The grouping loop of `getSiteDetails` (groups listed in first-seen order). */
  function Group<K(==)>(kf: KeyFn<K>, rows: seq<Keyed>): seq<Entry> {
    Fold(GroupStep(kf), [], rows)
  }

  /** `Group` groups: one group per distinct key, each collecting exactly
      the ranges of the rows with its key, the ranges together numbering the rows. */
  lemma GroupIsGrouping<K>(kf: KeyFn<K>, rows: seq<Keyed>)
    ensures Grouping(kf, Group(kf, rows), rows)
  {
    var inv := (groups, seen) => Grouping(kf, groups, seen);
    forall groups, seen, row | Grouping(kf, groups, seen)
      ensures Grouping(kf, AddRow(kf, groups, row), seen + [row])
    {
      AddRowKeepsGroups(kf, groups, seen, row);
    }
    FoldInvariant(GroupStep(kf), inv, [], rows);
  }

  /** What one more row does to the reference definitions. */
  lemma SnocRow<K>(kf: KeyFn<K>, rows: seq<Keyed>, row: Keyed)
    ensures RowKeys(kf, rows + [row]) == RowKeys(kf, rows) + {KeyOf(kf, row)}
    ensures forall k :: RangesWithKey(kf, rows + [row], k) == RangesWithKey(kf, rows, k) + (if KeyOf(kf, row) == k then [row.range] else [])
    ensures forall k :: FirstWithKey(kf, rows + [row], k) ==
              (if FirstWithKey(kf, rows, k).Some? then FirstWithKey(kf, rows, k) else if KeyOf(kf, row) == k then Some(row) else None)
  {
    assert (rows + [row])[..|rows|] == rows;
  }

  lemma AddRowKeepsGroups<K>(kf: KeyFn<K>, groups: seq<Entry>, rows: seq<Keyed>, row: Keyed)
    requires Grouping(kf, groups, rows)
    ensures Grouping(kf, AddRow(kf, groups, row), rows + [row])
  {
    match IndexOfKey(kf, groups, KeyOf(kf, row))
    case None => AddNewKey(kf, groups, rows, row);
    case Some(j) => AddKnownKey(kf, groups, rows, row, j);
  }

  lemma AddNewKey<K>(kf: KeyFn<K>, groups: seq<Entry>, rows: seq<Keyed>, row: Keyed)
    requires Grouping(kf, groups, rows)
    requires IndexOfKey(kf, groups, KeyOf(kf, row)).None?
    ensures Grouping(kf, groups + [Entry(row.site, row.cm, [row.range])], rows + [row])
  {
    var key := KeyOf(kf, row);
    SnocRow(kf, rows, row);
    FirstWithKeyIffKey(kf, rows, key);
    assert key !in RowKeys(kf, rows);
    NewKeyGroups(kf, groups, rows, row);
    TotalRangesAppend(groups, Entry(row.site, row.cm, [row.range]));
    CardAddOne(RowKeys(kf, rows), key);
  }

  lemma NewKeyGroups<K>(kf: KeyFn<K>, groups: seq<Entry>, rows: seq<Keyed>, row: Keyed)
    requires GroupsOf(kf, groups, rows)
    requires IndexOfKey(kf, groups, KeyOf(kf, row)).None? && KeyOf(kf, row) !in RowKeys(kf, rows)
    ensures GroupsOf(kf, groups + [Entry(row.site, row.cm, [row.range])], rows + [row])
  {
    var key := KeyOf(kf, row);
    var e := Entry(row.site, row.cm, [row.range]);
    SnocRow(kf, rows, row);
    FirstWithKeyIffKey(kf, rows, key);
    RangesWithoutKey(kf, rows, key);
    NewKeyDistinct(kf, groups, e);
    NewKeyCovers(kf, groups, rows, row);
    NewKeyCollects(kf, groups, rows, row);
    NewKeyHeaded(kf, groups, rows, row);
  }

  lemma AddKnownKey<K>(kf: KeyFn<K>, groups: seq<Entry>, rows: seq<Keyed>, row: Keyed, j: nat)
    requires Grouping(kf, groups, rows)
    requires IndexOfKey(kf, groups, KeyOf(kf, row)) == Some(j)
    ensures Grouping(kf, groups[j := groups[j].(ranges := groups[j].ranges + [row.range])], rows + [row])
  {
    SnocRow(kf, rows, row);
    KnownKeyGroups(kf, groups, rows, row, j);
    TotalRangesUpdate(groups, j, groups[j].(ranges := groups[j].ranges + [row.range]));
    assert KeyOf(kf, row) in RowKeys(kf, rows);
    assert RowKeys(kf, rows + [row]) == RowKeys(kf, rows);
  }

  lemma KnownKeyGroups<K>(kf: KeyFn<K>, groups: seq<Entry>, rows: seq<Keyed>, row: Keyed, j: nat)
    requires GroupsOf(kf, groups, rows)
    requires IndexOfKey(kf, groups, KeyOf(kf, row)) == Some(j)
    ensures GroupsOf(kf, groups[j := groups[j].(ranges := groups[j].ranges + [row.range])], rows + [row])
  {
    var e := groups[j].(ranges := groups[j].ranges + [row.range]);
    SnocRow(kf, rows, row);
    KnownKeyDistinct(kf, groups, j, e);
    KnownKeyCovers(kf, groups, rows, row, j);
    KnownKeyCollects(kf, groups, rows, row, j);
    KnownKeyHeaded(kf, groups, rows, row, j);
  }

  lemma NewKeyDistinct<K>(kf: KeyFn<K>, groups: seq<Entry>, e: Entry)
    requires DistinctKeys(kf, groups) && IndexOfKey(kf, groups, EntryKey(kf, e)).None?
    ensures DistinctKeys(kf, groups + [e])
  {
    var groups' := groups + [e];
    forall i, j | 0 <= i < j < |groups'| ensures EntryKey(kf, groups'[i]) != EntryKey(kf, groups'[j]) {
      assert groups'[i] == groups[i];
      if j < |groups| {
        assert groups'[j] == groups[j];
      }
    }
  }

  lemma NewKeyCovers<K>(kf: KeyFn<K>, groups: seq<Entry>, rows: seq<Keyed>, row: Keyed)
    requires CoversKeys(kf, groups, rows)
    requires RowKeys(kf, rows + [row]) == RowKeys(kf, rows) + {KeyOf(kf, row)}
    ensures CoversKeys(kf, groups + [Entry(row.site, row.cm, [row.range])], rows + [row])
  {
    var groups' := groups + [Entry(row.site, row.cm, [row.range])];
    forall k | k in RowKeys(kf, rows + [row]) ensures exists i :: 0 <= i < |groups'| && EntryKey(kf, groups'[i]) == k {
      if k == KeyOf(kf, row) {
        assert EntryKey(kf, groups'[|groups|]) == k;
      } else {
        var i :| 0 <= i < |groups| && EntryKey(kf, groups[i]) == k;
        assert EntryKey(kf, groups'[i]) == k;
      }
    }
    assert forall i :: 0 <= i < |groups| ==> groups'[i] == groups[i];
  }

  lemma NewKeyCollects<K>(kf: KeyFn<K>, groups: seq<Entry>, rows: seq<Keyed>, row: Keyed)
    requires CollectsRanges(kf, groups, rows)
    requires IndexOfKey(kf, groups, KeyOf(kf, row)).None?
    requires RangesWithKey(kf, rows, KeyOf(kf, row)) == []
    requires forall k :: RangesWithKey(kf, rows + [row], k) == RangesWithKey(kf, rows, k) + (if KeyOf(kf, row) == k then [row.range] else [])
    ensures CollectsRanges(kf, groups + [Entry(row.site, row.cm, [row.range])], rows + [row])
  {
    var groups' := groups + [Entry(row.site, row.cm, [row.range])];
    forall i | 0 <= i < |groups'| ensures groups'[i].ranges == RangesWithKey(kf, rows + [row], EntryKey(kf, groups'[i])) {
      if i < |groups| {
        assert groups'[i] == groups[i];
      }
    }
  }

  lemma NewKeyHeaded<K>(kf: KeyFn<K>, groups: seq<Entry>, rows: seq<Keyed>, row: Keyed)
    requires HeadedByFirst(kf, groups, rows)
    requires FirstWithKey(kf, rows, KeyOf(kf, row)).None?
    requires forall k :: FirstWithKey(kf, rows + [row], k) ==
               (if FirstWithKey(kf, rows, k).Some? then FirstWithKey(kf, rows, k) else if KeyOf(kf, row) == k then Some(row) else None)
    ensures HeadedByFirst(kf, groups + [Entry(row.site, row.cm, [row.range])], rows + [row])
  {
    var groups' := groups + [Entry(row.site, row.cm, [row.range])];
    forall i | 0 <= i < |groups'|
      ensures var first := FirstWithKey(kf, rows + [row], EntryKey(kf, groups'[i]));
              first.Some? && first.value.site == groups'[i].site && first.value.cm == groups'[i].cm
    {
      if i < |groups| {
        assert groups'[i] == groups[i];
      }
    }
  }

  lemma KnownKeyDistinct<K>(kf: KeyFn<K>, groups: seq<Entry>, j: nat, e: Entry)
    requires DistinctKeys(kf, groups) && j < |groups| && EntryKey(kf, e) == EntryKey(kf, groups[j])
    ensures DistinctKeys(kf, groups[j := e])
  {
  }

  lemma KnownKeyCovers<K>(kf: KeyFn<K>, groups: seq<Entry>, rows: seq<Keyed>, row: Keyed, j: nat)
    requires CoversKeys(kf, groups, rows)
    requires IndexOfKey(kf, groups, KeyOf(kf, row)) == Some(j)
    requires RowKeys(kf, rows + [row]) == RowKeys(kf, rows) + {KeyOf(kf, row)}
    ensures CoversKeys(kf, groups[j := groups[j].(ranges := groups[j].ranges + [row.range])], rows + [row])
  {
    var groups' := groups[j := groups[j].(ranges := groups[j].ranges + [row.range])];
    assert RowKeys(kf, rows + [row]) == RowKeys(kf, rows);
    forall k | k in RowKeys(kf, rows + [row]) ensures exists i :: 0 <= i < |groups'| && EntryKey(kf, groups'[i]) == k {
      var i :| 0 <= i < |groups| && EntryKey(kf, groups[i]) == k;
      assert EntryKey(kf, groups'[i]) == k;
    }
  }

  lemma KnownKeyCollects<K>(kf: KeyFn<K>, groups: seq<Entry>, rows: seq<Keyed>, row: Keyed, j: nat)
    requires CollectsRanges(kf, groups, rows) && DistinctKeys(kf, groups)
    requires IndexOfKey(kf, groups, KeyOf(kf, row)) == Some(j)
    requires forall k :: RangesWithKey(kf, rows + [row], k) == RangesWithKey(kf, rows, k) + (if KeyOf(kf, row) == k then [row.range] else [])
    ensures CollectsRanges(kf, groups[j := groups[j].(ranges := groups[j].ranges + [row.range])], rows + [row])
  {
  }

  lemma KnownKeyHeaded<K>(kf: KeyFn<K>, groups: seq<Entry>, rows: seq<Keyed>, row: Keyed, j: nat)
    requires HeadedByFirst(kf, groups, rows)
    requires IndexOfKey(kf, groups, KeyOf(kf, row)) == Some(j)
    requires forall k :: FirstWithKey(kf, rows + [row], k) ==
               (if FirstWithKey(kf, rows, k).Some? then FirstWithKey(kf, rows, k) else if KeyOf(kf, row) == k then Some(row) else None)
    ensures HeadedByFirst(kf, groups[j := groups[j].(ranges := groups[j].ranges + [row.range])], rows + [row])
  {
    var groups' := groups[j := groups[j].(ranges := groups[j].ranges + [row.range])];
    forall i | 0 <= i < |groups'|
      ensures var first := FirstWithKey(kf, rows + [row], EntryKey(kf, groups'[i]));
              first.Some? && first.value.site == groups'[i].site && first.value.cm == groups'[i].cm
    {
      assert EntryKey(kf, groups'[i]) == EntryKey(kf, groups[i]);
    }
  }

  lemma CardAddOne<K>(s: set<K>, x: K)
    requires x !in s
    ensures |s + {x}| == |s| + 1
  {
  }

  lemma {:induction false} RangesWithoutKey<K>(kf: KeyFn<K>, rows: seq<Keyed>, key: K)
    requires key !in RowKeys(kf, rows)
    ensures RangesWithKey(kf, rows, key) == []
    decreases |rows|
  {
    if rows != [] {
      RangesWithoutKey(kf, rows[..|rows| - 1], key);
    }
  }

  // ---------------------------------------------------------------------
  // The endpoint
  // ---------------------------------------------------------------------

  /** The single entry returned when there are no rows or something threw. */
  function Fallback(siteName: string): Entry {
    Entry(Some(siteName), Some(""), [])
  }

  /** `getSiteDetails(SiteName)`, given what the query did. No rows, a
      throwing query or a failing cast each give exactly the fallback entry
      for `SiteName`; otherwise one entry per distinct key, holding exactly
      the ranges of the rows with that key, in row order, so that the ranges
      of all entries together number the rows. The response is never empty. */
  function GetSiteDetails(siteName: string, query: Result<seq<Row>, Throwable>): (r: Response)
    ensures |r.results| >= 1
    ensures query.Failure? || query == Success([]) ==> r.results == [Fallback(siteName)]
    ensures query.Success? && CastRows(query.value).Failure? ==> r.results == [Fallback(siteName)]
    ensures query.Success? && query.value != [] && CastRows(query.value).Success? ==>
              var rows := CastRows(query.value).value;
              && GroupsOf(Key, r.results, rows)
              && |r.results| == |RowKeys(Key, rows)|
              && TotalRanges(r.results) == |query.value|
  {
    match query
    case Failure(_) => Response([Fallback(siteName)])
    case Success(rows) =>
      if rows == [] then Response([Fallback(siteName)])
      else
        match CastRows(rows)
        case Failure(_) => Response([Fallback(siteName)])
        case Success(keyed) =>
          assert KeyOf(Key, keyed[|keyed| - 1]) in RowKeys(Key, keyed);
          GroupIsGrouping(Key, keyed);
          Response(Group(Key, keyed))
  }

  /** Distinct (site, cm) pairs whose keys concatenate alike share one group:
      `("a_b", "c")` and `("a", "b_c")` both have key "a_b_c", and the group
      keeps the first row's Site and CM. */
  lemma KeyCollisionMerges()
    ensures var r1 := Keyed(Some("a_b"), Some("c"), Range(Null, Null, Null, Null, []));
            var r2 := Keyed(Some("a"), Some("b_c"), Range(Null, Null, Null, Null, []));
            KeyOf(Key, r1) == KeyOf(Key, r2) && |Group(Key, [r1, r2])| == 1
            && Group(Key, [r1, r2])[0].site == Some("a_b") && |Group(Key, [r1, r2])[0].ranges| == 2
  {
    var r1 := Keyed(Some("a_b"), Some("c"), Range(Null, Null, Null, Null, []));
    var r2 := Keyed(Some("a"), Some("b_c"), Range(Null, Null, Null, Null, []));
    assert KeyOf(Key, r1) == "a_b_c" && KeyOf(Key, r2) == "a_b_c";
    SnocRow(Key, [], r1);
    SnocRow(Key, [r1], r2);
    assert [] + [r1] == [r1] && [r1] + [r2] == [r1, r2];
    assert RowKeys(Key, [r1, r2]) == {"a_b_c"};
    GroupIsGrouping(Key, [r1, r2]);
    var g := Group(Key, [r1, r2]);
    assert EntryKey(Key, g[0]) == "a_b_c";
    assert FirstWithKey(Key, [r1, r2], "a_b_c") == Some(r1);
    assert RangesWithKey(Key, [r1, r2], "a_b_c") == [r1.range, r2.range];
  }
}
