/**
 * The data logic of the status chart component: the lenient status and
 * category buckets, the derived chart series (available years, the
 * category filter, the flattened series points) and the CSV export
 * (year-range filter, row serialisation, link column and file name).
 *
 * Everything here is a pure function of the fetched dataset and the
 * component's selections; the DOM download itself is not modelled.
 */
module StatusChart {
  import opened Strings

  /** One status change as served by the final-status-by-year endpoint. */
  datatype StatusChange = StatusChange(eip: string, lastStatus: string, eipTitle: string, eipCategory: string)

  /** One entry of the dataset: a year and the changes recorded in it. */
  datatype YearGroup = YearGroup(year: int, statusChanges: seq<StatusChange>)

  /** One point of the stacked column series. */
  datatype SeriesPoint = SeriesPoint(status: string, year: int, value: int)

  /**
   * A year selector's value: `undefined` before any choice, `NaN` after
   * choosing the blank option (`parseInt("")`), or a year.
   */
  datatype Bound = Unset | NaN | Year(value: int)

  /** One row of the exported CSV, with the year already rendered. */
  datatype ExportRow = ExportRow(eip: string, lastStatus: string, eipTitle: string, eipCategory: string, year: string)

  /** A status change together with the year of the group it came from. */
  datatype Entry = Entry(change: StatusChange, year: int)

  // ---------------------------------------------------------------------
  // Buckets
  // ---------------------------------------------------------------------

  const StatusBuckets: set<string> :=
    {"Draft", "Final", "Last Call", "Withdrawn", "Review", "Living", "Stagnant"}

  /** Every status string the chart recognises, with its bucket. */
  const StatusTable: map<string, string> := map[
    "Draft" := "Draft",
    "Final" := "Final", "Accepted" := "Final", "Superseded" := "Final",
    "Last Call" := "Last Call",
    "Withdrawn" := "Withdrawn", "Abandoned" := "Withdrawn", "Rejected" := "Withdrawn",
    "Review" := "Review",
    "Living" := "Living", "Active" := "Living",
    "Stagnant" := "Stagnant"
  ]

  /** The status bucket of a raw status; unknown strings land in "Final". */
  function GetStatus(status: string): (bucket: string)
    ensures bucket == if status in StatusTable then StatusTable[status] else "Final"
    ensures bucket in StatusBuckets
    ensures status in StatusBuckets ==> bucket == status
  {
    if status == "Draft" then "Draft"
    else if status == "Final" || status == "Accepted" || status == "Superseded" then "Final"
    else if status == "Last Call" then "Last Call"
    else if status == "Withdrawn" || status == "Abandoned" || status == "Rejected" then "Withdrawn"
    else if status == "Review" then "Review"
    else if status == "Living" || status == "Active" then "Living"
    else if status == "Stagnant" then "Stagnant"
    else "Final"
  }

  lemma GetStatusIdempotent(status: string)
    ensures GetStatus(GetStatus(status)) == GetStatus(status)
  {
  }

  const CategoryBuckets: set<string> :=
    {"Core", "ERC", "Networking", "Interface", "Meta", "Informational"}

  /** Every category string the chart recognises, with its bucket. */
  const CategoryTable: map<string, string> := map[
    "Standards Track" := "Core", "Standard Track" := "Core",
    "Standards Track (Core, Networking, Interface, ERC)" := "Core",
    "Standard" := "Core", "Process" := "Core", "Core" := "Core", "core" := "Core",
    "ERC" := "ERC",
    "Networking" := "Networking",
    "Interface" := "Interface",
    "Meta" := "Meta",
    "Informational" := "Informational"
  ]

  /** The category bucket of a raw category; unknown strings land in "Core". */
  function GetCat(cat: string): (bucket: string)
    ensures bucket == if cat in CategoryTable then CategoryTable[cat] else "Core"
    ensures bucket in CategoryBuckets
    ensures cat in CategoryBuckets ==> bucket == cat
    ensures bucket == "ERC" <==> cat == "ERC"
  {
    if cat == "Standards Track" || cat == "Standard Track"
       || cat == "Standards Track (Core, Networking, Interface, ERC)"
       || cat == "Standard" || cat == "Process" || cat == "Core" || cat == "core" then "Core"
    else if cat == "ERC" then "ERC"
    else if cat == "Networking" then "Networking"
    else if cat == "Interface" then "Interface"
    else if cat == "Meta" then "Meta"
    else if cat == "Informational" then "Informational"
    else "Core"
  }

  lemma GetCatIdempotent(cat: string)
    ensures GetCat(GetCat(cat)) == GetCat(cat)
  {
  }

  // ---------------------------------------------------------------------
  // Available years
  // ---------------------------------------------------------------------

  function Years(groups: seq<YearGroup>): (ys: seq<int>)
    ensures |ys| == |groups|
    ensures forall i :: 0 <= i < |groups| ==> ys[i] == groups[i].year
  {
    if groups == [] then [] else [groups[0].year] + Years(groups[1..])
  }

  predicate Distinct(s: seq<int>) {
    forall i, j :: 0 <= i < j < |s| ==> s[i] != s[j]
  }

  predicate StrictlyAscending(s: seq<int>) {
    forall i, j :: 0 <= i < j < |s| ==> s[i] < s[j]
  }

  /** `Array.from(new Set(xs))`: each value of the input, once. */
  function Dedupe(xs: seq<int>): (d: seq<int>)
    ensures forall x :: x in d <==> x in xs
    ensures Distinct(d)
  {
    if xs == [] then []
    else
      var init := Dedupe(xs[..|xs| - 1]);
      var last := xs[|xs| - 1];
      assert xs == xs[..|xs| - 1] + [last];
      if last in init then init else init + [last]
  }

  /** Puts `x` before the first element not below it. */
  function Insert(x: int, s: seq<int>): (r: seq<int>)
    ensures multiset(r) == multiset(s) + multiset{x}
    ensures forall y :: y in r <==> y == x || y in s
  {
    if s == [] || x <= s[0] then [x] + s
    else
      assert s == [s[0]] + s[1..];
      [s[0]] + Insert(x, s[1..])
  }

  /** `sort((a, b) => a - b)`: a numeric ascending sort (insertion sort). */
  function SortAscending(xs: seq<int>): (r: seq<int>)
    ensures multiset(r) == multiset(xs)
  {
    if xs == [] then []
    else
      assert xs == [xs[0]] + xs[1..];
      Insert(xs[0], SortAscending(xs[1..]))
  }

  lemma {:induction false} InsertStrict(x: int, s: seq<int>)
    requires StrictlyAscending(s) && x !in s
    ensures StrictlyAscending(Insert(x, s))
  {
    if s != [] && x > s[0] {
      InsertStrict(x, s[1..]);
      var rest := Insert(x, s[1..]);
      forall y | y in rest ensures s[0] < y {
        if y != x {
          var k :| 0 <= k < |s[1..]| && s[1..][k] == y;
          assert s[k + 1] == y;
        }
      }
      var r := Insert(x, s);
      assert r == [s[0]] + rest;
      forall i, j | 0 <= i < j < |r| ensures r[i] < r[j] {
        if i == 0 { assert r[j] == rest[j - 1] && rest[j - 1] in rest; }
        else { assert r[i] == rest[i - 1] && r[j] == rest[j - 1]; }
      }
    }
  }

  lemma {:induction false} SortDistinctIsStrict(xs: seq<int>)
    requires Distinct(xs)
    ensures StrictlyAscending(SortAscending(xs))
  {
    if xs != [] {
      SortDistinctIsStrict(xs[1..]);
      var sorted := SortAscending(xs[1..]);
      assert xs[0] !in xs[1..];
      assert xs[0] !in multiset(xs[1..]);
      assert xs[0] !in sorted by { assert xs[0] !in multiset(sorted); }
      InsertStrict(xs[0], sorted);
    }
  }

  /** The year options of both selectors. */
  function AvailableYears(typeData: seq<YearGroup>): (years: seq<int>)
    ensures StrictlyAscending(years)
    ensures forall y :: y in years <==> exists g :: g in typeData && g.year == y
  {
    var distinct := Dedupe(Years(typeData));
    SortDistinctIsStrict(distinct);
    var years := SortAscending(distinct);
    forall y ensures y in years <==> y in distinct {
      assert y in years <==> y in multiset(years);
    }
    forall y ensures y in Years(typeData) <==> exists g :: g in typeData && g.year == y {
      if y in Years(typeData) {
        var i :| 0 <= i < |typeData| && Years(typeData)[i] == y;
        assert typeData[i] in typeData;
      }
    }
    years
  }

  lemma HeadIsMember(s: seq<int>)
    requires s != []
    ensures s[0] in s
  {
  }

  /** Two strictly ascending sequences with the same elements are equal. */
  lemma {:induction false} StrictlyAscendingUnique(a: seq<int>, b: seq<int>)
    requires StrictlyAscending(a) && StrictlyAscending(b)
    requires forall x :: x in a <==> x in b
    ensures a == b
  {
    if a != [] && b != [] {
      assert a[0] in b && b[0] in a;
      assert a[0] == b[0];
      forall x ensures x in a[1..] <==> x in b[1..] {
        if x in a[1..] { assert x in a && x != b[0]; }
        if x in b[1..] { assert x in b && x != a[0]; }
      }
      StrictlyAscendingUnique(a[1..], b[1..]);
      assert a == [a[0]] + a[1..] && b == [b[0]] + b[1..];
    } else if a != [] {
      HeadIsMember(a);
      assert false;
    } else if b != [] {
      HeadIsMember(b);
      assert false;
    }
  }

  /** The year options are the only strictly ascending list of the dataset's years. */
  lemma AvailableYearsUnique(typeData: seq<YearGroup>, years: seq<int>)
    requires StrictlyAscending(years)
    requires forall y :: y in years <==> exists g :: g in typeData && g.year == y
    ensures years == AvailableYears(typeData)
  {
    StrictlyAscendingUnique(years, AvailableYears(typeData));
  }

  // ---------------------------------------------------------------------
  // Category filter (filteredData)
  // ---------------------------------------------------------------------

  /** `a` is `b` with some elements dropped, order kept. */
  predicate Subsequence<T(==)>(a: seq<T>, b: seq<T>)
    decreases |b|
  {
    a == [] || (b != [] && ((a[0] == b[0] && Subsequence(a[1..], b[1..])) || Subsequence(a, b[1..])))
  }

  predicate InCategory(c: StatusChange, category: string) {
    GetCat(c.eipCategory) == category
  }

  /** `statusChanges.filter((x) => getCat(x.eipCategory) === category)`. */
  function KeepCategory(changes: seq<StatusChange>, category: string): (kept: seq<StatusChange>)
    ensures Subsequence(kept, changes)
    ensures forall c :: c in kept <==> c in changes && InCategory(c, category)
    ensures forall c :: multiset(kept)[c] == if InCategory(c, category) then multiset(changes)[c] else 0
  {
    if changes == [] then []
    else
      assert changes == [changes[0]] + changes[1..];
      if InCategory(changes[0], category) then [changes[0]] + KeepCategory(changes[1..], category)
      else KeepCategory(changes[1..], category)
  }

  lemma {:induction false} KeepCategoryIdempotent(changes: seq<StatusChange>, category: string)
    ensures KeepCategory(KeepCategory(changes, category), category) == KeepCategory(changes, category)
  {
    if changes != [] {
      KeepCategoryIdempotent(changes[1..], category);
    }
  }

  /** `filteredData`: every year kept, each year's changes cut to the category. */
  function FilteredData(typeData: seq<YearGroup>, category: string): (filtered: seq<YearGroup>)
    ensures Years(filtered) == Years(typeData)
    ensures forall i :: 0 <= i < |typeData| ==> filtered[i].statusChanges == KeepCategory(typeData[i].statusChanges, category)
    ensures forall i :: 0 <= i < |typeData| ==>
      && Subsequence(filtered[i].statusChanges, typeData[i].statusChanges)
      && (forall c :: c in filtered[i].statusChanges <==> c in typeData[i].statusChanges && InCategory(c, category))
  {
    if typeData == [] then []
    else
      [YearGroup(typeData[0].year, KeepCategory(typeData[0].statusChanges, category))]
      + FilteredData(typeData[1..], category)
  }

  // ---------------------------------------------------------------------
  // Flattening (transformedData and the export share it)
  // ---------------------------------------------------------------------

  function TotalChanges(groups: seq<YearGroup>): nat {
    if groups == [] then 0 else |groups[0].statusChanges| + TotalChanges(groups[1..])
  }

  /** Where group `i`'s changes begin in the flattened order. */
  function Offset(groups: seq<YearGroup>, i: nat): nat
    requires i <= |groups|
  {
    TotalChanges(groups[..i])
  }

  function EntriesOf(year: int, changes: seq<StatusChange>): (es: seq<Entry>)
    ensures |es| == |changes|
    ensures forall j :: 0 <= j < |changes| ==> es[j] == Entry(changes[j], year)
  {
    if changes == [] then [] else [Entry(changes[0], year)] + EntriesOf(year, changes[1..])
  }

  /** Every change of every group, in dataset order, tagged with its year. */
  function Flatten(groups: seq<YearGroup>): (es: seq<Entry>)
    ensures |es| == TotalChanges(groups)
  {
    if groups == [] then []
    else EntriesOf(groups[0].year, groups[0].statusChanges) + Flatten(groups[1..])
  }

  lemma {:induction false} FlattenAt(groups: seq<YearGroup>, i: nat, j: nat)
    requires i < |groups| && j < |groups[i].statusChanges|
    ensures Offset(groups, i) + j < |Flatten(groups)|
    ensures Flatten(groups)[Offset(groups, i) + j] == Entry(groups[i].statusChanges[j], groups[i].year)
  {
    var head := EntriesOf(groups[0].year, groups[0].statusChanges);
    var rest := Flatten(groups[1..]);
    assert Flatten(groups) == head + rest;
    if i == 0 {
      assert groups[..0] == [];
      assert (head + rest)[j] == head[j];
    } else {
      FlattenAt(groups[1..], i - 1, j);
      assert groups[..i][0] == groups[0];
      assert groups[..i][1..] == groups[1..][..i - 1];
      assert Offset(groups, i) == |head| + Offset(groups[1..], i - 1);
      var k := Offset(groups[1..], i - 1) + j;
      assert (head + rest)[|head| + k] == rest[k];
      assert groups[1..][i - 1] == groups[i];
    }
  }

  lemma {:induction false} FlattenMembers(groups: seq<YearGroup>, e: Entry)
    ensures e in Flatten(groups) <==> exists g :: g in groups && g.year == e.year && e.change in g.statusChanges
  {
    if groups != [] {
      FlattenMembers(groups[1..], e);
      var head := EntriesOf(groups[0].year, groups[0].statusChanges);
      if e in head {
        var j :| 0 <= j < |head| && head[j] == e;
        assert groups[0] in groups && groups[0].statusChanges[j] == e.change;
      }
      if exists g :: g in groups && g.year == e.year && e.change in g.statusChanges {
        var g :| g in groups && g.year == e.year && e.change in g.statusChanges;
        if g == groups[0] {
          var j :| 0 <= j < |g.statusChanges| && g.statusChanges[j] == e.change;
          assert head[j] == e;
        } else {
          assert g in groups[1..];
        }
      }
    }
  }

  // ---------------------------------------------------------------------
  // Series points (transformedData)
  // ---------------------------------------------------------------------

  function ToPoint(e: Entry): SeriesPoint {
    SeriesPoint(GetStatus(e.change.lastStatus), e.year, 1)
  }

  function PointsOf(year: int, changes: seq<StatusChange>): (ps: seq<SeriesPoint>)
    ensures |ps| == |changes|
    ensures forall p :: p in ps ==> p.value == 1 && p.status in StatusBuckets && p.year == year
  {
    if changes == [] then []
    else [SeriesPoint(GetStatus(changes[0].lastStatus), year, 1)] + PointsOf(year, changes[1..])
  }

  /**
   * `filteredData.flatMap(...)`: one point per change, each counting 1
   * towards a status bucket in a year of the dataset.
   */
  function TransformedData(filtered: seq<YearGroup>): (ps: seq<SeriesPoint>)
    ensures |ps| == TotalChanges(filtered)
    ensures forall p :: p in ps ==> p.value == 1 && p.status in StatusBuckets && exists g :: g in filtered && g.year == p.year
  {
    if filtered == [] then []
    else PointsOf(filtered[0].year, filtered[0].statusChanges) + TransformedData(filtered[1..])
  }

  /** `s.map(f)`: the image of every element, in order. */
  function Map<T, U>(s: seq<T>, f: T -> U): (r: seq<U>)
    ensures |r| == |s|
    ensures forall k :: 0 <= k < |s| ==> r[k] == f(s[k])
  {
    if s == [] then [] else [f(s[0])] + Map(s[1..], f)
  }

  lemma MapAppend<T, U>(a: seq<T>, b: seq<T>, f: T -> U)
    ensures Map(a + b, f) == Map(a, f) + Map(b, f)
  {
    var whole, parts := Map(a + b, f), Map(a, f) + Map(b, f);
    assert |whole| == |parts|;
    forall k | 0 <= k < |whole| ensures whole[k] == parts[k] {
      if k < |a| {
        assert (a + b)[k] == a[k];
      } else {
        assert (a + b)[k] == b[k - |a|];
      }
    }
  }

  function MapPoints(es: seq<Entry>): (ps: seq<SeriesPoint>)
    ensures |ps| == |es|
    ensures forall k :: 0 <= k < |es| ==> ps[k] == ToPoint(es[k])
  {
    Map(es, ToPoint)
  }

  lemma MapPointsAppend(a: seq<Entry>, b: seq<Entry>)
    ensures MapPoints(a + b) == MapPoints(a) + MapPoints(b)
  {
    MapAppend(a, b, ToPoint);
  }

  lemma {:induction false} PointsOfEntries(year: int, changes: seq<StatusChange>)
    ensures PointsOf(year, changes) == MapPoints(EntriesOf(year, changes))
  {
    if changes != [] {
      PointsOfEntries(year, changes[1..]);
    }
  }

  /** The series is the point of every flattened change, in order. */
  lemma {:induction false} TransformedDataFlattens(filtered: seq<YearGroup>)
    ensures TransformedData(filtered) == MapPoints(Flatten(filtered))
  {
    if filtered != [] {
      TransformedDataFlattens(filtered[1..]);
      PointsOfEntries(filtered[0].year, filtered[0].statusChanges);
      MapPointsAppend(EntriesOf(filtered[0].year, filtered[0].statusChanges), Flatten(filtered[1..]));
    }
  }

  /**
   * One point per kept change, in order: change `j` of group `i` is the
   * point at `Offset(i) + j`, with value 1, its bucketed status and its
   * group's year; nothing else is in the series.
   */
  lemma TransformedDataAt(filtered: seq<YearGroup>, i: nat, j: nat)
    requires i < |filtered| && j < |filtered[i].statusChanges|
    ensures |TransformedData(filtered)| == TotalChanges(filtered)
    ensures Offset(filtered, i) + j < |TransformedData(filtered)|
    ensures TransformedData(filtered)[Offset(filtered, i) + j]
         == SeriesPoint(GetStatus(filtered[i].statusChanges[j].lastStatus), filtered[i].year, 1)
  {
    TransformedDataFlattens(filtered);
    FlattenAt(filtered, i, j);
  }

  // ---------------------------------------------------------------------
  // Selection over the flattened dataset (the reference for both views)
  // ---------------------------------------------------------------------

  /** JavaScript `year < bound`; every comparison with NaN is false. */
  predicate Below(year: int, b: Bound) {
    match b
    case Year(v) => year < v
    case _ => false
  }

  predicate Above(year: int, b: Bound) {
    match b
    case Year(v) => year > v
    case _ => false
  }

  /**
   * The export's guard, with JavaScript's comparisons. A year passes it
   * exactly when it lies within the numeric bounds, both inclusive; a bound
   * that is unset or NaN admits every year.
   */
  function OutOfRange(year: int, fromYear: Bound, toYear: Bound): (out: bool)
    ensures !out <==> (fromYear.Year? ==> fromYear.value <= year) && (toYear.Year? ==> year <= toYear.value)
  {
    (!fromYear.Unset? && Below(year, fromYear)) || (!toYear.Unset? && Above(year, toYear))
  }

  predicate Selected(e: Entry, category: string, fromYear: Bound, toYear: Bound) {
    InCategory(e.change, category) && !OutOfRange(e.year, fromYear, toYear)
  }

  /** `s.filter(keep)`: the elements `keep` accepts, in order. */
  function Filter<T>(s: seq<T>, keep: T -> bool): seq<T>
  {
    if s == [] then []
    else if keep(s[0]) then [s[0]] + Filter(s[1..], keep)
    else Filter(s[1..], keep)
  }

  lemma {:induction false} FilterAppend<T>(a: seq<T>, b: seq<T>, keep: T -> bool)
    ensures Filter(a + b, keep) == Filter(a, keep) + Filter(b, keep)
  {
    if a != [] {
      FilterAppend(a[1..], b, keep);
      assert (a + b)[0] == a[0];
      assert (a + b)[1..] == a[1..] + b;
    } else {
      assert a + b == b;
    }
  }

  /** The entries of the category within the year range, in order. */
  function SelectEntries(es: seq<Entry>, category: string, fromYear: Bound, toYear: Bound): seq<Entry>
  {
    Filter(es, e => Selected(e, category, fromYear, toYear))
  }

  /** The selection keeps the input's order and holds exactly its selected entries. */
  lemma {:induction false} SelectEntriesMembers(es: seq<Entry>, category: string, fromYear: Bound, toYear: Bound)
    ensures Subsequence(SelectEntries(es, category, fromYear, toYear), es)
    ensures forall e :: e in SelectEntries(es, category, fromYear, toYear) <==> e in es && Selected(e, category, fromYear, toYear)
  {
    if es != [] {
      SelectEntriesMembers(es[1..], category, fromYear, toYear);
      assert es == [es[0]] + es[1..];
    }
  }

  /** Each selected entry occurs as often as in the input; every other entry not at all. */
  lemma {:induction false} SelectEntriesCount(es: seq<Entry>, category: string, fromYear: Bound, toYear: Bound)
    ensures forall e :: multiset(SelectEntries(es, category, fromYear, toYear))[e]
                        == if Selected(e, category, fromYear, toYear) then multiset(es)[e] else 0
  {
    if es != [] {
      SelectEntriesCount(es[1..], category, fromYear, toYear);
      assert es == [es[0]] + es[1..];
    }
  }

  lemma {:induction false} SelectAppend(a: seq<Entry>, b: seq<Entry>, category: string, fromYear: Bound, toYear: Bound)
    ensures SelectEntries(a + b, category, fromYear, toYear)
         == SelectEntries(a, category, fromYear, toYear) + SelectEntries(b, category, fromYear, toYear)
  {
    FilterAppend(a, b, e => Selected(e, category, fromYear, toYear));
  }

  lemma {:induction false} SelectGroup(year: int, changes: seq<StatusChange>, category: string, fromYear: Bound, toYear: Bound)
    ensures SelectEntries(EntriesOf(year, changes), category, fromYear, toYear)
         == if OutOfRange(year, fromYear, toYear) then [] else EntriesOf(year, KeepCategory(changes, category))
  {
    if changes != [] {
      SelectGroup(year, changes[1..], category, fromYear, toYear);
      assert EntriesOf(year, changes)[1..] == EntriesOf(year, changes[1..]);
    }
  }

  /** The chart shows exactly the changes of the category, in dataset order. */
  lemma {:induction false} ChartMatchesSelection(typeData: seq<YearGroup>, category: string)
    ensures TransformedData(FilteredData(typeData, category))
         == MapPoints(SelectEntries(Flatten(typeData), category, Unset, Unset))
  {
    TransformedDataFlattens(FilteredData(typeData, category));
    FlattenFiltered(typeData, category);
  }

  lemma {:induction false} FlattenFiltered(typeData: seq<YearGroup>, category: string)
    ensures Flatten(FilteredData(typeData, category)) == SelectEntries(Flatten(typeData), category, Unset, Unset)
  {
    if typeData != [] {
      var g := typeData[0];
      FlattenFiltered(typeData[1..], category);
      SelectAppend(EntriesOf(g.year, g.statusChanges), Flatten(typeData[1..]), category, Unset, Unset);
      SelectGroup(g.year, g.statusChanges, category, Unset, Unset);
    }
  }

  // ---------------------------------------------------------------------
  // CSV export (downloadData)
  // ---------------------------------------------------------------------

  function ToRow(e: Entry): ExportRow {
    ExportRow(e.change.eip, e.change.lastStatus, e.change.eipTitle, e.change.eipCategory, IntToDecimal(e.year))
  }

  function RowsOf(year: int, changes: seq<StatusChange>): (rs: seq<ExportRow>)
    ensures |rs| == |changes|
    ensures forall r :: r in rs ==> r.year == IntToDecimal(year)
  {
    if changes == [] then []
    else
      var c := changes[0];
      [ExportRow(c.eip, c.lastStatus, c.eipTitle, c.eipCategory, IntToDecimal(year))] + RowsOf(year, changes[1..])
  }

  /** The export's `typeData.flatMap(...)`: range guard per year, then the category filter. */
  function ExportRows(typeData: seq<YearGroup>, category: string, fromYear: Bound, toYear: Bound): (rows: seq<ExportRow>)
    ensures forall r :: r in rows ==>
      exists g :: g in typeData && !OutOfRange(g.year, fromYear, toYear) && r.year == IntToDecimal(g.year)
  {
    if typeData == [] then []
    else
      var g := typeData[0];
      (if OutOfRange(g.year, fromYear, toYear) then [] else RowsOf(g.year, KeepCategory(g.statusChanges, category)))
      + ExportRows(typeData[1..], category, fromYear, toYear)
  }

  function MapRows(es: seq<Entry>): (rows: seq<ExportRow>)
    ensures |rows| == |es|
    ensures forall k :: 0 <= k < |es| ==> rows[k] == ToRow(es[k])
  {
    Map(es, ToRow)
  }

  lemma MapRowsAppend(a: seq<Entry>, b: seq<Entry>)
    ensures MapRows(a + b) == MapRows(a) + MapRows(b)
  {
    MapAppend(a, b, ToRow);
  }

  lemma {:induction false} RowsOfEntries(year: int, changes: seq<StatusChange>)
    ensures RowsOf(year, changes) == MapRows(EntriesOf(year, changes))
  {
    if changes != [] {
      RowsOfEntries(year, changes[1..]);
    }
  }

  /**
   * The export rows are the rows of exactly the changes that are in the
   * category and within the year range, in dataset order.
   */
  lemma {:induction false} ExportMatchesSelection(typeData: seq<YearGroup>, category: string, fromYear: Bound, toYear: Bound)
    ensures ExportRows(typeData, category, fromYear, toYear)
         == MapRows(SelectEntries(Flatten(typeData), category, fromYear, toYear))
  {
    if typeData != [] {
      var g := typeData[0];
      ExportMatchesSelection(typeData[1..], category, fromYear, toYear);
      SelectAppend(EntriesOf(g.year, g.statusChanges), Flatten(typeData[1..]), category, fromYear, toYear);
      SelectGroup(g.year, g.statusChanges, category, fromYear, toYear);
      RowsOfEntries(g.year, KeepCategory(g.statusChanges, category));
      MapRowsAppend(SelectEntries(EntriesOf(g.year, g.statusChanges), category, fromYear, toYear),
                    SelectEntries(Flatten(typeData[1..]), category, fromYear, toYear));
    }
  }

  /** A NaN bound (the blank option) filters exactly like an unset one. */
  lemma {:induction false} NaNBoundIsUnbounded(typeData: seq<YearGroup>, category: string, fromYear: Bound, toYear: Bound)
    ensures ExportRows(typeData, category, NaN, toYear) == ExportRows(typeData, category, Unset, toYear)
    ensures ExportRows(typeData, category, fromYear, NaN) == ExportRows(typeData, category, fromYear, Unset)
  {
    if typeData != [] {
      NaNBoundIsUnbounded(typeData[1..], category, fromYear, toYear);
    }
  }

  /** With no range selected, the export has one row per chart point, with the same status bucket. */
  lemma ExportAgreesWithChart(typeData: seq<YearGroup>, category: string)
    ensures |ExportRows(typeData, category, Unset, Unset)| == |TransformedData(FilteredData(typeData, category))|
    ensures forall k :: 0 <= k < |ExportRows(typeData, category, Unset, Unset)| ==>
      TransformedData(FilteredData(typeData, category))[k].status
        == GetStatus(ExportRows(typeData, category, Unset, Unset)[k].lastStatus)
  {
    ExportMatchesSelection(typeData, category, Unset, Unset);
    ChartMatchesSelection(typeData, category);
  }

  const CsvHeaderLine := "EIP,Last Status," + "EIP Title,EIP Category," + "Year,Link"
  const CsvHeader := CsvHeaderLine + "\n"
  const CsvDataPrefix := "data:text/csv;charset=utf-8,"
  const SiteRoot := "https://eipsinsight.com/"
  const ErcLinkPrefix := SiteRoot + "ercs/erc-"
  const EipLinkPrefix := SiteRoot + "eips/eip-"
  const RipLinkPrefix := SiteRoot + "rips/rip-"

  /**
   * The link column: chosen from the raw category, then from the chart's
   * type. It is always a page of the site that ends in the row's number.
   */
  function Link(row: ExportRow, chartType: string): (link: string)
    ensures |link| >= |SiteRoot| + |row.eip|
    ensures link[..|SiteRoot|] == SiteRoot
    ensures link[|link| - |row.eip|..] == row.eip
  {
    if row.eipCategory == "ERC" then ErcLinkPrefix + row.eip
    else if chartType == "EIPs" then EipLinkPrefix + row.eip
    else RipLinkPrefix + row.eip
  }

  /** Every exported row of category "ERC" links to the ERC page; no row of another category does. */
  lemma LinkFollowsCategory(typeData: seq<YearGroup>, category: string, fromYear: Bound, toYear: Bound, chartType: string)
    ensures forall row :: row in ExportRows(typeData, category, fromYear, toYear) ==>
      Link(row, chartType) == (if category == "ERC" then ErcLinkPrefix
                               else if chartType == "EIPs" then EipLinkPrefix
                               else RipLinkPrefix) + row.eip
  {
    ExportMatchesSelection(typeData, category, fromYear, toYear);
    var sel := SelectEntries(Flatten(typeData), category, fromYear, toYear);
    SelectEntriesMembers(Flatten(typeData), category, fromYear, toYear);
    forall row | row in ExportRows(typeData, category, fromYear, toYear)
      ensures Link(row, chartType) == (if category == "ERC" then ErcLinkPrefix
                                       else if chartType == "EIPs" then EipLinkPrefix
                                       else RipLinkPrefix) + row.eip
    {
      var k :| 0 <= k < |sel| && MapRows(sel)[k] == row;
      assert row == ToRow(sel[k]);
      assert sel[k] in sel;
      assert InCategory(sel[k].change, category);
      assert row.eipCategory == sel[k].change.eipCategory;
    }
  }

  function Fields(row: ExportRow, chartType: string): seq<string> {
    [row.eip, row.lastStatus, row.eipTitle, row.eipCategory, row.year, Link(row, chartType)]
  }

  /** One CSV line: the six fields joined by commas, written as they are (no quoting or escaping). */
  function RowLine(row: ExportRow, chartType: string): (line: string)
    ensures line == Join(Fields(row, chartType), ',')
  {
    var link := Link(row, chartType);
    JoinSix(row.eip, row.lastStatus, row.eipTitle, row.eipCategory, row.year, link, ',');
    row.eip + "," + row.lastStatus + "," + row.eipTitle + "," + row.eipCategory + "," + row.year + ","
    + link
  }

  function Lines(rows: seq<ExportRow>, chartType: string): (lines: seq<string>)
    ensures |lines| == |rows|
    ensures forall k :: 0 <= k < |rows| ==> lines[k] == RowLine(rows[k], chartType)
  {
    Map(rows, r => RowLine(r, chartType))
  }

  /** The CSV text: the fixed header, then the lines joined by newlines. */
  function CsvBody(rows: seq<ExportRow>, chartType: string): (text: string)
    ensures |text| >= |CsvHeader| && text[..|CsvHeader|] == CsvHeader
  {
    CsvHeader + Join(Lines(rows, chartType), '\n')
  }

  /** The `href` of the download link before URI encoding: a CSV data URI. */
  function CsvContent(rows: seq<ExportRow>, chartType: string): (uri: string)
    ensures |uri| >= |CsvDataPrefix| && uri[..|CsvDataPrefix|] == CsvDataPrefix
    ensures (forall k :: 0 <= k < |rows| ==> PlainRow(rows[k])) ==>
      Split(uri[|CsvDataPrefix|..], '\n') == [CsvHeaderLine] + (if rows == [] then [""] else Lines(rows, chartType))
  {
    assert (CsvDataPrefix + CsvBody(rows, chartType))[|CsvDataPrefix|..] == CsvBody(rows, chartType);
    assert (forall k :: 0 <= k < |rows| ==> PlainRow(rows[k])) ==>
      Split(CsvBody(rows, chartType), '\n') == [CsvHeaderLine] + (if rows == [] then [""] else Lines(rows, chartType)) by {
      if forall k :: 0 <= k < |rows| ==> PlainRow(rows[k]) {
        CsvRoundTrip(rows, chartType);
      }
    }
    CsvDataPrefix + CsvBody(rows, chartType)
  }

  /**
   * What the download button exports for the current selections: the CSV
   * of exactly the dataset's changes in the category and the year range.
   */
  function DownloadContent(typeData: seq<YearGroup>, category: string, chartType: string, fromYear: Bound, toYear: Bound): (uri: string)
    ensures uri == CsvContent(MapRows(SelectEntries(Flatten(typeData), category, fromYear, toYear)), chartType)
  {
    ExportMatchesSelection(typeData, category, fromYear, toYear);
    CsvContent(ExportRows(typeData, category, fromYear, toYear), chartType)
  }

  /** A field that cannot break the CSV layout. */
  predicate PlainField(s: string) {
    ',' !in s && '\n' !in s
  }

  predicate PlainRow(row: ExportRow) {
    PlainField(row.eip) && PlainField(row.lastStatus) && PlainField(row.eipTitle)
    && PlainField(row.eipCategory) && PlainField(row.year)
  }

  lemma PrefixPlain(prefix: string, eip: string)
    requires PlainField(prefix) && PlainField(eip)
    ensures PlainField(prefix + eip)
  {
    assert forall c :: c in prefix + eip ==> c in prefix || c in eip;
  }

  /** The link of a row whose number is plain is plain too. */
  lemma LinkPlain(row: ExportRow, chartType: string)
    requires PlainField(row.eip)
    ensures PlainField(Link(row, chartType))
  {
    LinkPrefixesPlain();
    if row.eipCategory == "ERC" {
      PrefixPlain(ErcLinkPrefix, row.eip);
    } else if chartType == "EIPs" {
      PrefixPlain(EipLinkPrefix, row.eip);
    } else {
      PrefixPlain(RipLinkPrefix, row.eip);
    }
  }

  lemma LinkPrefixesPlain()
    ensures PlainField(ErcLinkPrefix) && PlainField(EipLinkPrefix) && PlainField(RipLinkPrefix)
  {
    assert PlainField(SiteRoot);
    PrefixPlain(SiteRoot, "ercs/erc-");
    PrefixPlain(SiteRoot, "eips/eip-");
    PrefixPlain(SiteRoot, "rips/rip-");
  }

  /** A row line holds no newline and splits at its commas into the row's six fields. */
  lemma RowLineSplits(row: ExportRow, chartType: string)
    requires PlainRow(row)
    ensures '\n' !in RowLine(row, chartType)
    ensures Split(RowLine(row, chartType), ',') == Fields(row, chartType)
  {
    LinkPlain(row, chartType);
    var f := Fields(row, chartType);
    assert forall i :: 0 <= i < |f| ==> PlainField(f[i]);
    SplitJoin(f, ',');
  }

  /** The header is the first line of the CSV text, whatever follows it. */
  lemma CsvHeaderSplit(rest: string)
    ensures Split(CsvHeader + rest, '\n') == [CsvHeaderLine] + Split(rest, '\n')
  {
    assert '\n' !in "EIP,Last Status,";
    assert '\n' !in "EIP Title,EIP Category,";
    assert '\n' !in "Year,Link";
    var h := CsvHeaderLine;
    assert CsvHeader + rest == h + ['\n'] + rest;
    SplitAtFirst(h, '\n', rest);
  }

  /**
   * Reading the CSV back: when no field holds a comma or a newline, the
   * lines are the header and one line per row (a lone empty line when
   * there are no rows), and each row line splits into its six fields.
   */
  lemma CsvRoundTrip(rows: seq<ExportRow>, chartType: string)
    requires forall k :: 0 <= k < |rows| ==> PlainRow(rows[k])
    ensures Split(CsvBody(rows, chartType), '\n') == [CsvHeaderLine] + (if rows == [] then [""] else Lines(rows, chartType))
    ensures forall k :: 0 <= k < |rows| ==> Split(Lines(rows, chartType)[k], ',') == Fields(rows[k], chartType)
  {
    var lines := Lines(rows, chartType);
    forall k | 0 <= k < |rows|
      ensures Split(lines[k], ',') == Fields(rows[k], chartType)
      ensures '\n' !in lines[k]
    {
      RowLineSplits(rows[k], chartType);
    }
    CsvHeaderSplit(Join(lines, '\n'));
    if rows != [] {
      SplitJoin(lines, '\n');
    }
  }

  /** The download file name: `StatusChart_<from or "start">-<to or "end">.csv`. */
  function BoundText(b: Bound, missing: string): (t: string)
    ensures |missing| >= 1 ==> |t| >= 1
    ensures b.Year? && b.value >= 0 ==> (forall i :: 0 <= i < |t| ==> IsDigit(t[i])) && DecimalValue(t) == b.value
  {
    match b
    case Unset => missing
    case NaN => "NaN"
    case Year(v) => IntToDecimal(v)
  }

  function FileName(fromYear: Bound, toYear: Bound): (name: string)
    ensures |name| >= |"StatusChart_"| + |".csv"|
    ensures name[..|"StatusChart_"|] == "StatusChart_"
    ensures name[|name| - |".csv"|..] == ".csv"
  {
    "StatusChart_" + BoundText(fromYear, "start") + "-" + BoundText(toYear, "end") + ".csv"
  }

  predicate NonNegative(b: Bound) {
    b.Year? ==> b.value >= 0
  }

  /** A bound's text is never empty, never holds a dash, and starts with a digit exactly when it is a year. */
  lemma BoundTextShape(b: Bound, missing: string)
    requires NonNegative(b)
    requires missing == "start" || missing == "end"
    ensures |BoundText(b, missing)| >= 1
    ensures '-' !in BoundText(b, missing)
    ensures IsDigit(BoundText(b, missing)[0]) <==> b.Year?
  {
    if b.Year? {
      var s := BoundText(b, missing);
      assert s == NatToDecimal(b.value);
      assert forall c :: c in s ==> IsDigit(c);
    }
  }

  /** Different bounds, negative years included, give different texts. */
  lemma BoundTextInjective(a: Bound, b: Bound, missing: string)
    requires missing == "start" || missing == "end"
    requires BoundText(a, missing) == BoundText(b, missing)
    ensures a == b
  {
    if a.Year? && b.Year? {
      IntToDecimalInjective(a.value, b.value);
    }
  }

  lemma FileNameParts(fromYear: Bound, toYear: Bound)
    ensures FileName(fromYear, toYear)
         == "StatusChart_" + (BoundText(fromYear, "start") + ['-'] + BoundText(toYear, "end")) + ".csv"
  {
  }

  /** The same text around two strings: the strings are equal. */
  lemma SameAffixes(p: string, x: string, y: string, q: string)
    requires p + x + q == p + y + q
    ensures x == y
  {
    var s := p + x + q;
    assert x == s[|p|..|s| - |q|];
  }

  /** Two strings joined by a dash that neither holds come apart again. */
  lemma {:induction false} DashJoinInjective(a1: string, b1: string, a2: string, b2: string)
    requires '-' !in a1 && '-' !in a2
    requires a1 + ['-'] + b1 == a2 + ['-'] + b2
    ensures a1 == a2 && b1 == b2
  {
    var s := a1 + ['-'] + b1;
    SplitAtFirst(a1, '-', b1);
    SplitAtFirst(a2, '-', b2);
    assert [a1] + Split(b1, '-') == [a2] + Split(b2, '-');
    assert a1 == ([a1] + Split(b1, '-'))[0];
    assert b1 == s[|a1| + 1..];
    assert b2 == s[|a2| + 1..];
  }

  /** For years that are not negative, the file name tells which range was exported. */
  lemma FileNameInjective(from1: Bound, to1: Bound, from2: Bound, to2: Bound)
    requires NonNegative(from1) && NonNegative(to1) && NonNegative(from2) && NonNegative(to2)
    requires FileName(from1, to1) == FileName(from2, to2)
    ensures from1 == from2 && to1 == to2
  {
    var a1, b1 := BoundText(from1, "start"), BoundText(to1, "end");
    var a2, b2 := BoundText(from2, "start"), BoundText(to2, "end");
    FileNameParts(from1, to1);
    FileNameParts(from2, to2);
    SameAffixes("StatusChart_", a1 + ['-'] + b1, a2 + ['-'] + b2, ".csv");
    BoundTextShape(from1, "start");
    BoundTextShape(from2, "start");
    DashJoinInjective(a1, b1, a2, b2);
    BoundTextInjective(from1, from2, "start");
    BoundTextInjective(to1, to2, "end");
  }
}
