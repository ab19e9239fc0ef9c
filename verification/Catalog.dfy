/** The faceted document catalogue fixture (frontend/e2e/fixtures.ts): row filters, the "all filters except own
    dimension" facet counts, and the sorted, paged listing. */
module Catalog {
  import opened Outcomes

  datatype Row = Row(documentId: string, ticker: string, filingDate: string, accession: string,
                     sections: seq<string>, chunkCount: int)

  /** Query parameters; None is a parameter that was not sent. A year that is not a number is sent as zero. */
  datatype Filters = Filters(ticker: Option<string>, section: Option<string>, year: Option<int>, search: Option<string>)

  /** What the JavaScript runtime decides: lower-casing, the collation rank behind localeCompare, the rank
      behind the default sort, and the number a string reads as (None when it is not finite). */
  datatype Runtime = Runtime(lower: string -> string, collate: string -> int, rank: string -> int,
                             number: string -> Option<int>)

  datatype Dimension = Company | Section | Year

  datatype Value = Text(text: string) | Number(number: int)

  /** JavaScript truthiness: the empty string and zero select nothing. */
  predicate Truthy(v: Value) { v != Text("") && v != Number(0) }

  predicate Includes(haystack: string, needle: string) {
    exists i :: 0 <= i <= |haystack| - |needle| && OccursAt(haystack, needle, i)
  }

  predicate OccursAt(haystack: string, needle: string, i: nat)
    requires i <= |haystack| - |needle|
  {
    haystack[i..i + |needle|] == needle
  }

  function FilingYear(js: Runtime, row: Row): Option<int> {
    js.number(if |row.filingDate| < 4 then row.filingDate else row.filingDate[..4])
  }

  predicate Matches(js: Runtime, row: Row, f: Filters) {
    && (f.ticker.Some? && f.ticker.value != "" ==> row.ticker == f.ticker.value)
    && (f.section.Some? && f.section.value != "" ==> f.section.value in row.sections)
    && (f.year.Some? && f.year.value != 0 ==> FilingYear(js, row) == f.year)
    && (f.search.Some? && f.search.value != "" ==>
          Includes(js.lower(row.ticker + " " + row.filingDate + " " + row.accession + " " + row.documentId),
                   js.lower(f.search.value)))
  }

  /** A row is left out exactly when it has another ticker than the one asked for, lacks the section, was filed in
      another year, or when what is searched for occurs nowhere in its ticker, date, accession number and
      identifier, whatever the case of the letters. Parameters not sent, empty ones and year zero leave out nothing. */
  lemma LeftOutIff(js: Runtime, row: Row, f: Filters)
    ensures !Matches(js, row, f) <==>
              || (f.ticker.Some? && f.ticker.value != "" && row.ticker != f.ticker.value)
              || (f.section.Some? && f.section.value != "" && f.section.value !in row.sections)
              || (f.year.Some? && f.year.value != 0 && js.number(row.filingDate[..Min(4, |row.filingDate|)]) != f.year)
              || (f.search.Some? && f.search.value != ""
                  && forall a, b :: js.lower(row.ticker + " " + row.filingDate + " " + row.accession + " " + row.documentId)
                                    != a + js.lower(f.search.value) + b)
  {
    assert row.filingDate[..|row.filingDate|] == row.filingDate;
    if f.search.Some? {
      IncludesIff(js.lower(row.ticker + " " + row.filingDate + " " + row.accession + " " + row.documentId), js.lower(f.search.value));
    }
  }

  lemma IncludesIff(haystack: string, needle: string)
    ensures Includes(haystack, needle) <==> exists a, b :: haystack == a + needle + b
  {
    if Includes(haystack, needle) {
      var i :| 0 <= i <= |haystack| - |needle| && OccursAt(haystack, needle, i);
      assert haystack == haystack[..i] + needle + haystack[i + |needle|..];
    }
    if a, b :| haystack == a + needle + b {
      assert OccursAt(haystack, needle, |a|);
    }
  }

  function Matching(js: Runtime, rows: seq<Row>, f: Filters): (r: seq<Row>)
    ensures forall row :: row in r <==> row in rows && Matches(js, row, f)
  {
    if rows == [] then []
    else (if Matches(js, rows[0], f) then [rows[0]] else []) + Matching(js, rows[1..], f)
  }

  // ---------------------------------------------------------------- facets

  /** The filters with one dimension cleared, and with one dimension set. */
  function Without(f: Filters, d: Dimension): Filters {
    match d
    case Company => f.(ticker := None)
    case Section => f.(section := None)
    case Year => f.(year := None)
  }

  function With(f: Filters, d: Dimension, v: Value): Filters
    requires d.Year? <==> v.Number?
  {
    match d
    case Company => f.(ticker := Some(v.text))
    case Section => f.(section := Some(v.text))
    case Year => f.(year := Some(v.number))
  }

  /** The values a row shows in a dimension. */
  function ValuesOf(js: Runtime, row: Row, d: Dimension): (r: seq<Value>)
    ensures forall v :: v in r ==> (d.Year? <==> v.Number?)
  {
    match d
    case Company => [Text(row.ticker)]
    case Section => seq(|row.sections|, i requires 0 <= i < |row.sections| => Text(row.sections[i]))
    case Year => var y := FilingYear(js, row); if y.Some? then [Number(y.value)] else []
  }

  predicate Shows(js: Runtime, row: Row, d: Dimension, v: Value) { v in ValuesOf(js, row, d) }

  function AllValues(js: Runtime, rows: seq<Row>, d: Dimension): seq<Value> {
    if rows == [] then [] else ValuesOf(js, rows[0], d) + AllValues(js, rows[1..], d)
  }

  lemma {:induction false} AllValuesExact(js: Runtime, rows: seq<Row>, d: Dimension, v: Value)
    ensures v in AllValues(js, rows, d) <==> exists row :: row in rows && Shows(js, row, d, v)
  {
    if rows != [] {
      AllValuesExact(js, rows[1..], d, v);
      assert rows[0] in rows && forall row :: row in rows <==> row == rows[0] || row in rows[1..];
      assert v in AllValues(js, rows, d) <==> Shows(js, rows[0], d, v) || v in AllValues(js, rows[1..], d);
    }
  }

  predicate NoRepeat<T(==)>(s: seq<T>) { forall i, j :: 0 <= i < j < |s| ==> s[i] != s[j] }

  /** The distinct elements, each at its first occurrence. */
  function Distinct(s: seq<Value>): (r: seq<Value>)
    ensures forall v :: v in r <==> v in s
    ensures NoRepeat(r)
  {
    if s == [] then []
    else
      var before := Distinct(s[..|s| - 1]);
      assert s == s[..|s| - 1] + [s[|s| - 1]];
      if s[|s| - 1] in before then before else before + [s[|s| - 1]]
  }

  /** How many of the rows show the value. */
  function CountShowing(js: Runtime, rows: seq<Row>, d: Dimension, v: Value): nat {
    if rows == [] then 0
    else (if Shows(js, rows[0], d, v) then 1 else 0) + CountShowing(js, rows[1..], d, v)
  }

  /** The rows left by every filter except the dimension's own. */
  function Scope(js: Runtime, rows: seq<Row>, f: Filters, d: Dimension): seq<Row> {
    Matching(js, rows, Without(f, d))
  }

  /** Tickers and sections in the default sort order, years newest first. */
  function Order(js: Runtime): Value -> int { (v: Value) => if v.Text? then js.rank(v.text) else -v.number }

  /** The values a facet lists, and the count it shows beside each. */
  function FacetValues(js: Runtime, rows: seq<Row>, f: Filters, d: Dimension): seq<Value> {
    StableSort(Distinct(AllValues(js, Scope(js, rows, f, d), d)), Order(js))
  }

  function FacetCount(js: Runtime, rows: seq<Row>, f: Filters, d: Dimension, v: Value): nat {
    CountShowing(js, Scope(js, rows, f, d), d, v)
  }

  /** Setting a dimension to a value keeps, of the rows left when that dimension is ignored, those showing it;
      an empty value keeps them all. */
  lemma SettingOne(js: Runtime, row: Row, f: Filters, d: Dimension, v: Value)
    requires d.Year? <==> v.Number?
    ensures Matches(js, row, With(f, d, v)) <==>
              Matches(js, row, Without(f, d)) && (Truthy(v) ==> Shows(js, row, d, v))
  {
    if d.Section? {
      var shown := ValuesOf(js, row, d);
      if v.text in row.sections {
        var i :| 0 <= i < |row.sections| && row.sections[i] == v.text;
        assert shown[i] == v;
      }
    }
  }

  /** The count beside a facet value is the number of rows left after selecting it, whatever the other filters
      are and whatever that dimension was set to before. An empty value cannot be selected: it leaves the
      whole scope. */
  lemma {:induction false} DrillDown(js: Runtime, rows: seq<Row>, f: Filters, d: Dimension, v: Value)
    requires d.Year? <==> v.Number?
    ensures |Matching(js, rows, With(f, d, v))|
            == if Truthy(v) then FacetCount(js, rows, f, d, v) else |Scope(js, rows, f, d)|
  {
    if rows != [] {
      DrillDown(js, rows[1..], f, d, v);
      SettingOne(js, rows[0], f, d, v);
      var rest := Scope(js, rows[1..], f, d);
      assert ([rows[0]] + rest)[1..] == rest && [] + rest == rest;
    }
  }

  /** The listed values are exactly those some row in scope shows, each once, in order. */
  lemma FacetListsWhatOccurs(js: Runtime, rows: seq<Row>, f: Filters, d: Dimension)
    ensures NoRepeat(FacetValues(js, rows, f, d)) && Ordered(FacetValues(js, rows, f, d), Order(js))
    ensures forall v :: v in FacetValues(js, rows, f, d) <==>
              exists row :: row in Scope(js, rows, f, d) && Shows(js, row, d, v)
  {
    var scope := Scope(js, rows, f, d);
    var raw := Distinct(AllValues(js, scope, d));
    SortOrders(raw, Order(js));
    SamePopulation(raw, FacetValues(js, rows, f, d));
    forall v ensures v in raw <==> exists row :: row in scope && Shows(js, row, d, v) {
      AllValuesExact(js, scope, d, v);
    }
  }

  /** Tickers and sections are listed in the default sort order, years from the newest on. */
  lemma FacetOrder(js: Runtime, rows: seq<Row>, f: Filters, d: Dimension, i: nat, j: nat)
    requires i < j < |FacetValues(js, rows, f, d)|
    ensures var a, b := FacetValues(js, rows, f, d)[i], FacetValues(js, rows, f, d)[j];
            && (d != Year ==> a.Text? && b.Text? && js.rank(a.text) <= js.rank(b.text))
            && (d == Year ==> a.Number? && b.Number? && a.number > b.number)
  {
    var values := FacetValues(js, rows, f, d);
    FacetListsWhatOccurs(js, rows, f, d);
    assert values[i] in values && values[j] in values && values[i] != values[j];
    var key := Order(js);
    assert key(values[i]) <= key(values[j]);
  }

  // ---------------------------------------------------------------- counting both ways

  /** How many of the values the row shows. */
  ghost function CountShown(js: Runtime, row: Row, d: Dimension, values: seq<Value>): nat {
    if values == [] then 0
    else (if Shows(js, row, d, values[0]) then 1 else 0) + CountShown(js, row, d, values[1..])
  }

  /** The sum of the counts beside these values. */
  function TotalOfCounts(js: Runtime, rows: seq<Row>, d: Dimension, values: seq<Value>): nat {
    if values == [] then 0
    else CountShowing(js, rows, d, values[0]) + TotalOfCounts(js, rows, d, values[1..])
  }

  ghost function TotalOfRows(js: Runtime, rows: seq<Row>, d: Dimension, values: seq<Value>): nat {
    if rows == [] then 0
    else CountShown(js, rows[0], d, values) + TotalOfRows(js, rows[1..], d, values)
  }

  lemma {:induction false} OneMoreRow(js: Runtime, rows: seq<Row>, d: Dimension, values: seq<Value>)
    requires rows != []
    ensures TotalOfCounts(js, rows, d, values) == CountShown(js, rows[0], d, values) + TotalOfCounts(js, rows[1..], d, values)
  {
    if values != [] {
      OneMoreRow(js, rows, d, values[1..]);
    }
  }

  /** Counting the marks of the table of rows and values by value or by row is the same. */
  lemma {:induction false} CountBothWays(js: Runtime, rows: seq<Row>, d: Dimension, values: seq<Value>)
    ensures TotalOfCounts(js, rows, d, values) == TotalOfRows(js, rows, d, values)
    decreases |rows| + |values|
  {
    if rows != [] {
      OneMoreRow(js, rows, d, values);
      CountBothWays(js, rows[1..], d, values);
    } else if values != [] {
      CountBothWays(js, rows, d, values[1..]);
    }
  }

  /** The values among these that the row shows. */
  ghost function Among(js: Runtime, row: Row, d: Dimension, values: seq<Value>): (r: set<Value>)
    ensures forall v :: v in r <==> v in values && Shows(js, row, d, v)
  {
    if values == [] then {}
    else
      assert forall v :: v in values <==> v == values[0] || v in values[1..];
      (if Shows(js, row, d, values[0]) then {values[0]} else {}) + Among(js, row, d, values[1..])
  }

  /** A list without repeats counts every value the row shows once. */
  lemma {:induction false} ShownOnce(js: Runtime, row: Row, d: Dimension, values: seq<Value>)
    requires NoRepeat(values)
    ensures CountShown(js, row, d, values) == |Among(js, row, d, values)|
  {
    if values != [] {
      ShownOnce(js, row, d, values[1..]);
      assert values[0] !in values[1..];
    }
  }

  /** The distinct values a row shows. */
  ghost function Shown(js: Runtime, row: Row, d: Dimension): set<Value> { set v | v in ValuesOf(js, row, d) }

  ghost predicate ListsAll(js: Runtime, row: Row, d: Dimension, values: seq<Value>) {
    forall v :: Shows(js, row, d, v) ==> v in values
  }

  /** The distinct values every row shows, added up. */
  ghost function TotalShown(js: Runtime, rows: seq<Row>, d: Dimension): nat {
    if rows == [] then 0 else |Shown(js, rows[0], d)| + TotalShown(js, rows[1..], d)
  }

  lemma ShownAmong(js: Runtime, row: Row, d: Dimension, values: seq<Value>)
    requires NoRepeat(values) && ListsAll(js, row, d, values)
    ensures CountShown(js, row, d, values) == |Shown(js, row, d)|
  {
    ShownOnce(js, row, d, values);
    assert Among(js, row, d, values) == Shown(js, row, d);
  }

  lemma {:induction false} RowsShowAll(js: Runtime, rows: seq<Row>, d: Dimension, values: seq<Value>)
    requires NoRepeat(values)
    requires forall row :: row in rows ==> ListsAll(js, row, d, values)
    ensures TotalOfRows(js, rows, d, values) == TotalShown(js, rows, d)
  {
    if rows != [] {
      assert rows[0] in rows && forall row :: row in rows[1..] ==> row in rows;
      ShownAmong(js, rows[0], d, values);
      RowsShowAll(js, rows[1..], d, values);
    }
  }

  /** The counts of a facet add up to the distinct values its rows show: none is dropped, none counted twice. */
  lemma FacetTotal(js: Runtime, rows: seq<Row>, f: Filters, d: Dimension)
    ensures TotalOfCounts(js, Scope(js, rows, f, d), d, FacetValues(js, rows, f, d))
            == TotalShown(js, Scope(js, rows, f, d), d)
  {
    FacetListsWhatOccurs(js, rows, f, d);
    CountBothWays(js, Scope(js, rows, f, d), d, FacetValues(js, rows, f, d));
    RowsShowAll(js, Scope(js, rows, f, d), d, FacetValues(js, rows, f, d));
  }

  ghost function Dated(js: Runtime, rows: seq<Row>): nat {
    if rows == [] then 0 else (if FilingYear(js, rows[0]).Some? then 1 else 0) + Dated(js, rows[1..])
  }

  lemma {:induction false} OneEach(js: Runtime, rows: seq<Row>)
    ensures TotalShown(js, rows, Company) == |rows|
    ensures TotalShown(js, rows, Year) == Dated(js, rows)
  {
    if rows != [] {
      OneEach(js, rows[1..]);
      assert Shown(js, rows[0], Company) == {Text(rows[0].ticker)};
      var y := FilingYear(js, rows[0]);
      assert Shown(js, rows[0], Year) == if y.Some? then {Number(y.value)} else {};
    }
  }

  /** Every row has one ticker, so the company counts partition the rows left without the ticker filter. */
  lemma CompanyCountsPartition(js: Runtime, rows: seq<Row>, f: Filters)
    ensures TotalOfCounts(js, Scope(js, rows, f, Company), Company, FacetValues(js, rows, f, Company))
            == |Matching(js, rows, f.(ticker := None))|
  {
    FacetTotal(js, rows, f, Company);
    OneEach(js, Scope(js, rows, f, Company));
  }

  /** A row has at most one year, so the year counts partition the dated rows left without the year filter. */
  lemma YearCountsPartition(js: Runtime, rows: seq<Row>, f: Filters)
    ensures TotalOfCounts(js, Scope(js, rows, f, Year), Year, FacetValues(js, rows, f, Year))
            == Dated(js, Matching(js, rows, f.(year := None)))
  {
    FacetTotal(js, rows, f, Year);
    OneEach(js, Scope(js, rows, f, Year));
  }

  // ---------------------------------------------------------------- sorting

  ghost predicate Ordered<T>(s: seq<T>, key: T -> int) {
    forall i, j :: 0 <= i < j < |s| ==> key(s[i]) <= key(s[j])
  }

  /** The elements with this key, in order. */
  function OfKey<T>(s: seq<T>, key: T -> int, k: int): seq<T> {
    if s == [] then []
    else OfKey(s[..|s| - 1], key, k) + if key(s[|s| - 1]) == k then [s[|s| - 1]] else []
  }

  /** Puts x behind every element whose key is not larger. */
  function InsertLast<T>(x: T, s: seq<T>, key: T -> int): (r: seq<T>)
    ensures multiset(r) == multiset(s) + multiset{x}
  {
    if s == [] then [x]
    else if key(x) < key(s[|s| - 1]) then
      assert s == s[..|s| - 1] + [s[|s| - 1]];
      InsertLast(x, s[..|s| - 1], key) + [s[|s| - 1]]
    else s + [x]
  }

  /** Array.prototype.sort with a comparator that subtracts keys: ECMAScript requires it to be stable. */
  function StableSort<T>(s: seq<T>, key: T -> int): (r: seq<T>)
    ensures multiset(r) == multiset(s)
  {
    if s == [] then []
    else
      assert s == s[..|s| - 1] + [s[|s| - 1]];
      InsertLast(s[|s| - 1], StableSort(s[..|s| - 1], key), key)
  }

  lemma SamePopulation(a: seq<Value>, b: seq<Value>)
    requires multiset(a) == multiset(b)
    ensures forall x :: x in a <==> x in b
    ensures NoRepeat(a) ==> NoRepeat(b)
  {
    forall x ensures x in a <==> x in b {
      assert x in multiset(a) <==> x in multiset(b);
    }
    if NoRepeat(a) {
      forall i, j | 0 <= i < j < |b| ensures b[i] != b[j] {
        Once(a, b[i]);
        if b[i] == b[j] {
          Twice(b, i, j);
        }
      }
    }
  }

  lemma {:induction false} Once<T>(s: seq<T>, x: T)
    requires NoRepeat(s)
    ensures multiset(s)[x] <= 1
  {
    if s != [] {
      var n := |s| - 1;
      assert s == s[..n] + [s[n]] && s[n] !in s[..n];
      Once(s[..n], x);
    }
  }

  lemma Twice<T>(s: seq<T>, i: nat, j: nat)
    requires i < j < |s| && s[i] == s[j]
    ensures multiset(s)[s[i]] >= 2
  {
    assert s == s[..j] + [s[j]] + s[j + 1..];
    assert s[..j][i] == s[i];
  }

  lemma {:induction false} InsertOrders<T>(x: T, s: seq<T>, key: T -> int)
    requires Ordered(s, key)
    ensures Ordered(InsertLast(x, s, key), key)
  {
    if s != [] && key(x) < key(s[|s| - 1]) {
      var front, last := s[..|s| - 1], s[|s| - 1];
      InsertOrders(x, front, key);
      var r := InsertLast(x, front, key);
      forall i | 0 <= i < |r| ensures key(r[i]) <= key(last) {
        assert r[i] in multiset(front) + multiset{x};
        assert r[i] in front || r[i] == x;
      }
    }
  }

  lemma {:induction false} SortOrders<T>(s: seq<T>, key: T -> int)
    ensures Ordered(StableSort(s, key), key)
  {
    if s != [] {
      SortOrders(s[..|s| - 1], key);
      InsertOrders(s[|s| - 1], StableSort(s[..|s| - 1], key), key);
    }
  }

  lemma OfKeyLast<T>(s: seq<T>, x: T, key: T -> int, k: int)
    ensures OfKey(s + [x], key, k) == OfKey(s, key, k) + if key(x) == k then [x] else []
  {
    assert (s + [x])[..|s|] == s;
  }

  lemma {:induction false} InsertIsStable<T>(x: T, s: seq<T>, key: T -> int, k: int)
    requires Ordered(s, key)
    ensures OfKey(InsertLast(x, s, key), key, k) == OfKey(s + [x], key, k)
  {
    hide OfKey;
    OfKeyLast(s, x, key, k);
    if s != [] && key(x) < key(s[|s| - 1]) {
      var front, last := s[..|s| - 1], s[|s| - 1];
      assert InsertLast(x, s, key) == InsertLast(x, front, key) + [last] && s == front + [last];
      InsertIsStable(x, front, key, k);
      hide InsertLast;
      OfKeyLast(front, last, key, k);
      OfKeyLast(front, x, key, k);
      OfKeyLast(InsertLast(x, front, key), last, key, k);
    } else {
      assert InsertLast(x, s, key) == s + [x];
    }
  }

  /** Elements with equal keys stay in the order they had. */
  lemma {:induction false} SortIsStable<T>(s: seq<T>, key: T -> int, k: int)
    ensures OfKey(StableSort(s, key), key, k) == OfKey(s, key, k)
  {
    if s != [] {
      var front, last := s[..|s| - 1], s[|s| - 1];
      SortOrders(front, key);
      SortIsStable(front, key, k);
      InsertIsStable(last, StableSort(front, key), key, k);
      OfKeyLast(StableSort(front, key), last, key, k);
    }
  }

  // ---------------------------------------------------------------- the listing

  /** The comparator of the listing is the difference of these keys. */
  function Key(js: Runtime, sort: string, ascending: bool): Row -> int {
    (row: Row) =>
      var k := if sort == "chunk_count" then row.chunkCount
               else if sort == "ticker" then js.collate(row.ticker)
               else if sort == "document_id" then js.collate(row.documentId)
               else js.collate(row.filingDate);
      if ascending then k else -k
  }

  function Listing(js: Runtime, rows: seq<Row>, f: Filters, sort: string, ascending: bool): seq<Row> {
    StableSort(Matching(js, rows, f), Key(js, sort, ascending))
  }

  /** The listing is ordered by what was asked for, in the direction asked for: by the number of chunks, by ticker or
      by identifier in collation order, and by filing date for every other request. */
  lemma ListingOrders(js: Runtime, rows: seq<Row>, f: Filters, sort: string, ascending: bool, i: nat, j: nat)
    requires i < j < |Listing(js, rows, f, sort, ascending)|
    ensures var a, b := Listing(js, rows, f, sort, ascending)[if ascending then i else j],
                        Listing(js, rows, f, sort, ascending)[if ascending then j else i];
            && (sort == "chunk_count" ==> a.chunkCount <= b.chunkCount)
            && (sort == "ticker" ==> js.collate(a.ticker) <= js.collate(b.ticker))
            && (sort == "document_id" ==> js.collate(a.documentId) <= js.collate(b.documentId))
            && (sort !in {"chunk_count", "ticker", "document_id"} ==> js.collate(a.filingDate) <= js.collate(b.filingDate))
  {
    var listing, key := Listing(js, rows, f, sort, ascending), Key(js, sort, ascending);
    SortOrders(Matching(js, rows, f), key);
    assert key(listing[i]) <= key(listing[j]);
  }

  /** Array.prototype.slice with non-negative bounds. */
  function Slice<T>(s: seq<T>, from: nat, to: nat): seq<T>
    requires from <= to
  {
    s[Min(from, |s|)..Min(to, |s|)]
  }

  /** Where a page starts; page numbers and sizes below one read as one. */
  function Start(page: int, size: int): nat { (Max(1, page) - 1) * Max(1, size) }

  function Page(listing: seq<Row>, page: int, size: int): seq<Row> {
    Slice(listing, Start(page, size), Start(page, size) + Max(1, size))
  }

  /** Item k of a page is the item that many places behind all earlier pages, and a page is full while items last. */
  lemma PageAt(listing: seq<Row>, page: int, size: int)
    ensures var items, first, full := Page(listing, page, size), (Max(1, page) - 1) * Max(1, size), Max(1, size);
            && |items| == Max(0, Min(full, |listing| - first))
            && forall k :: 0 <= k < |items| ==> items[k] == listing[first + k]
  {
  }

  /** The first n pages, end to end. */
  ghost function Pages(listing: seq<Row>, size: int, n: nat): seq<Row> {
    if n == 0 then [] else Pages(listing, size, n - 1) + Page(listing, n, size)
  }

  lemma NextStart(n: nat, size: int)
    ensures Start(1, size) == 0
    ensures n > 0 ==> Start(n + 1, size) == Start(n, size) + Max(1, size)
  {
    assert n * Max(1, size) == (n - 1) * Max(1, size) + Max(1, size);
  }

  /** The first n pages are everything before the start of the next. */
  lemma {:induction false} PagesArePrefix(listing: seq<Row>, size: int, n: nat)
    ensures Pages(listing, size, n) == Slice(listing, 0, Start(n + 1, size))
  {
    NextStart(n, size);
    if n > 0 {
      PagesArePrefix(listing, size, n - 1);
      Adjacent(listing, Start(n, size), Start(n + 1, size));
    }
  }

  lemma Adjacent(s: seq<Row>, from: nat, to: nat)
    requires from <= to
    ensures Slice(s, 0, from) + Slice(s, from, to) == Slice(s, 0, to)
  {}

  /** Enough pages, end to end, show every matching row exactly once: they are the matching rows in key order,
      rows with equal keys as they came, and every later page is empty. */
  lemma PagingLosesNothing(js: Runtime, rows: seq<Row>, f: Filters, sort: string, ascending: bool, size: int, n: nat)
    requires Start(n + 1, size) >= |Matching(js, rows, f)|
    ensures var listing := Listing(js, rows, f, sort, ascending);
            && Pages(listing, size, n) == listing && Page(listing, n + 1, size) == []
            && multiset(listing) == multiset(Matching(js, rows, f))
            && Ordered(listing, Key(js, sort, ascending))
            && forall k :: OfKey(listing, Key(js, sort, ascending), k) == OfKey(Matching(js, rows, f), Key(js, sort, ascending), k)
  {
    hide OfKey, Ordered, StableSort, Matching, Key, Pages;
    var matched, key := Matching(js, rows, f), Key(js, sort, ascending);
    var listing := StableSort(matched, key);
    assert |listing| == |multiset(listing)| == |multiset(matched)| == |matched|;
    PagesArePrefix(listing, size, n);
    SortOrders(matched, key);
    forall k ensures OfKey(listing, key, k) == OfKey(matched, key, k) {
      SortIsStable(matched, key, k);
    }
  }
}
