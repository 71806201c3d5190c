/**
 * The dataset analysis of backend/equipment/utils.py (`analyze_csv`): column
 * names are normalised, the five required columns are checked in a fixed
 * order, and a summary (row count, column means, type distribution) is built
 * together with one record per row.  The table arrives already parsed: a
 * header and rows of cells of the same width.
 */
module Analysis {
  import opened Wrappers
  import Sorting

  /** One parsed cell: a numeric column holds numbers, anything else text. */
  datatype Cell = Num(x: real) | Text(s: string)

  /** One row as a mapping from normalised column name to cell. */
  type Record = map<string, Cell>

  // ---------------------------------------------------------------------
  // Column-name normalisation: str.strip() followed by str.lower()
  // ---------------------------------------------------------------------

  /** The ASCII characters str.strip() removes: tab to carriage return, 0x1C to 0x1F, space. */
  predicate IsSpace(c: char) {
    c == ' ' || '\t' <= c <= '\r' || '\U{1C}' <= c <= '\U{1F}'
  }

  predicate IsUpper(c: char) {
    'A' <= c <= 'Z'
  }

  /** str.lower() on one ASCII character: A to Z become a to z, every other character stays. */
  function ToLower(c: char): (d: char)
    ensures IsUpper(c) ==> d as int == c as int + 32 && 'a' <= d <= 'z'
    ensures !IsUpper(d)
    ensures IsSpace(d) == IsSpace(c)
    ensures !IsUpper(c) ==> d == c
  {
    if IsUpper(c) then (c as int + 32) as char else c
  }

  function Lower(s: string): (r: string)
    ensures |r| == |s|
    ensures forall i :: 0 <= i < |s| ==> r[i] == ToLower(s[i])
  {
    seq(|s|, i requires 0 <= i < |s| => ToLower(s[i]))
  }

  /** Drops leading whitespace: what is dropped is all whitespace, and what is kept does not start with any. */
  function TrimStart(s: string): (r: string)
    ensures |r| <= |s| && r == s[|s| - |r|..]
    ensures r == [] || !IsSpace(r[0])
    ensures forall i :: 0 <= i < |s| - |r| ==> IsSpace(s[i])
  {
    if s != [] && IsSpace(s[0]) then TrimStart(s[1..]) else s
  }

  /** Drops trailing whitespace: what is dropped is all whitespace, and what is kept does not end with any. */
  function TrimEnd(s: string): (r: string)
    ensures |r| <= |s| && r == s[..|r|]
    ensures r == [] || !IsSpace(r[|r| - 1])
    ensures forall i :: |r| <= i < |s| ==> IsSpace(s[i])
  {
    if s != [] && IsSpace(s[|s| - 1]) then TrimEnd(s[..|s| - 1]) else s
  }

  /** A column name as `df.columns.str.strip().str.lower()` leaves it. */
  function Normalize(name: string): (r: string)
    ensures |r| <= |name|
    ensures r == [] || (!IsSpace(r[0]) && !IsSpace(r[|r| - 1]))
    ensures forall i :: 0 <= i < |r| ==> !IsUpper(r[i])
  {
    Lower(TrimEnd(TrimStart(name)))
  }

  function NormalizedNames(header: seq<string>): (names: seq<string>)
    ensures |names| == |header|
    ensures forall i :: 0 <= i < |header| ==> names[i] == Normalize(header[i])
  {
    seq(|header|, i requires 0 <= i < |header| => Normalize(header[i]))
  }

  predicate AllSpace(s: string) {
    forall i :: 0 <= i < |s| ==> IsSpace(s[i])
  }

  lemma {:induction false} TrimStartSkipsSpace(pre: string, s: string)
    requires AllSpace(pre)
    ensures TrimStart(pre + s) == TrimStart(s)
  {
    if pre != [] {
      assert (pre + s)[1..] == pre[1..] + s;
      TrimStartSkipsSpace(pre[1..], s);
    } else {
      assert pre + s == s;
    }
  }

  lemma {:induction false} TrimEndSkipsSpace(s: string, post: string)
    requires AllSpace(post)
    ensures TrimEnd(s + post) == TrimEnd(s)
  {
    if post != [] {
      var n := |s + post|;
      assert (s + post)[..n - 1] == s + post[..|post| - 1];
      TrimEndSkipsSpace(s, post[..|post| - 1]);
    } else {
      assert s + post == s;
    }
  }

  /** Trailing whitespace passes through TrimStart unless the whole string is whitespace. */
  lemma {:induction false} TrimStartKeepsTail(s: string, post: string)
    requires AllSpace(post)
    ensures TrimStart(s + post) == if TrimStart(s) == [] then [] else TrimStart(s) + post
  {
    if s == [] {
      assert s + post == post;
      TrimStartSkipsSpace(post, []);
      assert post + [] == post;
    } else if IsSpace(s[0]) {
      assert (s + post)[1..] == s[1..] + post;
      TrimStartKeepsTail(s[1..], post);
    }
  }

  /** Surrounding whitespace does not change a normalised name: " Type " and "Type" agree. */
  lemma {:induction false} NormalizeIgnoresPadding(pre: string, name: string, post: string)
    requires AllSpace(pre) && AllSpace(post)
    ensures Normalize(pre + name + post) == Normalize(name)
  {
    assert pre + name + post == pre + (name + post);
    TrimStartSkipsSpace(pre, name + post);
    TrimStartKeepsTail(name, post);
    if TrimStart(name) != [] {
      TrimEndSkipsSpace(TrimStart(name), post);
    }
  }

  lemma TrimStartUnchanged(s: string)
    requires s == [] || !IsSpace(s[0])
    ensures TrimStart(s) == s
  {
  }

  lemma TrimEndUnchanged(s: string)
    requires s == [] || !IsSpace(s[|s| - 1])
    ensures TrimEnd(s) == s
  {
  }

  /** A padded name normalises to the lower-case form of the name inside the padding. */
  lemma NormalizePadded(pre: string, name: string, post: string)
    requires AllSpace(pre) && AllSpace(post)
    requires name == [] || (!IsSpace(name[0]) && !IsSpace(name[|name| - 1]))
    ensures Normalize(pre + name + post) == Lower(name)
  {
    NormalizeIgnoresPadding(pre, name, post);
    TrimStartUnchanged(name);
    TrimEndUnchanged(name);
  }

  /** The header " Type " matches the required column "type". */
  lemma NormalizeTypeHeader()
    ensures Normalize(" Type ") == "type"
  {
    var name := "Type";
    assert " " + name + " " == " Type ";
    assert !IsSpace(name[0]) && !IsSpace(name[3]);
    NormalizePadded(" ", name, " ");
    LowerType();
  }

  lemma LowerType()
    ensures Lower("Type") == "type"
  {
    var lowered := Lower("Type");
    assert lowered[0] == ToLower('T') == 't';
    assert lowered[1..] == "ype";
  }

  /** Upper and lower case do not change a normalised name. */
  lemma {:induction false} NormalizeIgnoresCase(name: string)
    ensures Normalize(Lower(name)) == Normalize(name)
  {
    LowerTrimStart(name);
    LowerTrimEnd(TrimStart(name));
    var t := TrimEnd(TrimStart(name));
    assert Lower(Lower(t)) == Lower(t);
  }

  lemma {:induction false} LowerTrimStart(s: string)
    ensures TrimStart(Lower(s)) == Lower(TrimStart(s))
  {
    if s != [] && IsSpace(s[0]) {
      assert Lower(s)[1..] == Lower(s[1..]);
      LowerTrimStart(s[1..]);
    }
  }

  lemma {:induction false} LowerTrimEnd(s: string)
    ensures TrimEnd(Lower(s)) == Lower(TrimEnd(s))
  {
    if s != [] && IsSpace(s[|s| - 1]) {
      assert Lower(s)[..|s| - 1] == Lower(s[..|s| - 1]);
      LowerTrimEnd(s[..|s| - 1]);
    }
  }

  lemma LowerUnchanged(s: string)
    requires forall i :: 0 <= i < |s| ==> !IsUpper(s[i])
    ensures Lower(s) == s
  {
  }

  /** Normalising a normalised name changes nothing. */
  lemma NormalizeIdempotent(name: string)
    ensures Normalize(Normalize(name)) == Normalize(name)
  {
    var r := Normalize(name);
    assert TrimStart(r) == r;
    assert TrimEnd(r) == r;
    LowerUnchanged(r);
  }

  // ---------------------------------------------------------------------
  // Required columns
  // ---------------------------------------------------------------------

  /** The required columns, in the order they are checked. */
  const RequiredColumns: seq<string> := ["equipment name", "type", "flowrate", "pressure", "temperature"]

  /** The first required column, from position k on, that is not among the columns. */
  function FirstMissingFrom(columns: set<string>, k: nat): (r: Option<string>)
    requires k <= |RequiredColumns|
    ensures r.None? <==> forall j :: k <= j < |RequiredColumns| ==> RequiredColumns[j] in columns
    ensures r.Some? ==> exists j :: k <= j < |RequiredColumns| && r.value == RequiredColumns[j]
                                   && r.value !in columns
                                   && forall i :: k <= i < j ==> RequiredColumns[i] in columns
    decreases |RequiredColumns| - k
  {
    if k == |RequiredColumns| then None
    else if RequiredColumns[k] !in columns then Some(RequiredColumns[k])
    else FirstMissingFrom(columns, k + 1)
  }

  function FirstMissing(columns: set<string>): Option<string> {
    FirstMissingFrom(columns, 0)
  }

  /** Only the required names decide the check: columns beyond them never cause a failure. */
  lemma {:induction false} ExtraColumnsIgnored(columns: set<string>, extra: set<string>, k: nat)
    requires k <= |RequiredColumns|
    requires forall c :: c in extra ==> c !in RequiredColumns
    ensures FirstMissingFrom(columns + extra, k) == FirstMissingFrom(columns, k)
    decreases |RequiredColumns| - k
  {
    if k < |RequiredColumns| {
      ExtraColumnsIgnored(columns, extra, k + 1);
    }
  }

  /** The error analyze_csv raises, one kind per way it can fail. */
  datatype AnalysisError =
    | MissingColumn(column: string)   // the ValueError raised by the required-column check
    | NonNumeric(column: string)      // pandas failing to take the mean of a text column

  function ColumnSet(names: seq<string>): set<string> {
    set n | n in names
  }

  /** No later column carries the same name as column j. */
  predicate LastOccurrence(names: seq<string>, j: nat)
    requires j < |names|
  {
    forall k :: j < k < |names| ==> names[k] != names[j]
  }

  // ---------------------------------------------------------------------
  // Row records: df.to_dict(orient="records")
  // ---------------------------------------------------------------------

  /** The record of one row; where a name repeats, the later column wins, as in a dict built from pairs. */
  function RowRecord(names: seq<string>, row: seq<Cell>): (rec: Record)
    requires |names| == |row|
    ensures rec.Keys == ColumnSet(names)
    decreases |names|
  {
    if names == [] then map[]
    else
      var n := |names| - 1;
      assert ColumnSet(names) == ColumnSet(names[..n]) + {names[n]} by {
        assert names == names[..n] + [names[n]];
      }
      RowRecord(names[..n], row[..n])[names[n] := row[n]]
  }

  /** Each column's cell sits under its name, unless a later column has the same name. */
  lemma {:induction false} RowRecordValues(names: seq<string>, row: seq<Cell>, j: nat)
    requires |names| == |row| && j < |names| && LastOccurrence(names, j)
    ensures RowRecord(names, row)[names[j]] == row[j]
    decreases |names|
  {
    var n := |names| - 1;
    if j < n {
      assert names[j] != names[n];
      assert LastOccurrence(names[..n], j);
      RowRecordValues(names[..n], row[..n], j);
    }
  }

  predicate Rectangular(header: seq<string>, rows: seq<seq<Cell>>) {
    forall i :: 0 <= i < |rows| ==> |rows[i]| == |header|
  }

  function Records(names: seq<string>, rows: seq<seq<Cell>>): (data: seq<Record>)
    requires Rectangular(names, rows)
    ensures |data| == |rows|
    ensures forall i :: 0 <= i < |rows| ==> data[i] == RowRecord(names, rows[i])
  {
    seq(|rows|, i requires 0 <= i < |rows| => RowRecord(names, rows[i]))
  }

  /** The cells of one column, top to bottom. */
  function Column(data: seq<Record>, column: string): (cells: seq<Cell>)
    requires forall i :: 0 <= i < |data| ==> column in data[i]
    ensures |cells| == |data|
    ensures forall i :: 0 <= i < |data| ==> cells[i] == data[i][column]
  {
    seq(|data|, i requires 0 <= i < |data| => data[i][column])
  }

  // ---------------------------------------------------------------------
  // Column means
  // ---------------------------------------------------------------------

  /** A column mean; an empty column has no mean, which pandas reports as NaN. */
  datatype Mean = NaN | Mean(value: real)

  predicate AllNumeric(cells: seq<Cell>) {
    forall i :: 0 <= i < |cells| ==> cells[i].Num?
  }

  function Sum(cells: seq<Cell>): real
    requires AllNumeric(cells)
  {
    if cells == [] then 0.0 else cells[0].x + Sum(cells[1..])
  }

  /** `df[column].mean()`: fails on a text cell, NaN on no rows, else sum over count. */
  function ColumnMean(cells: seq<Cell>): (m: Option<Mean>)
    ensures m.None? <==> !AllNumeric(cells)
    ensures m == Some(NaN) <==> cells == []
    ensures m.Some? && cells != [] ==> m.value.Mean? && m.value.value * |cells| as real == Sum(cells)
  {
    if !AllNumeric(cells) then None
    else if cells == [] then Some(NaN)
    else Some(Mean(Sum(cells) / |cells| as real))
  }

  lemma {:induction false} SumBounds(cells: seq<Cell>, lo: real, hi: real)
    requires AllNumeric(cells)
    requires forall i :: 0 <= i < |cells| ==> lo <= cells[i].x <= hi
    ensures |cells| as real * lo <= Sum(cells) <= |cells| as real * hi
  {
    if cells != [] {
      SumBounds(cells[1..], lo, hi);
    }
  }

  /** A mean lies between any lower and upper bound of the column's values. */
  lemma MeanWithinBounds(cells: seq<Cell>, lo: real, hi: real)
    requires AllNumeric(cells) && cells != []
    requires forall i :: 0 <= i < |cells| ==> lo <= cells[i].x <= hi
    ensures ColumnMean(cells).Some? && ColumnMean(cells).value.Mean?
    ensures lo <= ColumnMean(cells).value.value <= hi
  {
    SumBounds(cells, lo, hi);
    var n := |cells| as real;
    var m := ColumnMean(cells).value.value;
    assert m * n == Sum(cells);
    assert (m - lo) * n >= 0.0;
    assert (hi - m) * n >= 0.0;
  }

  // ---------------------------------------------------------------------
  // Type distribution: value_counts() and its projections
  // ---------------------------------------------------------------------

  /** Occurrences of v in s. */
  function Count(s: seq<Cell>, v: Cell): nat {
    if s == [] then 0 else (if s[0] == v then 1 else 0) + Count(s[1..], v)
  }

  lemma {:induction false} CountPositive(s: seq<Cell>, v: Cell)
    ensures Count(s, v) > 0 <==> v in s
  {
    if s != [] {
      CountPositive(s[1..], v);
    }
  }

  /** s with every occurrence of v removed. */
  function Without(s: seq<Cell>, v: Cell): (r: seq<Cell>)
    ensures v !in r
    ensures forall w :: w in r <==> w in s && w != v
    ensures |r| == |s| - Count(s, v)
    ensures forall w :: w != v ==> Count(r, w) == Count(s, w)
  {
    if s == [] then []
    else if s[0] == v then Without(s[1..], v)
    else [s[0]] + Without(s[1..], v)
  }

  /** The distinct values of s, each at its first occurrence. */
  function Distinct(s: seq<Cell>): (r: seq<Cell>)
    ensures Sorting.NoDup(r)
    ensures forall v :: v in r <==> v in s
    decreases |s|
  {
    if s == [] then []
    else
      var rest := Distinct(Without(s[1..], s[0]));
      assert s[0] !in rest;
      [s[0]] + rest
  }

  /** The sum, over the values in d, of their occurrences in s. */
  function SumCounts(d: seq<Cell>, s: seq<Cell>): nat {
    if d == [] then 0 else Count(s, d[0]) + SumCounts(d[1..], s)
  }

  lemma {:induction false} SumCountsAgree(d: seq<Cell>, s: seq<Cell>, t: seq<Cell>)
    requires forall v :: v in d ==> Count(s, v) == Count(t, v)
    ensures SumCounts(d, s) == SumCounts(d, t)
  {
    if d != [] {
      SumCountsAgree(d[1..], s, t);
    }
  }

  /** Counting every distinct value once accounts for every element exactly once. */
  lemma {:induction false} DistinctCountsSum(s: seq<Cell>)
    ensures SumCounts(Distinct(s), s) == |s|
    decreases |s|
  {
    if s != [] {
      var w := Without(s[1..], s[0]);
      var d := Distinct(w);
      assert Distinct(s) == [s[0]] + d;
      forall v | v in d ensures Count(s, v) == Count(w, v) {
        assert v != s[0];
      }
      SumCountsAgree(d, s, w);
      DistinctCountsSum(w);
    }
  }

  lemma {:induction false} SumCountsInsert(x: Cell, d: seq<Cell>, s: seq<Cell>, key: Cell -> int)
    ensures SumCounts(Sorting.Insert(x, d, key), s) == Count(s, x) + SumCounts(d, s)
  {
    if d != [] && key(d[0]) > key(x) {
      SumCountsInsert(x, d[1..], s, key);
    }
  }

  lemma {:induction false} SumCountsSort(d: seq<Cell>, s: seq<Cell>, key: Cell -> int)
    ensures SumCounts(Sorting.SortDesc(d, key), s) == SumCounts(d, s)
  {
    if d != [] {
      SumCountsSort(d[1..], s, key);
      SumCountsInsert(d[0], Sorting.SortDesc(d[1..], key), s, key);
    }
  }

  /** One entry of the `raw` dict: a type value and how often it occurs. */
  datatype TypeCount = TypeCount(kind: Cell, count: nat)

  /**
   * `type_distribution`: `raw` is an insertion-ordered dict, kept as a sequence
   * of entries; `labels` and `values` are its keys and its counts.
   */
  datatype TypeDistribution = TypeDistribution(raw: seq<TypeCount>, labels: seq<Cell>, values: seq<nat>)

  /** d describes the types column: one entry per distinct value, with its count, most frequent first. */
  predicate Tallies(d: TypeDistribution, types: seq<Cell>) {
    && |d.labels| == |d.raw| && |d.values| == |d.raw|
    && (forall i :: 0 <= i < |d.raw| ==>
          d.labels[i] == d.raw[i].kind && d.values[i] == d.raw[i].count
          && d.raw[i].count == Count(types, d.raw[i].kind) && d.raw[i].count >= 1)
    && (forall i, j :: 0 <= i < j < |d.raw| ==>
          d.raw[i].kind != d.raw[j].kind && d.raw[i].count >= d.raw[j].count)
    && (forall i :: 0 <= i < |types| ==> types[i] in d.labels)
    && (forall i :: 0 <= i < |d.labels| ==> d.labels[i] in types)
  }

  /** The sort key of value_counts(): a value's number of occurrences. */
  function ByCount(types: seq<Cell>): Cell -> int {
    (c: Cell) => Count(types, c) as int
  }

  /** The distinct type values, most frequent first: the index of `value_counts()`. */
  function Kinds(types: seq<Cell>): (kinds: seq<Cell>)
    ensures multiset(kinds) == multiset(Distinct(types))
  {
    Sorting.SortDesc(Distinct(types), ByCount(types))
  }

  /** The index of value_counts() has no repeats and is ordered by descending count. */
  lemma KindsOrdered(types: seq<Cell>)
    ensures Sorting.NoDup(Kinds(types))
    ensures forall i, j :: 0 <= i < j < |Kinds(types)| ==> Count(types, Kinds(types)[i]) >= Count(types, Kinds(types)[j])
  {
    Sorting.SortDescOrdered(Distinct(types), ByCount(types));
    var kinds := Kinds(types);
    assert forall i, j :: 0 <= i < j < |kinds| ==> ByCount(types)(kinds[i]) >= ByCount(types)(kinds[j]);
  }

  /** The index of value_counts() holds exactly the values of the column. */
  lemma KindsCover(types: seq<Cell>)
    ensures forall i :: 0 <= i < |types| ==> types[i] in Kinds(types)
    ensures forall i :: 0 <= i < |Kinds(types)| ==> Kinds(types)[i] in types
  {
    var distinct := Distinct(types);
    var kinds := Kinds(types);
    assert multiset(kinds) == multiset(distinct);
    forall i | 0 <= i < |types| ensures types[i] in kinds {
      assert types[i] in distinct;
      assert types[i] in multiset(distinct);
    }
    forall i | 0 <= i < |kinds| ensures kinds[i] in types {
      assert kinds[i] in multiset(kinds);
    }
  }

  /** The counts of the index of value_counts() add up to the number of rows. */
  lemma KindsTotal(types: seq<Cell>)
    ensures SumCounts(Kinds(types), types) == |types|
  {
    SumCountsSort(Distinct(types), types, ByCount(types));
    DistinctCountsSum(types);
  }

  /** `{k: int(v) for k, v in type_counts.items()}`, kept in the counts' order. */
  function Entries(kinds: seq<Cell>, types: seq<Cell>): (raw: seq<TypeCount>)
    ensures |raw| == |kinds|
    ensures forall i :: 0 <= i < |kinds| ==> raw[i] == TypeCount(kinds[i], Count(types, kinds[i]))
  {
    if kinds == [] then [] else [TypeCount(kinds[0], Count(types, kinds[0]))] + Entries(kinds[1..], types)
  }

  /** The distribution built from an ordered list of distinct type values. */
  function Tabulate(kinds: seq<Cell>, types: seq<Cell>): TypeDistribution {
    var raw := Entries(kinds, types);
    TypeDistribution(raw, kinds, seq(|raw|, i requires 0 <= i < |raw| => raw[i].count))
  }

  /** Each tabulated entry carries a value of the column and its (positive) count. */
  lemma TabulateEntries(kinds: seq<Cell>, types: seq<Cell>)
    requires forall i :: 0 <= i < |kinds| ==> kinds[i] in types
    ensures var d := Tabulate(kinds, types);
            && |d.labels| == |d.raw| && |d.values| == |d.raw|
            && forall i :: 0 <= i < |d.raw| ==>
                 d.labels[i] == d.raw[i].kind && d.values[i] == d.raw[i].count
                 && d.raw[i].count == Count(types, d.raw[i].kind) && d.raw[i].count >= 1
  {
    forall i | 0 <= i < |kinds| ensures Count(types, kinds[i]) >= 1 {
      CountPositive(types, kinds[i]);
    }
  }

  /** Tabulated entries keep the order and distinctness of the values they come from. */
  lemma TabulateOrdered(kinds: seq<Cell>, types: seq<Cell>)
    requires Sorting.NoDup(kinds)
    requires forall i, j :: 0 <= i < j < |kinds| ==> Count(types, kinds[i]) >= Count(types, kinds[j])
    ensures var d := Tabulate(kinds, types);
            forall i, j :: 0 <= i < j < |d.raw| ==> d.raw[i].kind != d.raw[j].kind && d.raw[i].count >= d.raw[j].count
  {
  }

  /** Tabulating distinct values of the column, ordered by count and covering it, tallies the column. */
  lemma TabulateTallies(kinds: seq<Cell>, types: seq<Cell>)
    requires Sorting.NoDup(kinds)
    requires forall i, j :: 0 <= i < j < |kinds| ==> Count(types, kinds[i]) >= Count(types, kinds[j])
    requires forall i :: 0 <= i < |types| ==> types[i] in kinds
    requires forall i :: 0 <= i < |kinds| ==> kinds[i] in types
    ensures Tallies(Tabulate(kinds, types), types)
  {
    TabulateEntries(kinds, types);
    TabulateOrdered(kinds, types);
    assert Tabulate(kinds, types).labels == kinds;
  }

  /** `df["type"].value_counts()` and the comprehensions that project it. */
  function Distribution(types: seq<Cell>): (d: TypeDistribution)
    ensures Tallies(d, types)
  {
    KindsOrdered(types);
    KindsCover(types);
    TabulateTallies(Kinds(types), types);
    Tabulate(Kinds(types), types)
  }

  function Total(values: seq<nat>): nat {
    if values == [] then 0 else values[0] + Total(values[1..])
  }

  lemma {:induction false} TotalIsSumCounts(kinds: seq<Cell>, values: seq<nat>, types: seq<Cell>)
    requires |values| == |kinds|
    requires forall i :: 0 <= i < |kinds| ==> values[i] == Count(types, kinds[i])
    ensures Total(values) == SumCounts(kinds, types)
  {
    if kinds != [] {
      TotalIsSumCounts(kinds[1..], values[1..], types);
    }
  }

  /** The counts of the distribution add up to the number of rows. */
  lemma DistributionTotal(types: seq<Cell>)
    ensures Total(Distribution(types).values) == |types|
  {
    var d := Distribution(types);
    TotalIsSumCounts(Kinds(types), d.values, types);
    KindsTotal(types);
  }

  /** `raw[v]` as a lookup: the count of the first entry for v, if any. */
  function Lookup(raw: seq<TypeCount>, v: Cell): (r: Option<nat>)
    ensures r.Some? <==> exists i :: 0 <= i < |raw| && raw[i].kind == v
  {
    if raw == [] then None
    else if raw[0].kind == v then Some(raw[0].count)
    else
      var r := Lookup(raw[1..], v);
      assert forall i :: 1 <= i < |raw| ==> raw[i] == raw[1..][i - 1];
      r
  }

  lemma {:induction false} LookupFinds(raw: seq<TypeCount>, i: nat)
    requires i < |raw|
    requires forall j :: 0 <= j < i ==> raw[j].kind != raw[i].kind
    ensures Lookup(raw, raw[i].kind) == Some(raw[i].count)
  {
    if i > 0 {
      LookupFinds(raw[1..], i - 1);
    }
  }

  /** `raw` maps each type value occurring in the column to its count, and nothing else. */
  lemma RawMapsTypesToCounts(d: TypeDistribution, types: seq<Cell>, v: Cell)
    requires Tallies(d, types)
    ensures Lookup(d.raw, v) == if v in types then Some(Count(types, v)) else None
  {
    if v in types {
      var i :| 0 <= i < |d.labels| && d.labels[i] == v;
      LookupFinds(d.raw, i);
    }
  }

  // ---------------------------------------------------------------------
  // The whole analysis
  // ---------------------------------------------------------------------

  datatype Averages = Averages(flowrate: Mean, pressure: Mean, temperature: Mean)

  /** The summary dict, its keys in the order the source writes them. */
  datatype Summary = Summary(totalEquipment: nat, averages: Averages, typeDistribution: TypeDistribution)

  /** What analyze_csv returns: the summary and the row records. */
  datatype Analyzed = Analyzed(summary: Summary, data: seq<Record>)

  /** Every record has the five required keys. */
  predicate HasRequired(data: seq<Record>) {
    forall i :: 0 <= i < |data| ==>
      && "equipment name" in data[i] && "type" in data[i]
      && "flowrate" in data[i] && "pressure" in data[i] && "temperature" in data[i]
  }

  /** Once the check has passed, every row's record carries the five required keys. */
  lemma RecordsHaveRequired(names: seq<string>, rows: seq<seq<Cell>>)
    requires Rectangular(names, rows)
    requires FirstMissing(ColumnSet(names)).None?
    ensures HasRequired(Records(names, rows))
  {
    var columns := ColumnSet(names);
    assert forall j :: 0 <= j < |RequiredColumns| ==> RequiredColumns[j] in columns;
    assert RequiredColumns[0] in columns && RequiredColumns[1] in columns;
    assert RequiredColumns[2] in columns && RequiredColumns[3] in columns;
    assert RequiredColumns[4] in columns;
  }

  /** The part of analyze_csv after the column check: means, then the distribution. */
  function Summarize(data: seq<Record>): (r: Result<Analyzed, AnalysisError>)
    requires HasRequired(data)
    ensures r.Err? ==> r.error.NonNumeric? && r.error.column in RequiredColumns[2..]
    ensures var flowrate := ColumnMean(Column(data, "flowrate"));
            var pressure := ColumnMean(Column(data, "pressure"));
            var temperature := ColumnMean(Column(data, "temperature"));
            && (r == Err(NonNumeric("flowrate")) <==> flowrate.None?)
            && (r == Err(NonNumeric("pressure")) <==> flowrate.Some? && pressure.None?)
            && (r == Err(NonNumeric("temperature")) <==> flowrate.Some? && pressure.Some? && temperature.None?)
            && (r.Ok? ==> r.value.summary.averages == Averages(flowrate.value, pressure.value, temperature.value))
    ensures r.Ok? ==> && r.value.data == data
                      && r.value.summary.totalEquipment == |data|
                      && Tallies(r.value.summary.typeDistribution, Column(data, "type"))
  {
    assert RequiredColumns[2..] == ["flowrate", "pressure", "temperature"];
    var flowrate := ColumnMean(Column(data, "flowrate"));
    var pressure := ColumnMean(Column(data, "pressure"));
    var temperature := ColumnMean(Column(data, "temperature"));
    if flowrate.None? then Err(NonNumeric("flowrate"))
    else if pressure.None? then Err(NonNumeric("pressure"))
    else if temperature.None? then Err(NonNumeric("temperature"))
    else
      var averages := Averages(flowrate.value, pressure.value, temperature.value);
      Ok(Analyzed(Summary(|data|, averages, Distribution(Column(data, "type"))), data))
  }

  /** `analyze_csv` on a parsed table. */
  function Analyze(header: seq<string>, rows: seq<seq<Cell>>): (r: Result<Analyzed, AnalysisError>)
    requires Rectangular(header, rows)
    ensures var missing := FirstMissing(ColumnSet(NormalizedNames(header)));
            && (missing.Some? ==> r == Err(MissingColumn(missing.value)))
            && (r.Err? && r.error.MissingColumn? ==> missing.Some?)
    ensures r.Err? && r.error.NonNumeric? ==> r.error.column in RequiredColumns[2..]
    ensures FirstMissing(ColumnSet(NormalizedNames(header))).None? ==>
              && HasRequired(Records(NormalizedNames(header), rows))
              && r == Summarize(Records(NormalizedNames(header), rows))
    ensures r.Ok? ==>
              && (forall c :: c in RequiredColumns ==> c in NormalizedNames(header))
              && r.value.summary.totalEquipment == |rows|
              && r.value.data == Records(NormalizedNames(header), rows)
              && HasRequired(r.value.data)
              && Tallies(r.value.summary.typeDistribution, Column(r.value.data, "type"))
  {
    var names := NormalizedNames(header);
    match FirstMissing(ColumnSet(names))
    case Some(column) => Err(MissingColumn(column))
    case None =>
      var data := Records(names, rows);
      RecordsHaveRequired(names, rows);
      Summarize(data)
  }
}
