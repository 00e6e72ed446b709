/** The attrition breakdown of the analysis notebook (`analysis_utils.py`):
    the bucketing of numeric and rating columns, the per-category counts of
    `analyze_attrition`, the `top_n` cut and the insight lookup. */
module AttritionAnalysis {
  import opened Wrappers

  /** A cell of the employee table: a number, a text, or a missing value (NaN). */
  datatype Cell = Num(n: int) | Text(s: string) | NaN

  type Row = map<string, Cell>

  /** A data frame: its column names and its rows. */
  datatype Frame = Frame(columns: set<string>, rows: seq<Row>)

  /** A cell of a row; a column the row lacks reads as NaN. */
  function Get(row: Row, column: string): Cell
  {
    if column in row then row[column] else NaN
  }

  // ---------------------------------------------------------------- bucketing

  /** A threshold bucketing: value `x` falls in the first band whose limit it
      does not pass (`x <= limit` when inclusive, `x < limit` otherwise), and in
      the last band when it passes them all. */
  datatype Bands = Bands(limits: seq<int>, labels: seq<string>, inclusive: bool)

  predicate WellFormed(b: Bands)
  {
    && |b.labels| == |b.limits| + 1
    && forall i, j :: 0 <= i < j < |b.limits| ==> b.limits[i] < b.limits[j]
  }

  predicate Within(x: int, limit: int, inclusive: bool)
  {
    if inclusive then x <= limit else x < limit
  }

  /** The number of the band `x` falls in, from 0. */
  function BandIndex(x: int, limits: seq<int>, inclusive: bool): (i: nat)
    ensures i <= |limits|
    ensures forall k :: 0 <= k < i ==> !Within(x, limits[k], inclusive)
    ensures i < |limits| ==> Within(x, limits[i], inclusive)
  {
    if limits == [] then 0
    else if Within(x, limits[0], inclusive) then 0
    else 1 + BandIndex(x, limits[1..], inclusive)
  }

  /** The label of the band `x` falls in. */
  function BandLabel(b: Bands, x: int): (name: string)
    requires WellFormed(b)
    ensures name in b.labels
  {
    b.labels[BandIndex(x, b.limits, b.inclusive)]
  }

  const YearsAtCompanyBands := Bands([2, 5, 10],
    ["New (0-2 yrs)", "Mid (3-5 yrs)", "Experienced (6-10 yrs)", "Veteran (10+ yrs)"], true)
  const YearsInCurrentRoleBands := Bands([2, 5, 10],
    ["0-2 yrs", "3-5 yrs", "6-10 yrs", "10+ yrs"], true)
  const AgeBands := Bands([30, 40, 50],
    ["Young (18-30)", "Mid-Career (31-40)", "Senior (41-50)", "Experienced (50+)"], true)
  const MonthlyIncomeBands := Bands([5000, 10000, 15000],
    ["Low (<5K)", "Medium (5K-10K)", "High (10K-15K)", "Very High (15K+)"], false)

  /** With increasing limits, the band is the number of limits `x` passes. */
  lemma {:induction false} BandIndexCounts(x: int, limits: seq<int>, inclusive: bool)
    requires forall i, j :: 0 <= i < j < |limits| ==> limits[i] < limits[j]
    ensures forall k :: 0 <= k < |limits| ==>
      (k < BandIndex(x, limits, inclusive) <==> !Within(x, limits[k], inclusive))
  {
    if limits != [] && !Within(x, limits[0], inclusive) {
      BandIndexCounts(x, limits[1..], inclusive);
      forall k | 1 <= k < |limits|
        ensures k < BandIndex(x, limits, inclusive) <==> !Within(x, limits[k], inclusive)
      {
        assert limits[1..][k - 1] == limits[k];
      }
    }
  }

  /** A larger value never lands in an earlier band. */
  lemma BandIndexMonotone(x: int, y: int, limits: seq<int>, inclusive: bool)
    requires forall i, j :: 0 <= i < j < |limits| ==> limits[i] < limits[j]
    requires x <= y
    ensures BandIndex(x, limits, inclusive) <= BandIndex(y, limits, inclusive)
  {
    var i := BandIndex(x, limits, inclusive);
    if i > 0 {
      BandIndexCounts(y, limits, inclusive);
      assert !Within(y, limits[i - 1], inclusive);
    }
  }

  /** The four configured bucketings are well formed. */
  lemma ConfiguredBandsWellFormed()
    ensures WellFormed(YearsAtCompanyBands) && WellFormed(YearsInCurrentRoleBands)
    ensures WellFormed(AgeBands) && WellFormed(MonthlyIncomeBands)
  {
  }

  /** Tenure boundaries: 2 is still New, 3 is Mid, 5 is Mid, 6 is Experienced,
      10 is Experienced and 11 Veteran. */
  lemma YearsAtCompanyBoundaries()
    ensures BandLabel(YearsAtCompanyBands, 2) == "New (0-2 yrs)"
    ensures BandLabel(YearsAtCompanyBands, 3) == "Mid (3-5 yrs)"
    ensures BandLabel(YearsAtCompanyBands, 5) == "Mid (3-5 yrs)"
    ensures BandLabel(YearsAtCompanyBands, 6) == "Experienced (6-10 yrs)"
    ensures BandLabel(YearsAtCompanyBands, 10) == "Experienced (6-10 yrs)"
    ensures BandLabel(YearsAtCompanyBands, 11) == "Veteran (10+ yrs)"
    ensures forall x :: x <= 2 ==> BandLabel(YearsAtCompanyBands, x) == "New (0-2 yrs)"
  {
  }

  /** Age boundaries: 30 is Young, 31 Mid-Career, 50 Senior, 51 Experienced. */
  lemma AgeBoundaries()
    ensures BandLabel(AgeBands, 30) == "Young (18-30)"
    ensures BandLabel(AgeBands, 31) == "Mid-Career (31-40)"
    ensures BandLabel(AgeBands, 50) == "Senior (41-50)"
    ensures BandLabel(AgeBands, 51) == "Experienced (50+)"
  {
  }

  /** Income thresholds are strict: 4999 is Low, exactly 5000 is Medium,
      exactly 15000 is Very High. */
  lemma MonthlyIncomeBoundaries()
    ensures BandLabel(MonthlyIncomeBands, 4999) == "Low (<5K)"
    ensures BandLabel(MonthlyIncomeBands, 5000) == "Medium (5K-10K)"
    ensures BandLabel(MonthlyIncomeBands, 14999) == "High (10K-15K)"
    ensures BandLabel(MonthlyIncomeBands, 15000) == "Very High (15K+)"
  {
  }

  /** The rating map shared by the four satisfaction and rating columns:
      1 and 2 are Bad, 3 Average, 4 and 5 Great, anything else unmapped. */
  function RatingLabel(x: int): (name: Option<string>)
    ensures name.Some? <==> 1 <= x <= 5
    ensures name.Some? ==> name.value in ["Bad", "Average", "Great"]
  {
    if x == 1 || x == 2 then Some("Bad")
    else if x == 3 then Some("Average")
    else if x == 4 || x == 5 then Some("Great")
    else None
  }

  /** A rating never gets a worse label than a lower rating. */
  lemma RatingLabelMonotone(x: int, y: int)
    requires 1 <= x <= y <= 5
    ensures RatingRank(RatingLabel(x).value) <= RatingRank(RatingLabel(y).value)
  {
  }

  function RatingRank(rating: string): nat
  {
    if rating == "Bad" then 0 else if rating == "Average" then 1 else 2
  }

  /** How a configured column is grouped. */
  datatype Grouping = Logic(bands: Bands) | Ratings

  /** The columns of the grouping table and their grouping. */
  function GroupingFor(column: string): (g: Option<Grouping>)
    ensures g.Some? && g.value.Logic? ==> WellFormed(g.value.bands)
  {
    if column in {"PerformanceRating", "JobSatisfaction", "WorkLifeBalance", "EnvironmentSatisfaction"} then Some(Ratings)
    else if column == "YearsAtCompany" then Some(Logic(YearsAtCompanyBands))
    else if column == "YearsInCurrentRole" then Some(Logic(YearsInCurrentRoleBands))
    else if column == "Age" then Some(Logic(AgeBands))
    else if column == "MonthlyIncome" then Some(Logic(MonthlyIncomeBands))
    else None
  }

  datatype AnalysisError =
    | ColumnNotFound(column: string)   // the analysed column is absent
    | KeyMissing(column: string)       // `EmployeeID` or `Attrition` is absent
    | NotComparable                    // a text compared with a number threshold

  datatype Result<T> = Ok(value: T) | Err(error: AnalysisError)

  /** The category of one cell. A bucketing compares the value with numbers:
      NaN passes no comparison and lands in the last band, a text cannot be
      compared. A rating map sends anything outside it to NaN. An unconfigured
      column is its own category. */
  function CategoryOf(g: Option<Grouping>, cell: Cell): (r: Result<Cell>)
    requires g.Some? && g.value.Logic? ==> WellFormed(g.value.bands)
    ensures r.Err? <==> g.Some? && g.value.Logic? && cell.Text?
    ensures r.Err? ==> r.error == NotComparable
    ensures g.None? ==> r == Ok(cell)
    ensures g.Some? && g.value.Ratings? ==> r.Ok? && (r.value == NaN || r.value.Text?)
  {
    match g
    case None => Ok(cell)
    case Some(Ratings) =>
      if cell.Num? && RatingLabel(cell.n).Some? then Ok(Text(RatingLabel(cell.n).value)) else Ok(NaN)
    case Some(Logic(b)) =>
      match cell
      case Num(x) => Ok(Text(BandLabel(b, x)))
      case NaN => Ok(Text(b.labels[|b.labels| - 1]))
      case Text(_) => Err(NotComparable)
  }

  /** The category of every row, or the first failure. */
  function Categories(g: Option<Grouping>, rows: seq<Row>, column: string): (r: Result<seq<Cell>>)
    requires g.Some? && g.value.Logic? ==> WellFormed(g.value.bands)
    ensures r.Ok? ==> |r.value| == |rows|
    ensures r.Ok? ==> forall i :: 0 <= i < |rows| ==> CategoryOf(g, Get(rows[i], column)) == Ok(r.value[i])
    ensures r.Err? <==> exists i :: 0 <= i < |rows| && CategoryOf(g, Get(rows[i], column)).Err?
    ensures r.Err? ==> r.error == NotComparable
  {
    if rows == [] then Ok([])
    else
      var init := rows[..|rows| - 1];
      var last := CategoryOf(g, Get(rows[|rows| - 1], column));
      var front := Categories(g, init, column);
      assert forall i :: 0 <= i < |init| ==> init[i] == rows[i];
      if front.Err? then Err(front.error)
      else if last.Err? then Err(last.error)
      else Ok(front.value + [last.value])
  }

  // ----------------------------------------------------------------- counting

  /** The rows of category `c` whose flag is set. */
  function CountWhere(keys: seq<Cell>, flags: seq<bool>, c: Cell): nat
    requires |keys| == |flags|
  {
    if keys == [] then 0
    else
      var n := |keys| - 1;
      CountWhere(keys[..n], flags[..n], c) + (if keys[n] == c && flags[n] then 1 else 0)
  }

  function CountTrue(flags: seq<bool>): nat
  {
    if flags == [] then 0 else CountTrue(flags[..|flags| - 1]) + (if flags[|flags| - 1] then 1 else 0)
  }

  /** The distinct categories, in order of first appearance. */
  function Distinct(keys: seq<Cell>): (d: seq<Cell>)
    ensures forall c :: c in d <==> c in keys
    ensures forall i, j :: 0 <= i < j < |d| ==> d[i] != d[j]
  {
    if keys == [] then []
    else
      var front := Distinct(keys[..|keys| - 1]);
      assert forall c :: c in keys <==> c in keys[..|keys| - 1] || c == keys[|keys| - 1];
      if keys[|keys| - 1] in front then front else front + [keys[|keys| - 1]]
  }

  /** The sum over categories `cats` of their flagged counts. */
  function SumOver(cats: seq<Cell>, keys: seq<Cell>, flags: seq<bool>): nat
    requires |keys| == |flags|
  {
    if cats == [] then 0 else SumOver(cats[..|cats| - 1], keys, flags) + CountWhere(keys, flags, cats[|cats| - 1])
  }

  /** One line of the summary: a category, its employee count (rows with an
      `EmployeeID`), how many of them left (`Attrition == "Yes"`) and the rest. */
  datatype SummaryRow = SummaryRow(category: Cell, total: nat, attrited: nat, retained: int)

  function HasId(row: Row): bool { Get(row, "EmployeeID") != NaN }
  function Left(row: Row): bool { Get(row, "Attrition") == Text("Yes") }

  function IdFlags(rows: seq<Row>): (flags: seq<bool>)
    ensures |flags| == |rows| && forall i :: 0 <= i < |rows| ==> flags[i] == HasId(rows[i])
  {
    seq(|rows|, i requires 0 <= i < |rows| => HasId(rows[i]))
  }

  function LeftFlags(rows: seq<Row>): (flags: seq<bool>)
    ensures |flags| == |rows| && forall i :: 0 <= i < |rows| ==> flags[i] == Left(rows[i])
  {
    seq(|rows|, i requires 0 <= i < |rows| => Left(rows[i]))
  }

  /** The summary lines for the categories `cats`, in their order. */
  function SummaryRows(cats: seq<Cell>, keys: seq<Cell>, rows: seq<Row>): (summary: seq<SummaryRow>)
    requires |keys| == |rows|
    ensures |summary| == |cats|
  {
    if cats == [] then []
    else
      var c := cats[|cats| - 1];
      var total, attrited := CountWhere(keys, IdFlags(rows), c), CountWhere(keys, LeftFlags(rows), c);
      SummaryRows(cats[..|cats| - 1], keys, rows) + [SummaryRow(c, total, attrited, total - attrited)]
  }

  /** `analyze_attrition` up to the rate: check the columns, group, count.
      The summary has one line per category, in order of first appearance. */
  function Summarize(frame: Frame, column: string): (r: Result<seq<SummaryRow>>)
    ensures column !in frame.columns ==> r == Err(ColumnNotFound(column))
    ensures column in frame.columns && Categories(GroupingFor(column), frame.rows, column).Err? ==>
      r == Err(NotComparable)
    ensures column in frame.columns && Categories(GroupingFor(column), frame.rows, column).Ok? ==>
      && ("EmployeeID" !in frame.columns ==> r == Err(KeyMissing("EmployeeID")))
      && ("EmployeeID" in frame.columns && "Attrition" !in frame.columns ==> r == Err(KeyMissing("Attrition")))
    ensures r.Ok? ==>
      var cats := Distinct(Categories(GroupingFor(column), frame.rows, column).value);
      |r.value| == |cats| && forall i :: 0 <= i < |cats| ==> r.value[i].category == cats[i]
  {
    if column !in frame.columns then Err(ColumnNotFound(column))
    else
      var g := GroupingFor(column);
      var keys := Categories(g, frame.rows, column);
      if keys.Err? then Err(keys.error)
      else if "EmployeeID" !in frame.columns then Err(KeyMissing("EmployeeID"))
      else if "Attrition" !in frame.columns then Err(KeyMissing("Attrition"))
      else
        SummaryRowsLines(Distinct(keys.value), keys.value, frame.rows);
        Ok(SummaryRows(Distinct(keys.value), keys.value, frame.rows))
  }

  // ------------------------------------------------------------------- lemmas

  lemma {:induction false} CountWhereBounded(keys: seq<Cell>, flags: seq<bool>, others: seq<bool>, c: Cell)
    requires |keys| == |flags| == |others|
    requires forall i :: 0 <= i < |keys| ==> flags[i] ==> others[i]
    ensures CountWhere(keys, flags, c) <= CountWhere(keys, others, c)
  {
    if keys != [] {
      var n := |keys| - 1;
      CountWhereBounded(keys[..n], flags[..n], others[..n], c);
    }
  }

  lemma {:induction false} CountWhereAbsent(keys: seq<Cell>, flags: seq<bool>, c: Cell)
    requires |keys| == |flags| && c !in keys
    ensures CountWhere(keys, flags, c) == 0
  {
    if keys != [] {
      var n := |keys| - 1;
      assert c !in keys[..n];
      CountWhereAbsent(keys[..n], flags[..n], c);
    }
  }

  lemma CountWhereNext(keys: seq<Cell>, flags: seq<bool>, k: Cell, f: bool, c: Cell)
    requires |keys| == |flags|
    ensures CountWhere(keys + [k], flags + [f], c) == CountWhere(keys, flags, c) + (if k == c && f then 1 else 0)
  {
    assert (keys + [k])[..|keys|] == keys;
    assert (flags + [f])[..|flags|] == flags;
  }

  /** Adding one row adds one to the sum when it is flagged and its category
      is listed once. */
  lemma {:induction false} SumOverNext(cats: seq<Cell>, keys: seq<Cell>, flags: seq<bool>, k: Cell, f: bool)
    requires |keys| == |flags|
    requires forall i, j :: 0 <= i < j < |cats| ==> cats[i] != cats[j]
    ensures SumOver(cats, keys + [k], flags + [f]) == SumOver(cats, keys, flags) + (if f && k in cats then 1 else 0)
  {
    if cats != [] {
      var init, c := cats[..|cats| - 1], cats[|cats| - 1];
      SumOverNext(init, keys, flags, k, f);
      CountWhereNext(keys, flags, k, f, c);
      assert k in cats <==> k in init || k == c;
      assert k == c ==> k !in init;
    }
  }

  /** Summing a flag over all distinct categories counts every flagged row once. */
  lemma {:induction false} SumOverDistinct(keys: seq<Cell>, flags: seq<bool>)
    requires |keys| == |flags|
    ensures SumOver(Distinct(keys), keys, flags) == CountTrue(flags)
  {
    if keys != [] {
      var n := |keys| - 1;
      var ks, fs, k, f := keys[..n], flags[..n], keys[n], flags[n];
      assert keys == ks + [k] && flags == fs + [f];
      SumOverDistinct(ks, fs);
      var d := Distinct(ks);
      SumOverNext(d, ks, fs, k, f);
      if k !in d {
        var d' := d + [k];
        assert d'[..|d|] == d;
        CountWhereAbsent(ks, fs, k);
        CountWhereNext(ks, fs, k, f, k);
      }
    }
  }

  function SumTotals(summary: seq<SummaryRow>): int
  {
    if summary == [] then 0 else SumTotals(summary[..|summary| - 1]) + summary[|summary| - 1].total
  }

  function SumAttrited(summary: seq<SummaryRow>): int
  {
    if summary == [] then 0 else SumAttrited(summary[..|summary| - 1]) + summary[|summary| - 1].attrited
  }

  lemma {:induction false} SummaryRowsSums(cats: seq<Cell>, keys: seq<Cell>, rows: seq<Row>)
    requires |keys| == |rows|
    ensures SumTotals(SummaryRows(cats, keys, rows)) == SumOver(cats, keys, IdFlags(rows))
    ensures SumAttrited(SummaryRows(cats, keys, rows)) == SumOver(cats, keys, LeftFlags(rows))
  {
    if cats != [] {
      var summary := SummaryRows(cats, keys, rows);
      SummaryRowsSums(cats[..|cats| - 1], keys, rows);
      assert summary[..|summary| - 1] == SummaryRows(cats[..|cats| - 1], keys, rows);
    }
  }

  lemma {:induction false} SummaryRowsLines(cats: seq<Cell>, keys: seq<Cell>, rows: seq<Row>)
    requires |keys| == |rows|
    ensures forall i :: 0 <= i < |cats| ==>
      SummaryRows(cats, keys, rows)[i] == SummaryRow(cats[i],
        CountWhere(keys, IdFlags(rows), cats[i]), CountWhere(keys, LeftFlags(rows), cats[i]),
        CountWhere(keys, IdFlags(rows), cats[i]) - CountWhere(keys, LeftFlags(rows), cats[i]))
  {
    if cats != [] {
      var init := cats[..|cats| - 1];
      SummaryRowsLines(init, keys, rows);
      assert forall i :: 0 <= i < |init| ==> init[i] == cats[i];
    }
  }

  /** `analyze_attrition` fails exactly when the column is absent, when a text
      meets a numeric bucketing, or when a counted column is absent. */
  lemma SummarizeErrors(frame: Frame, column: string)
    ensures column !in frame.columns ==> Summarize(frame, column) == Err(ColumnNotFound(column))
    ensures Summarize(frame, column).Ok? <==>
      && column in frame.columns && "EmployeeID" in frame.columns && "Attrition" in frame.columns
      && forall i :: 0 <= i < |frame.rows| ==> CategoryOf(GroupingFor(column), Get(frame.rows[i], column)).Ok?
  {
  }

  /** Each summary line is one category, listed once; every category of a row
      is listed. Retained is Total minus Attrited, and when every row of the
      frame has an `EmployeeID` a line never counts more leavers than employees. */
  lemma SummaryLines(frame: Frame, column: string)
    requires Summarize(frame, column).Ok?
    ensures var summary, keys := Summarize(frame, column).value, Categories(GroupingFor(column), frame.rows, column).value;
      && (forall i, j :: 0 <= i < j < |summary| ==> summary[i].category != summary[j].category)
      && (forall c :: c in keys <==> exists i :: 0 <= i < |summary| && summary[i].category == c)
      && (forall i :: 0 <= i < |summary| ==>
            && summary[i].total == CountWhere(keys, IdFlags(frame.rows), summary[i].category)
            && summary[i].attrited == CountWhere(keys, LeftFlags(frame.rows), summary[i].category)
            && summary[i].retained == summary[i].total - summary[i].attrited)
      && ((forall i :: 0 <= i < |frame.rows| ==> HasId(frame.rows[i])) ==>
            forall i :: 0 <= i < |summary| ==> summary[i].attrited <= summary[i].total && summary[i].retained >= 0)
  {
    var keys := Categories(GroupingFor(column), frame.rows, column).value;
    var cats := Distinct(keys);
    var summary := Summarize(frame, column).value;
    SummaryRowsLines(cats, keys, frame.rows);
    forall c | c in keys
      ensures exists i :: 0 <= i < |summary| && summary[i].category == c
    {
      var i :| 0 <= i < |cats| && cats[i] == c;
      assert summary[i].category == c;
    }
    if forall i :: 0 <= i < |frame.rows| ==> HasId(frame.rows[i]) {
      forall i | 0 <= i < |summary|
        ensures summary[i].attrited <= summary[i].total
      {
        CountWhereBounded(keys, LeftFlags(frame.rows), IdFlags(frame.rows), cats[i]);
      }
    }
  }

  /** The Total column sums to the number of rows with an `EmployeeID` (all
      the rows when none is missing) and the Attrited column to the number of
      leavers: every row is counted in exactly one category. */
  lemma SummaryTotals(frame: Frame, column: string)
    requires Summarize(frame, column).Ok?
    ensures var summary := Summarize(frame, column).value;
      && SumTotals(summary) == CountTrue(IdFlags(frame.rows))
      && SumAttrited(summary) == CountTrue(LeftFlags(frame.rows))
  {
    var keys := Categories(GroupingFor(column), frame.rows, column).value;
    SummaryRowsSums(Distinct(keys), keys, frame.rows);
    SumOverDistinct(keys, IdFlags(frame.rows));
    SumOverDistinct(keys, LeftFlags(frame.rows));
  }

  lemma {:induction false} CountTrueAll(flags: seq<bool>)
    requires forall i :: 0 <= i < |flags| ==> flags[i]
    ensures CountTrue(flags) == |flags|
  {
    if flags != [] {
      CountTrueAll(flags[..|flags| - 1]);
    }
  }

  /** With every `EmployeeID` present the totals add up to the number of rows. */
  lemma TotalsCoverAllRows(frame: Frame, column: string)
    requires Summarize(frame, column).Ok?
    requires forall i :: 0 <= i < |frame.rows| ==> HasId(frame.rows[i])
    ensures SumTotals(Summarize(frame, column).value) == |frame.rows|
  {
    SummaryTotals(frame, column);
    CountTrueAll(IdFlags(frame.rows));
  }

  /** Total counts `EmployeeID` values, not rows: a leaver whose id is missing
      makes a line with more leavers than employees and a negative Retained. */
  lemma MissingIdCountsNoEmployee()
    ensures var row := map["Department" := Text("Sales"), "EmployeeID" := NaN, "Attrition" := Text("Yes")];
      Summarize(Frame({"Department", "EmployeeID", "Attrition"}, [row]), "Department")
        == Ok([SummaryRow(Text("Sales"), 0, 1, -1)])
  {
    var row := map["Department" := Text("Sales"), "EmployeeID" := NaN, "Attrition" := Text("Yes")];
    var rows := [row];
    var keys := [Text("Sales")];
    assert "Department"[0] != "PerformanceRating"[0] && "Department"[0] != "JobSatisfaction"[0];
    assert "Department"[0] != "WorkLifeBalance"[0] && "Department"[0] != "EnvironmentSatisfaction"[0];
    assert "Department"[0] != "YearsAtCompany"[0] && "Department"[0] != "YearsInCurrentRole"[0];
    assert "Department"[0] != "Age"[0] && "Department"[0] != "MonthlyIncome"[0];
    assert GroupingFor("Department") == None;
    var none: seq<Row> := [];
    var noKeys: seq<Cell> := [];
    assert rows[..0] == none;
    assert |rows| - 1 == 0;
    assert Get(row, "Department") == Text("Sales");
    assert Get(row, "EmployeeID") == NaN && Get(row, "Attrition") == Text("Yes");
    assert Categories(None, none, "Department") == Ok(noKeys);
    assert CategoryOf(None, Get(rows[0], "Department")) == Ok(Text("Sales"));
    assert noKeys + keys == keys;
    assert Categories(None, rows, "Department") == Ok(keys);
    assert Distinct(keys) == keys;
    assert CountWhere(keys, IdFlags(rows), Text("Sales")) == 0;
    assert CountWhere(keys, LeftFlags(rows), Text("Sales")) == 1;
    var noLines: seq<SummaryRow> := [];
    assert keys[..0] == noKeys;
    assert SummaryRows(noKeys, keys, rows) == noLines;
    assert SummaryRows(keys, keys, rows) == [SummaryRow(Text("Sales"), 0, 1, -1)];
  }

  // ------------------------------------------------------------------ top_n

  /** `DataFrame.head(n)`: the first `n` lines; a negative `n` drops the last `-n`. */
  function Head<T>(lines: seq<T>, n: int): (r: seq<T>)
    ensures n >= 0 ==> r == lines[..if n < |lines| then n else |lines|]
    ensures n < 0 ==> r == lines[..if -n < |lines| then |lines| + n else 0]
  {
    if n >= 0 then (if n < |lines| then lines[..n] else lines)
    else if -n < |lines| then lines[..|lines| + n]
    else []
  }

  /** `if top_n: summary = summary.head(top_n)`: `None` and 0 keep every line. */
  function KeepTop<T>(lines: seq<T>, topN: Option<int>): (r: seq<T>)
    ensures topN.None? || topN == Some(0) ==> r == lines
    ensures topN.Some? && topN.value > 0 ==>
      |r| == (if topN.value < |lines| then topN.value else |lines|) && r == lines[..|r|]
    ensures topN.Some? && topN.value < 0 ==>
      |r| == (if -topN.value < |lines| then |lines| + topN.value else 0) && r == lines[..|r|]
  {
    if topN.None? || topN.value == 0 then lines else Head(lines, topN.value)
  }

  // --------------------------------------------------------------- insights

  const DefaultInsight: string := "No specific insight available for this column."

  const Insights: map<string, string> := map[
      "JobSatisfaction" := "\n    **Key Insight:** Low job satisfaction is the strongest predictor of attrition. \n    Employees in the \"Bad\" category show dramatically higher attrition rates compared to \n    those with \"Average\" or \"Great\" satisfaction.\n    \n    **Recommendation:** Conduct immediate engagement surveys and one-on-ones with low \n    satisfaction employees to identify root causes.\n    ",
      "OverTime" := "\n    **Key Insight:** Employees working overtime have significantly higher attrition rates. \n    This indicates workload imbalance and potential burnout.\n    \n    **Recommendation:** Audit overtime distribution, implement mandatory rest periods, \n    and consider additional hiring in high-overtime departments.\n    ",
      "YearsAtCompany" := "\n    **Key Insight:** New employees (0-2 years) face the highest attrition risk, \n    indicating potential issues with onboarding, role clarity, or cultural fit.\n    \n    **Recommendation:** Strengthen onboarding programs, assign mentors to new hires, \n    and conduct regular stay interviews at 3, 6, and 12-month marks.\n    ",
      "WorkLifeBalance" := "\n    **Key Insight:** Poor work-life balance nearly doubles attrition risk. \n    This is a critical retention factor that compounds with overtime.\n    \n    **Recommendation:** Introduce flexible work policies, review workload distribution, \n    and promote better time management practices.\n    ",
      "PerformanceRating" := "\n    **Key Insight:** Lower-rated employees show higher attrition, but this may indicate \n    performance management gaps rather than employee quality issues.\n    \n    **Recommendation:** Review performance feedback processes, ensure constructive \n    coaching, and provide clear improvement pathways.\n    ",
      "Department" := "\n    **Key Insight:** Some departments show higher attrition than others, pointing to \n    local factors like leadership, workload, or growth opportunities.\n    \n    **Recommendation:** Investigate high-attrition departments for management issues, \n    resource constraints, or career development gaps.\n    ",
      "JobRole" := "\n    **Key Insight:** Certain roles have higher attrition, possibly due to market \n    competitiveness, role design, or limited career progression.\n    \n    **Recommendation:** Review compensation competitiveness, role expectations, \n    and career paths for high-attrition roles.\n    ",
      "Age" := "\n    **Key Insight:** Attrition patterns vary by age group, with different factors \n    driving turnover at different career stages.\n    \n    **Recommendation:** Tailor retention strategies by age group (e.g., growth \n    opportunities for younger, work-life balance for older).\n    ",
      "Gender" := "\n    **Key Insight:** Gender-based attrition differences may indicate equity or \n    inclusion issues that need attention.\n    \n    **Recommendation:** Review policies for pay equity, promotion fairness, \n    and inclusive workplace practices.\n    ",
      "MonthlyIncome" := "\n    **Key Insight:** Income levels correlate with attrition, but the relationship \n    may not be linear\U{2014}market competitiveness matters.\n    \n    **Recommendation:** Benchmark salaries against market rates and ensure \n    internal pay equity.\n    ",
      "EnvironmentSatisfaction" := "\n    **Key Insight:** Poor environmental satisfaction (workplace conditions, tools, \n    facilities) drives attrition.\n    \n    **Recommendation:** Invest in workplace improvements, modern tools, \n    and comfortable work environments.\n    ",
      "YearsInCurrentRole" := "\n    **Key Insight:** Time in current role affects attrition\U{2014}too long may indicate \n    stagnation, too short may indicate poor fit.\n    \n    **Recommendation:** Ensure regular role rotations, promotions, and skill \n    development opportunities.\n    ",
      "EducationLevel" := "\n    **Key Insight:** Education level may correlate with attrition due to \n    overqualification or career expectations.\n    \n    **Recommendation:** Align roles with educational backgrounds and provide \n    appropriate growth challenges.\n    ",
      "TrainingTimesLastYear" := "\n    **Key Insight:** Training frequency impacts retention\U{2014}both too little and \n    too much may be problematic.\n    \n    **Recommendation:** Ensure relevant, meaningful training aligned with \n    career development goals.\n    ",
      "DistanceFromHome" := "\n    **Key Insight:** Long commutes increase attrition risk due to time, cost, \n    and work-life balance impacts.\n    \n    **Recommendation:** Offer remote work options or flexible schedules for \n    employees with long commutes.\n    "
  ]

  /** `get_insight_text`: the table entry, or the fixed default. */
  function InsightText(column: string): (text: string)
    ensures column !in Insights ==> text == DefaultInsight
    ensures column in Insights ==> text == Insights[column]
  {
    if column in Insights then Insights[column] else DefaultInsight
  }

  /** Every column with a grouping has its own insight text. */
  lemma GroupedColumnsHaveInsights(column: string)
    requires GroupingFor(column).Some?
    ensures InsightText(column) != DefaultInsight
  {
  }
}
