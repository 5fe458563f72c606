/** The "Dashboard" view: the three metrics, the low-stock alert table and
    the guard in front of the value-by-category pie chart. All of it is a
    function of the joined rows and of the threshold the user enters. */
module Dashboard {
  import opened Wrappers
  import opened Records
  import opened Join

  /** `df["wartosc"].sum()`: zero when every line value is zero; when no line
      value is negative, non-negative and at least every single line value. */
  function TotalValue(rows: seq<Row>): (r: real)
    ensures (forall i :: 0 <= i < |rows| ==> rows[i].wartosc == 0.0) ==> r == 0.0
    ensures (forall i :: 0 <= i < |rows| ==> rows[i].wartosc >= 0.0) ==>
              r >= 0.0 && forall i :: 0 <= i < |rows| ==> rows[i].wartosc <= r
  {
    if rows == [] then 0.0
    else
      var init := rows[..|rows| - 1];
      assert forall i :: 0 <= i < |init| ==> init[i] == rows[i];
      TotalValue(init) + rows[|rows| - 1].wartosc
  }

  /** `df["liczba"].sum()`: zero when every quantity is zero; when no quantity
      is negative, non-negative and at least every single quantity. */
  function TotalItems(rows: seq<Row>): (r: int)
    ensures (forall i :: 0 <= i < |rows| ==> rows[i].liczba == 0) ==> r == 0
    ensures (forall i :: 0 <= i < |rows| ==> rows[i].liczba >= 0) ==>
              r >= 0 && forall i :: 0 <= i < |rows| ==> rows[i].liczba <= r
  {
    if rows == [] then 0
    else
      var init := rows[..|rows| - 1];
      assert forall i :: 0 <= i < |init| ==> init[i] == rows[i];
      TotalItems(init) + rows[|rows| - 1].liczba
  }

  /** The positions of the rows at or below the threshold. */
  ghost function LowIndices(rows: seq<Row>, limit: int): set<int>
  {
    set i | 0 <= i < |rows| && rows[i].liczba <= limit
  }

  /** `df[df["liczba"] <= limit]`: the rows at or below the threshold, in
      their original order. */
  function LowStock(rows: seq<Row>, limit: int): (r: seq<Row>)
    ensures |r| <= |rows|
    ensures forall x :: x in r <==> x in rows && x.liczba <= limit
  {
    if rows == [] then []
    else
      var init, last := rows[..|rows| - 1], rows[|rows| - 1];
      assert rows == init + [last];
      LowStock(init, limit) + (if last.liczba <= limit then [last] else [])
  }

  /** The three metric tiles. */
  datatype Metrics = Metrics(totalValue: real, totalItems: int, lowStockCount: nat)

  /** The metrics block: all zero on an empty frame, otherwise the two column
      sums and the number of rows of the filtered frame. */
  function ComputeMetrics(rows: seq<Row>, limit: int): (m: Metrics)
    ensures rows == [] ==> m == Metrics(0.0, 0, 0)
    ensures m.totalValue == TotalValue(rows)
    ensures m.totalItems == TotalItems(rows)
    ensures m.lowStockCount == |LowIndices(rows, limit)|
    ensures m.lowStockCount <= |rows|
  {
    if rows == [] then Metrics(0.0, 0, 0)
    else
      LowStockCount(rows, limit);
      Metrics(TotalValue(rows), TotalItems(rows), |LowStock(rows, limit)|)
  }

  /** The filtered frame has one row per position at or below the threshold. */
  lemma {:induction false} LowStockCount(rows: seq<Row>, limit: int)
    ensures |LowStock(rows, limit)| == |LowIndices(rows, limit)|
  {
    if rows != [] {
      var n := |rows| - 1;
      var init := rows[..n];
      LowStockCount(init, limit);
      LowIndicesSplit(rows, limit);
      assert n !in LowIndices(init, limit);
    }
  }

  /** The low positions of a frame are those of all but its last row, plus
      the last position when that row is low. */
  lemma LowIndicesSplit(rows: seq<Row>, limit: int)
    requires rows != []
    ensures LowIndices(rows, limit)
      == LowIndices(rows[..|rows| - 1], limit) + (if rows[|rows| - 1].liczba <= limit then {|rows| - 1} else {})
  {
    var init := rows[..|rows| - 1];
    assert forall i :: 0 <= i < |init| ==> init[i] == rows[i];
  }

  /** The filter distributes over concatenation, so it keeps the rows' order. */
  lemma {:induction false} LowStockAppend(a: seq<Row>, b: seq<Row>, limit: int)
    ensures LowStock(a + b, limit) == LowStock(a, limit) + LowStock(b, limit)
  {
    if b != [] {
      var n := |b| - 1;
      assert (a + b)[..|a + b| - 1] == a + b[..n];
      LowStockAppend(a, b[..n], limit);
      assert (a + b)[|a + b| - 1] == b[n];
    } else {
      assert a + b == a;
    }
  }

  /** The two sums distribute over concatenation. */
  lemma {:induction false} TotalsAppend(a: seq<Row>, b: seq<Row>)
    ensures TotalValue(a + b) == TotalValue(a) + TotalValue(b)
    ensures TotalItems(a + b) == TotalItems(a) + TotalItems(b)
  {
    if b != [] {
      var n := |b| - 1;
      assert (a + b)[..|a + b| - 1] == a + b[..n];
      TotalsAppend(a, b[..n]);
      assert (a + b)[|a + b| - 1] == b[n];
    } else {
      assert a + b == a;
    }
  }

  /** One line of the alert table: `[["nazwa", "liczba"]]`. */
  datatype Alert = Alert(nazwa: Option<string>, liczba: int)

  /** The right-hand panel: an error with the table when the filtered frame is
      not empty, a success message otherwise. */
  datatype AlertPanel = BelowThreshold(limit: int, table: seq<Alert>) | AllInNorm

  function LowStockPanel(rows: seq<Row>, limit: int): (p: AlertPanel)
    ensures p.BelowThreshold? <==> ComputeMetrics(rows, limit).lowStockCount > 0
    ensures p.BelowThreshold? ==> p.limit == limit
    ensures p.BelowThreshold? ==> |p.table| == ComputeMetrics(rows, limit).lowStockCount
    ensures p.BelowThreshold? ==> forall i :: 0 <= i < |p.table| ==>
              p.table[i] == Alert(LowStock(rows, limit)[i].nazwa, LowStock(rows, limit)[i].liczba)
  {
    var low := LowStock(rows, limit);
    LowStockCount(rows, limit);
    if low == [] then AllInNorm
    else BelowThreshold(limit, seq(|low|, i requires 0 <= i < |low| => Alert(low[i].nazwa, low[i].liczba)))
  }

  /** The label the chart gives to a row without a category. */
  const NoCategoryLabel := "Brak kategorii"

  /** `fillna("Brak kategorii")` on one row: only the category changes. */
  function Labelled(r: Row): (l: Row)
    ensures l.kategoria.Some?
    ensures r.kategoria.Some? ==> l == r
    ensures r.kategoria.None? ==> l == r.(kategoria := Some(NoCategoryLabel))
  {
    r.(kategoria := Some(r.kategoria.GetOr(NoCategoryLabel)))
  }

  /** The data handed to the pie chart, or `None` when the panel shows the
      "no data" message instead: the chart is drawn only for a non-empty frame
      whose value column sums to more than zero. */
  function PieData(rows: seq<Row>): (r: Option<seq<Row>>)
    ensures r.Some? <==> rows != [] && TotalValue(rows) > 0.0
    ensures r.Some? ==> |r.value| == |rows|
    ensures r.Some? ==> forall i :: 0 <= i < |rows| ==> r.value[i] == Labelled(rows[i])
  {
    if rows != [] && TotalValue(rows) > 0.0 then
      Some(seq(|rows|, i requires 0 <= i < |rows| => Labelled(rows[i])))
    else None
  }

  /** The chart is drawn exactly when the "total value" tile is positive. */
  lemma PieFollowsTotal(rows: seq<Row>, limit: int)
    ensures PieData(rows).Some? <==> ComputeMetrics(rows, limit).totalValue > 0.0
  {
  }

  /** When no line value is negative, the chart is drawn exactly when some
      row has a positive value. */
  lemma PieWhenSomeValue(rows: seq<Row>)
    requires forall i :: 0 <= i < |rows| ==> rows[i].wartosc >= 0.0
    ensures TotalValue(rows) >= 0.0
    ensures PieData(rows).Some? <==> exists i :: 0 <= i < |rows| && rows[i].wartosc > 0.0
  {
    if !exists i :: 0 <= i < |rows| && rows[i].wartosc > 0.0 {
      assert forall i :: 0 <= i < |rows| ==> rows[i].wartosc == 0.0;
    }
  }

  /** The product forms only accept non-negative quantities and prices; the
      join of such products has no negative line value and no negative sum. */
  lemma JoinOfNonNegative(rows: seq<Row>, prods: seq<Product>, kats: seq<Category>)
    requires IsJoin(rows, prods, kats)
    requires forall i :: 0 <= i < |prods| ==> prods[i].liczba.GetOr(0) >= 0 && prods[i].cena.GetOr(0.0) >= 0.0
    ensures forall i :: 0 <= i < |rows| ==> rows[i].wartosc >= 0.0 && rows[i].liczba >= 0
    ensures TotalValue(rows) >= 0.0 && TotalItems(rows) >= 0
  {
  }
}
