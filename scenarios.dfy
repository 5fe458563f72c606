/** A worked example of the whole data flow: two categories, two products,
    the joined rows, the metric tiles, the alert panel and the chart data. */
module Scenarios {
  import opened Wrappers
  import opened Records
  import opened Join
  import opened Dashboard
  import opened PyText
  import opened Forms

  function ExampleKats(): seq<Category>
  {
    [Category(1, Some("A"), None), Category(2, Some("B"), None)]
  }

  function ExampleProds(): seq<Product>
  {
    [ Product(Some(1), Some("x"), Some(3), Some(2.0), Some(1)),
      Product(Some(2), Some("y"), Some(0), Some(5.0), None) ]
  }

  function ExampleRows(): seq<Row>
  {
    [ Row(Some(1), Some("x"), 3, 2.0, Some("A"), 6.0),
      Row(Some(2), Some("y"), 0, 5.0, None, 0.0) ]
  }

  /** The join of the example is the two rows above, in product order: the
      first under category "A" with value 3 * 2.0, the second with no category. */
  lemma ExampleJoin(rows: seq<Row>)
    requires IsJoin(rows, ExampleProds(), ExampleKats())
    ensures rows == ExampleRows()
  {
    var kats := ExampleKats();
    assert kats[1].id != kats[0].id;
    assert KatMap(kats)[1] == Some("A");
  }

  /** The totals of the example: value 3 * 2.0 + 0 * 5.0, items 3 + 0. */
  lemma ExampleTotals()
    ensures TotalValue(ExampleRows()) == 6.0
    ensures TotalItems(ExampleRows()) == 3
  {
    var rows := ExampleRows();
    assert rows[..1] == [rows[0]];
    assert rows[..1][..0] == [];
  }

  /** With a threshold of 5 both rows are low on stock. */
  lemma ExampleLowStock()
    ensures LowStock(ExampleRows(), 5) == ExampleRows()
  {
    var rows := ExampleRows();
    assert rows[..1] == [rows[0]];
    assert rows[..1][..0] == [];
  }

  /** With a threshold of 5 the value tile shows 6, the item tile 3 and the
      alert tile 2. */
  lemma ExampleDashboard()
    ensures ComputeMetrics(ExampleRows(), 5) == Metrics(6.0, 3, 2)
  {
    ExampleTotals();
    ExampleLowStock();
  }

  /** With a threshold of 5 the alert panel lists both rows. */
  lemma ExamplePanel()
    ensures LowStockPanel(ExampleRows(), 5) == BelowThreshold(5, [Alert(Some("x"), 3), Alert(Some("y"), 0)])
  {
    var rows := ExampleRows();
    ExampleLowStock();
    var low := LowStock(rows, 5);
    assert low[0] == rows[0] && low[1] == rows[1];
    var table := seq(|low|, i requires 0 <= i < |low| => Alert(low[i].nazwa, low[i].liczba));
    assert table == [Alert(Some("x"), 3), Alert(Some("y"), 0)];
  }

  /** The chart is drawn, with the uncategorised row under "Brak kategorii". */
  lemma ExamplePie()
    ensures PieData(ExampleRows()) == Some([ Row(Some(1), Some("x"), 3, 2.0, Some("A"), 6.0),
                                             Row(Some(2), Some("y"), 0, 5.0, Some(NoCategoryLabel), 0.0) ])
  {
    ExampleTotals();
    var d := PieData(ExampleRows()).value;
    assert d[1] == Row(Some(2), Some("y"), 0, 5.0, Some(NoCategoryLabel), 0.0);
    assert d == [d[0], d[1]];
  }

  /** Categories 1 "A", 2 "B", 3 "A": the box offers "A" (holding 3) and "B".
      A product in category 1 opens the edit form on "A", and saving it
      unchanged writes category 3. */
  lemma ShadowedExample()
    ensures var kats := [Category(1, Some("A"), None), Category(2, Some("B"), None), Category(3, Some("A"), None)];
      var p := Product(Some(7), Some("x"), Some(1), Some(1.0), Some(1));
      && DefaultIndex(KatOptions(kats), p.kategoriaId) == 0
      && KatNames(KatOptions(kats))[0] == Some("A")
      && SubmitEdit(p, kats, "x", 1, 1.0, KatNames(KatOptions(kats))[0])
           == Saved(UpdateProdukt(7, "x", 1, 1.0, Some(3)))
  {
    var kats := [Category(1, Some("A"), None), Category(2, Some("B"), None), Category(3, Some("A"), None)];
    var p := Product(Some(7), Some("x"), Some(1), Some(1.0), Some(1));
    assert kats[2].nazwa == kats[0].nazwa;
    ShadowedOpensOnFirst(p, kats);
    KatOptionsFirst(kats);
    assert !IsBlank("x") by { assert !IsSpace("x"[0]); }
    SaveFirstEntry(p, kats, "x", 1, 1.0);
    StripFixesTrimmed("x");
    assert LastWithName(kats, Some("A")) == 2;
  }
}
