/** `fetch_produkty_join`: the product snapshot joined in memory with the
    category snapshot, one view row per product. */
module Join {
  import opened Wrappers
  import opened Records

  /** The position of the last category carrying `id`, or -1 when none does. */
  function LastWithId(kats: seq<Category>, id: int): (i: int)
    ensures -1 <= i < |kats|
    ensures i >= 0 ==> kats[i].id == id
    ensures forall j :: i < j < |kats| ==> kats[j].id != id
  {
    if kats == [] then -1
    else if kats[|kats| - 1].id == id then |kats| - 1
    else LastWithId(kats[..|kats| - 1], id)
  }

  /** `{k["id"]: k.get("nazwa") for k in kats}`: the keys are exactly the
      category ids, and a key maps to the name of the LAST category carrying
      that id (a later entry of a dict comprehension overwrites an earlier
      one). */
  function KatMap(kats: seq<Category>): (m: map<int, Option<string>>)
    ensures forall id :: id in m <==> LastWithId(kats, id) >= 0
    ensures forall id :: id in m ==> m[id] == kats[LastWithId(kats, id)].nazwa
  {
    if kats == [] then map[]
    else
      var init, last := kats[..|kats| - 1], kats[|kats| - 1];
      var mi := KatMap(init);
      var m := mi[last.id := last.nazwa];
      assert forall id :: id != last.id ==> LastWithId(kats, id) == LastWithId(init, id);
      assert forall id :: 0 <= LastWithId(init, id) ==> init[LastWithId(init, id)] == kats[LastWithId(init, id)];
      m
  }

  /** Every category id is a key of the map. */
  lemma KatMapKeys(kats: seq<Category>, i: nat)
    requires i < |kats|
    ensures kats[i].id in KatMap(kats)
  {
    var last := LastWithId(kats, kats[i].id);
    assert i <= last;
  }

  /** `kat_map.get(p.get("kategoria_id"))`: a null reference finds nothing,
      since every key of the map is an integer. */
  function CategoryName(m: map<int, Option<string>>, kategoriaId: Option<int>): (r: Option<string>)
    ensures kategoriaId.None? ==> r.None?
    ensures kategoriaId.Some? && kategoriaId.value !in m ==> r.None?
    ensures kategoriaId.Some? && kategoriaId.value in m ==> r == m[kategoriaId.value]
  {
    match kategoriaId
    case None => None
    case Some(k) => if k in m then m[k] else None
  }

  /** The view row built for one product (the dict appended in the loop of
      `fetch_produkty_join`). Missing quantity and price count as zero, so the
      line value is then zero; otherwise it is quantity times price. */
  function JoinRow(p: Product, m: map<int, Option<string>>): (r: Row)
    ensures r.id == p.id && r.nazwa == p.nazwa
    ensures r.liczba == (if p.liczba.Some? then p.liczba.value else 0)
    ensures r.cena == (if p.cena.Some? then p.cena.value else 0.0)
    ensures r.wartosc == r.liczba as real * r.cena
    ensures p.liczba.None? || p.cena.None? ==> r.wartosc == 0.0
    ensures r.kategoria == CategoryName(m, p.kategoriaId)
  {
    var liczba := p.liczba.GetOr(0);
    var cena := p.cena.GetOr(0.0);
    Row(p.id, p.nazwa, liczba, cena, CategoryName(m, p.kategoriaId), liczba as real * cena)
  }

  /** `rows` is the join of `prods` with `kats`: one row per product, same order. */
  ghost predicate IsJoin(rows: seq<Row>, prods: seq<Product>, kats: seq<Category>)
  {
    |rows| == |prods| && forall i :: 0 <= i < |prods| ==> rows[i] == JoinRow(prods[i], KatMap(kats))
  }

  /** `fetch_produkty_join()` on the two snapshots `prods` and `kats`. */
  method FetchProduktyJoin(prods: seq<Product>, kats: seq<Category>) returns (rows: seq<Row>)
    ensures IsJoin(rows, prods, kats)
  {
    var katMap := KatMap(kats);
    rows := [];
    var i := 0;
    while i < |prods|
      invariant 0 <= i <= |prods|
      invariant |rows| == i
      invariant forall j :: 0 <= j < i ==> rows[j] == JoinRow(prods[j], katMap)
    {
      rows := rows + [JoinRow(prods[i], katMap)];
      i := i + 1;
    }
  }

  /** The category name of a joined row, read off the category list alone:
      none for a null reference or an id no category has, otherwise the name
      of the last category with that id. */
  lemma RowCategory(p: Product, kats: seq<Category>)
    ensures p.kategoriaId.None? ==> JoinRow(p, KatMap(kats)).kategoria.None?
    ensures (p.kategoriaId.Some? && forall i :: 0 <= i < |kats| ==> kats[i].id != p.kategoriaId.value)
              ==> JoinRow(p, KatMap(kats)).kategoria.None?
    ensures forall i :: 0 <= i < |kats| && p.kategoriaId == Some(kats[i].id)
              && (forall j :: i < j < |kats| ==> kats[j].id != kats[i].id)
              ==> JoinRow(p, KatMap(kats)).kategoria == kats[i].nazwa
  {
    if p.kategoriaId.Some? {
      var l := LastWithId(kats, p.kategoriaId.value);
      if l >= 0 {
        assert kats[l].id == p.kategoriaId.value;
      }
    }
    forall i | 0 <= i < |kats| && p.kategoriaId == Some(kats[i].id)
                 && (forall j :: i < j < |kats| ==> kats[j].id != kats[i].id)
      ensures JoinRow(p, KatMap(kats)).kategoria == kats[i].nazwa
    {
      LastIsLast(kats, i);
    }
  }

  /** A category no later category shares an id with is the one found last. */
  lemma LastIsLast(kats: seq<Category>, i: nat)
    requires i < |kats|
    requires forall j :: i < j < |kats| ==> kats[j].id != kats[i].id
    ensures LastWithId(kats, kats[i].id) == i
  {
    var l := LastWithId(kats, kats[i].id);
    assert i <= l;
  }

  /** With distinct category ids (the table's primary key) a product that
      references category `kats[i]` is shown with exactly that category's name. */
  lemma RowCategoryUnique(p: Product, kats: seq<Category>, i: nat)
    requires forall a, b :: 0 <= a < b < |kats| ==> kats[a].id != kats[b].id
    requires i < |kats| && p.kategoriaId == Some(kats[i].id)
    ensures JoinRow(p, KatMap(kats)).kategoria == kats[i].nazwa
  {
    RowCategory(p, kats);
  }
}
