/** The three forms that write to the tables ("Dodaj Kategorię", "Dodaj
    Produkt", "Edytuj produkt"): the required-name rule, the writes they issue,
    and the category box of the edit form with its preselected entry. */
module Forms {
  import opened Wrappers
  import opened Records
  import opened PyText
  import opened PyDict

  /** A write the forms hand to the storage layer. */
  datatype Write =
    | AddKategoria(nazwa: string, opis: Option<string>)
    | AddProdukt(nazwa: string, liczba: int, cena: real, kategoriaId: Option<int>)
    | UpdateProdukt(id: int, nazwa: string, liczba: int, cena: real, kategoriaId: Option<int>)

  /** What a submitted form does: a warning and no write, or one write. */
  datatype Outcome = Warned(message: string) | Saved(write: Write)

  const MissingCategoryName := "Podaj nazwę kategorii."
  const MissingProductName := "Podaj nazwę produktu."
  const NoCategoriesYet := "Najpierw dodaj kategorię!"
  const NoCategoryOption := "(brak kategorii)"

  /** The required-name rule: a name that is empty after `strip()` is
      refused; an accepted name is kept stripped. */
  function RequiredName(nazwa: string): (r: Option<string>)
    ensures r.None? <==> IsBlank(nazwa)
    ensures r.Some? ==> r.value == Strip(nazwa) && !IsSpace(r.value[0]) && !IsSpace(r.value[|r.value| - 1])
  {
    var s := Strip(nazwa);
    if s == [] then None else Some(s)
  }

  /** Submitting "Dodaj Kategorię". The description is stored stripped, and
      only an empty one is stored as null. */
  function SubmitAddKategoria(nazwa: string, opis: string): (r: Outcome)
    ensures r.Warned? <==> IsBlank(nazwa)
    ensures r.Warned? ==> r.message == MissingCategoryName
    ensures r.Saved? ==> r.write.AddKategoria? && r.write.nazwa == Strip(nazwa)
    ensures r.Saved? ==> (r.write.opis.None? <==> opis == [])
    ensures r.Saved? && r.write.opis.Some? ==> r.write.opis.value == Strip(opis)
  {
    match RequiredName(nazwa)
    case None => Warned(MissingCategoryName)
    case Some(n) => Saved(AddKategoria(n, if opis != [] then Some(Strip(opis)) else None))
  }

  /** `{k["nazwa"]: k["id"] for k in kategorie}`: one entry per distinct
      category name (a null name is a key like any other), holding the id of
      the LAST category with that name. */
  function KatOptions(kats: seq<Category>): (d: Dict<Option<string>, int>)
    ensures IsKatOptions(kats, d)
    ensures KeysInFirstOrder(kats, d)
    ensures d == [] <==> kats == []
  {
    if kats == [] then []
    else
      var init, last := kats[..|kats| - 1], kats[|kats| - 1];
      var di := KatOptions(init);
      var d := Put(di, last.nazwa, last.id);
      KatOptionsStep(kats, di, d);
      KatOptionsOrderStep(kats, di, d);
      d
  }

  /** The set of category names (null included) occurring in `kats`. */
  function Names(kats: seq<Category>): set<Option<string>>
  {
    if kats == [] then {} else Names(kats[..|kats| - 1]) + {kats[|kats| - 1].nazwa}
  }

  /** A name is in `Names(kats)` exactly when some category carries it. */
  lemma {:induction false} NamesMembers(kats: seq<Category>, n: Option<string>)
    ensures n in Names(kats) <==> exists i :: 0 <= i < |kats| && kats[i].nazwa == n
  {
    if kats != [] {
      var init := kats[..|kats| - 1];
      NamesMembers(init, n);
      if exists i :: 0 <= i < |init| && init[i].nazwa == n {
        var i :| 0 <= i < |init| && init[i].nazwa == n;
        assert kats[i].nazwa == n;
      }
      if exists i :: 0 <= i < |kats| && kats[i].nazwa == n {
        var i :| 0 <= i < |kats| && kats[i].nazwa == n;
        if i < |init| { assert init[i].nazwa == n; }
      }
    }
  }

  /** The position of the last category named `n`, or -1 when none is. */
  function LastWithName(kats: seq<Category>, n: Option<string>): (i: int)
    ensures -1 <= i < |kats|
    ensures i >= 0 ==> kats[i].nazwa == n
    ensures forall j :: i < j < |kats| ==> kats[j].nazwa != n
  {
    if kats == [] then -1
    else if kats[|kats| - 1].nazwa == n then |kats| - 1
    else LastWithName(kats[..|kats| - 1], n)
  }

  /** The position of the first category named `n`, or `|kats|` when none is. */
  function FirstWithName(kats: seq<Category>, n: Option<string>): (i: nat)
    ensures i <= |kats|
    ensures i < |kats| ==> kats[i].nazwa == n
    ensures forall j :: 0 <= j < i ==> kats[j].nazwa != n
  {
    if kats == [] then 0
    else
      var init := kats[..|kats| - 1];
      var f := FirstWithName(init, n);
      assert forall j :: 0 <= j < |init| ==> init[j] == kats[j];
      if f < |init| then f else if kats[|kats| - 1].nazwa == n then |init| else |kats|
  }

  /** A name some category carries is first carried inside the list. */
  lemma NamesFirst(kats: seq<Category>, n: Option<string>)
    requires n in Names(kats)
    ensures FirstWithName(kats, n) < |kats|
  {
    NamesMembers(kats, n);
    var i :| 0 <= i < |kats| && kats[i].nazwa == n;
  }

  /** The keys of `d` come in the order in which their names first occur in
      `kats` (Python dicts keep the position of a key's first insertion). */
  ghost predicate KeysInFirstOrder(kats: seq<Category>, d: Dict<Option<string>, int>)
  {
    forall a, b :: 0 <= a < b < |d| ==> FirstWithName(kats, d[a].0) < FirstWithName(kats, d[b].0)
  }

  /** Adding one category to the end of the list keeps the keys in order: a
      name seen before keeps its place, a new name goes last. */
  lemma KatOptionsOrderStep(kats: seq<Category>, di: Dict<Option<string>, int>, d: Dict<Option<string>, int>)
    requires |kats| > 0 && IsKatOptions(kats[..|kats| - 1], di) && KeysInFirstOrder(kats[..|kats| - 1], di)
    requires d == Put(di, kats[|kats| - 1].nazwa, kats[|kats| - 1].id)
    ensures KeysInFirstOrder(kats, d)
  {
    var init, last := kats[..|kats| - 1], kats[|kats| - 1];
    forall j | 0 <= j < |di|
      ensures FirstWithName(kats, di[j].0) == FirstWithName(init, di[j].0) < |init|
    {
      NamesFirst(init, di[j].0);
    }
    if Find(di, last.nazwa) == |di| {
      assert forall i :: 0 <= i < |init| ==> init[i].nazwa != last.nazwa by {
        assert Get(di, last.nazwa).None?;
      }
      assert FirstWithName(kats, last.nazwa) == |init|;
    }
  }

  /** `d` has distinct keys, every key is some category's name, and every
      category's name is a key holding the id of the last category carrying
      that name. */
  ghost predicate IsKatOptions(kats: seq<Category>, d: Dict<Option<string>, int>)
  {
    && DistinctKeys(d)
    && |d| <= |kats|
    && (forall j :: 0 <= j < |d| ==> d[j].0 in Names(kats))
    && (forall i :: 0 <= i < |kats| ==>
          LastWithName(kats, kats[i].nazwa) >= 0
          && Get(d, kats[i].nazwa) == Some(kats[LastWithName(kats, kats[i].nazwa)].id))
  }

  /** Adding one category to the end of the list sets its name's entry. */
  lemma KatOptionsStep(kats: seq<Category>, di: Dict<Option<string>, int>, d: Dict<Option<string>, int>)
    requires |kats| > 0 && IsKatOptions(kats[..|kats| - 1], di)
    requires d == Put(di, kats[|kats| - 1].nazwa, kats[|kats| - 1].id)
    ensures IsKatOptions(kats, d)
  {
    var init, last := kats[..|kats| - 1], kats[|kats| - 1];
    assert forall i :: 0 <= i < |init| ==> init[i] == kats[i];
    forall j | 0 <= j < |d|
      ensures d[j].0 in Names(kats)
    {
      if j < |di| && d[j].0 != last.nazwa {
        assert d[j] == di[j];
      }
    }
    forall i | 0 <= i < |kats|
      ensures LastWithName(kats, kats[i].nazwa) >= 0
      ensures Get(d, kats[i].nazwa) == Some(kats[LastWithName(kats, kats[i].nazwa)].id)
    {
      GetPut(di, last.nazwa, last.id, kats[i].nazwa);
    }
  }

  /** The entries of the edit form's category box: the option names, or the
      single placeholder when there are no categories. */
  function KatNames(opts: Dict<Option<string>, int>): (names: seq<Option<string>>)
    ensures |names| > 0
    ensures opts != [] ==> names == Keys(opts)
    ensures opts == [] ==> names == [Some(NoCategoryOption)]
  {
    if opts != [] then Keys(opts) else [Some(NoCategoryOption)]
  }

  /** The position of the first option whose id is `k`, or `|opts|` when none is. */
  function FirstWithId(opts: Dict<Option<string>, int>, k: int): (i: nat)
    ensures i <= |opts|
    ensures forall j :: 0 <= j < i ==> opts[j].1 != k
    ensures i < |opts| ==> opts[i].1 == k
  {
    if opts == [] then 0
    else if opts[0].1 == k then 0
    else 1 + FirstWithId(opts[1..], k)
  }

  /** `default_kat_name` as the loop over `kat_options.items()` leaves it:
      None when the product has no category or no option holds its id, and
      otherwise the name of the first option holding it. */
  function DefaultName(opts: Dict<Option<string>, int>, kategoriaId: Option<int>): (name: Option<string>)
    ensures kategoriaId.None? ==> name.None?
    ensures kategoriaId.Some? && (forall i :: 0 <= i < |opts| ==> opts[i].1 != kategoriaId.value) ==> name.None?
    ensures forall i :: (0 <= i < |opts| && kategoriaId == Some(opts[i].1)
                          && forall j :: 0 <= j < i ==> opts[j].1 != opts[i].1) ==> name == opts[i].0
  {
    if opts != [] && kategoriaId.Some? && FirstWithId(opts, kategoriaId.value) < |opts|
    then opts[FirstWithId(opts, kategoriaId.value)].0
    else None
  }

  /** The search loop of the edit form, with its early `break`. */
  method FindDefaultName(opts: Dict<Option<string>, int>, kategoriaId: Option<int>) returns (name: Option<string>)
    ensures name == DefaultName(opts, kategoriaId)
  {
    name := None;
    if opts != [] && kategoriaId.Some? {
      var i := 0;
      while i < |opts|
        invariant 0 <= i <= |opts|
        invariant forall j :: 0 <= j < i ==> opts[j].1 != kategoriaId.value
      {
        if opts[i].1 == kategoriaId.value {
          name := opts[i].0;
          break;
        }
        i := i + 1;
      }
    }
  }

  /** `names.index(x) if x in names else 0`. */
  function IndexOrZero<T(==)>(names: seq<T>, x: T): (i: nat)
    ensures x in names ==> i < |names| && names[i] == x && forall j :: 0 <= j < i ==> names[j] != x
    ensures x !in names ==> i == 0
  {
    if names == [] then 0
    else if names[0] == x then 0
    else if x in names[1..] then 1 + IndexOrZero(names[1..], x)
    else 0
  }

  /** `idx` is the entry the category box starts on. It is a valid index.
      When some option holds the product's category id, it is the first such
      option. Otherwise it is 0, unless an option with a null name exists, in
      which case it is that option (it compares equal to Python's None). */
  ghost predicate Preselects(opts: Dict<Option<string>, int>, kategoriaId: Option<int>, idx: int)
  {
    && 0 <= idx < |KatNames(opts)|
    && (kategoriaId.Some? && FirstWithId(opts, kategoriaId.value) < |opts| ==>
          idx == FirstWithId(opts, kategoriaId.value) && opts[idx].1 == kategoriaId.value)
    && ((kategoriaId.None? || FirstWithId(opts, kategoriaId.value) == |opts|) ==>
          (None !in KatNames(opts) ==> idx == 0) && (None in KatNames(opts) ==> KatNames(opts)[idx] == None))
  }

  /** `kat_names.index(default_kat_name) if default_kat_name in kat_names else 0`. */
  function DefaultIndex(opts: Dict<Option<string>, int>, kategoriaId: Option<int>): (idx: nat)
    requires DistinctKeys(opts)
    ensures Preselects(opts, kategoriaId, idx)
  {
    var idx := IndexOrZero(KatNames(opts), DefaultName(opts, kategoriaId));
    assert kategoriaId.Some? && FirstWithId(opts, kategoriaId.value) < |opts| ==>
             idx == FirstWithId(opts, kategoriaId.value) by {
      if kategoriaId.Some? && FirstWithId(opts, kategoriaId.value) < |opts| {
        DistinctKeyIndex(opts, FirstWithId(opts, kategoriaId.value));
      }
    }
    idx
  }

  /** With distinct keys at most one entry is preselected. */
  lemma PreselectsUnique(opts: Dict<Option<string>, int>, kategoriaId: Option<int>, a: int, b: int)
    requires DistinctKeys(opts)
    requires Preselects(opts, kategoriaId, a) && Preselects(opts, kategoriaId, b)
    ensures a == b
  {
    if (kategoriaId.None? || FirstWithId(opts, kategoriaId.value) == |opts|) && None in KatNames(opts) {
      assert opts != [];
      FindAt(opts, a);
      FindAt(opts, b);
    }
  }

  /** In a dict with distinct keys, a key's first position among the keys is its entry's. */
  lemma DistinctKeyIndex(opts: Dict<Option<string>, int>, i: nat)
    requires DistinctKeys(opts) && i < |opts|
    ensures IndexOrZero(KatNames(opts), opts[i].0) == i
  {
    var names := KatNames(opts);
    assert names[i] == opts[i].0;
    var r := IndexOrZero(names, opts[i].0);
    assert names[r] == opts[r].0;
  }

  /** Lines 238-248 of the edit form on the category snapshot and the chosen
      product: the options, the box entries, the search loop and the index. */
  method EditDefaultIndex(kats: seq<Category>, p: Product) returns (idx: nat)
    ensures Preselects(KatOptions(kats), p.kategoriaId, idx)
  {
    var opts := KatOptions(kats);
    var names := KatNames(opts);
    var name := FindDefaultName(opts, p.kategoriaId);
    idx := IndexOrZero(names, name);
    if p.kategoriaId.Some? && FirstWithId(opts, p.kategoriaId.value) < |opts| {
      DistinctKeyIndex(opts, FirstWithId(opts, p.kategoriaId.value));
    }
  }

  /** The edit form's starting field values: `p.get(...) or default`. */
  datatype FormValues = FormValues(nazwa: string, liczba: int, cena: real)

  function EditFormValues(p: Product): (v: FormValues)
    ensures v.nazwa == (if p.nazwa.Some? then p.nazwa.value else "")
    ensures v.liczba == (if p.liczba.Some? then p.liczba.value else 0)
    ensures v.cena == (if p.cena.Some? then p.cena.value else 0.0)
  {
    FormValues(p.nazwa.GetOr(""), p.liczba.GetOr(0), p.cena.GetOr(0.0))
  }

  /** Submitting "Edytuj produkt". The chosen category box entry is looked
      up among the options; with no categories the write carries no category. */
  function SubmitEdit(p: Product, kats: seq<Category>, nazwa: string, liczba: int, cena: real,
                      katName: Option<string>): (r: Outcome)
    requires p.id.Some?
    requires liczba >= 0 && cena >= 0.0
    requires katName in KatNames(KatOptions(kats))
    ensures r.Warned? <==> IsBlank(nazwa)
    ensures r.Warned? ==> r.message == MissingProductName
    ensures r.Saved? ==> r.write.UpdateProdukt? && r.write.id == p.id.value && r.write.nazwa == Strip(nazwa)
    ensures r.Saved? ==> r.write.liczba == liczba && r.write.cena == cena
    ensures r.Saved? && kats == [] ==> r.write.kategoriaId.None?
    ensures r.Saved? && kats != [] ==>
              r.write.kategoriaId.Some? && r.write.kategoriaId == Get(KatOptions(kats), katName)
  {
    var opts := KatOptions(kats);
    match RequiredName(nazwa)
    case None => Warned(MissingProductName)
    case Some(n) =>
      var newKatId := if opts != [] then Get(opts, katName) else None;
      Saved(UpdateProdukt(p.id.value, n, liczba, cena, newKatId))
  }

  /** Submitting "Dodaj Produkt". Without categories the page shows a warning
      instead of the form, so nothing can be written. */
  function SubmitAddProdukt(kats: seq<Category>, nazwa: string, liczba: int, cena: real,
                            katName: Option<string>): (r: Outcome)
    requires liczba >= 0 && cena >= 0.0
    requires kats != [] ==> katName in Keys(KatOptions(kats))
    ensures kats == [] ==> r == Warned(NoCategoriesYet)
    ensures kats != [] ==> (r.Warned? <==> IsBlank(nazwa))
    ensures kats != [] && r.Warned? ==> r.message == MissingProductName
    ensures r.Saved? ==> r.write.AddProdukt? && r.write.nazwa == Strip(nazwa)
    ensures r.Saved? ==> r.write.liczba == liczba && r.write.cena == cena
    ensures r.Saved? ==>
              r.write.kategoriaId.Some? && r.write.kategoriaId == Get(KatOptions(kats), katName)
  {
    if kats == [] then Warned(NoCategoriesYet)
    else
      var opts := KatOptions(kats);
      match RequiredName(nazwa)
      case None => Warned(MissingProductName)
      case Some(n) => Saved(AddProdukt(n, liczba, cena, Some(Get(opts, katName).value)))
  }

  /** Saving the edit form with the preselected category keeps the product's
      category whenever an option carries that category's id. */
  lemma EditKeepsCategory(p: Product, kats: seq<Category>, nazwa: string, liczba: int, cena: real)
    requires p.id.Some? && p.kategoriaId.Some? && !IsBlank(nazwa)
    requires liczba >= 0 && cena >= 0.0
    requires FirstWithId(KatOptions(kats), p.kategoriaId.value) < |KatOptions(kats)|
    ensures var opts := KatOptions(kats);
      SubmitEdit(p, kats, nazwa, liczba, cena, KatNames(opts)[DefaultIndex(opts, p.kategoriaId)])
        == Saved(UpdateProdukt(p.id.value, Strip(nazwa), liczba, cena, p.kategoriaId))
  {
    var opts := KatOptions(kats);
    var idx := DefaultIndex(opts, p.kategoriaId);
    FindAt(opts, idx);
  }

  /** When every category has a name, the category box has no entry equal
      to Python's None. */
  lemma NoNullOption(kats: seq<Category>)
    requires kats != [] && forall i :: 0 <= i < |kats| ==> kats[i].nazwa.Some?
    ensures None !in KatNames(KatOptions(kats))
  {
    NamesMembers(kats, None);
  }

  /** A product without a category opens the edit form on entry 0 when
      categories exist and all have names: the box then offers no "no
      category" entry (see `SaveFirstEntry` for what saving it writes). */
  lemma UncategorisedOpensOnFirst(p: Product, kats: seq<Category>)
    requires p.kategoriaId.None?
    requires kats != [] && forall i :: 0 <= i < |kats| ==> kats[i].nazwa.Some?
    ensures DefaultIndex(KatOptions(kats), p.kategoriaId) == 0
  {
    NoNullOption(kats);
  }

  /** The first option is named after the first category. */
  lemma KatOptionsFirst(kats: seq<Category>)
    requires kats != []
    ensures KatOptions(kats)[0].0 == kats[0].nazwa
  {
    var d := KatOptions(kats);
    var pos := Find(d, kats[0].nazwa);
    assert FirstWithName(kats, d[pos].0) == 0;
    assert forall b :: 0 < b < |d| ==> FirstWithName(kats, d[b].0) > 0;
  }

  /** Saving the edit form on entry 0 of a non-empty category box writes the
      id of the last category named like the first category. */
  lemma SaveFirstEntry(p: Product, kats: seq<Category>, nazwa: string, liczba: int, cena: real)
    requires p.id.Some? && !IsBlank(nazwa) && kats != []
    requires liczba >= 0 && cena >= 0.0
    ensures var l := LastWithName(kats, kats[0].nazwa);
      && l >= 0
      && SubmitEdit(p, kats, nazwa, liczba, cena, KatNames(KatOptions(kats))[0])
           == Saved(UpdateProdukt(p.id.value, Strip(nazwa), liczba, cena, Some(kats[l].id)))
  {
    KatOptionsFirst(kats);
  }

  /** When every category carrying id `k` has its name reused by a later
      category, no option of the category box holds `k`. */
  lemma ShadowedCategoryLost(kats: seq<Category>, k: int)
    requires forall i :: 0 <= i < |kats| && kats[i].id == k ==>
               exists j :: i < j < |kats| && kats[j].nazwa == kats[i].nazwa
    ensures FirstWithId(KatOptions(kats), k) == |KatOptions(kats)|
  {
    var d := KatOptions(kats);
    forall f | 0 <= f < |d|
      ensures d[f].1 != k
    {
      NamesMembers(kats, d[f].0);
      var i0 :| 0 <= i0 < |kats| && kats[i0].nazwa == d[f].0;
      FindAt(d, f);
      var l := LastWithName(kats, d[f].0);
      assert !(exists j :: l < j < |kats| && kats[j].nazwa == kats[l].nazwa);
    }
  }

  /** A product whose category is shadowed that way opens the edit form on
      entry 0 when all categories have names. */
  lemma ShadowedOpensOnFirst(p: Product, kats: seq<Category>)
    requires p.kategoriaId.Some?
    requires kats != [] && forall i :: 0 <= i < |kats| ==> kats[i].nazwa.Some?
    requires forall i :: 0 <= i < |kats| && kats[i].id == p.kategoriaId.value ==>
               exists j :: i < j < |kats| && kats[j].nazwa == kats[i].nazwa
    ensures DefaultIndex(KatOptions(kats), p.kategoriaId) == 0
  {
    ShadowedCategoryLost(kats, p.kategoriaId.value);
    NoNullOption(kats);
  }

  /** Entry 0 then holds another category's id: the last category named like
      the first one, never a category carrying the shadowed id, so saving the
      form unchanged (`SaveFirstEntry`) moves the product. */
  lemma ShadowedEntryMoves(kats: seq<Category>, k: int)
    requires kats != []
    requires forall i :: 0 <= i < |kats| && kats[i].id == k ==>
               exists j :: i < j < |kats| && kats[j].nazwa == kats[i].nazwa
    ensures var l := LastWithName(kats, kats[0].nazwa);
      l >= 0 && kats[l].id != k
  {
    var l := LastWithName(kats, kats[0].nazwa);
    assert !(exists j :: l < j < |kats| && kats[j].nazwa == kats[l].nazwa);
  }
}
