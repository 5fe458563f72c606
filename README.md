# Magazyn Pro — a Dafny model of `baza.py`

`baza.py` is a single-page inventory dashboard ("Magazyn Pro"). Categories
(`kategorie`) and products (`produkty`) live in two remote tables. On every
run the page reads both tables and joins them in memory into view rows, one
per product, carrying the category name and the line value
`liczba × cena`. The page then shows one of these views:

- a dashboard: three metric tiles, a pie chart of value by category, and a
  low-stock alert panel;
- three forms that write to the tables: add a category, add a product, edit
  a product.

This project models the computing core of that page.

- **Records**: the rows that come back from the tables, and the joined view
  row. Every column the code reads with `.get` is an `Option`, because it
  can be missing or null.
- **PyText**: Python's `str.strip()` with the whitespace set of
  `str.isspace()`. All three forms use it for their required-name rule.
- **PyDict**: a Python `dict` as an insertion-ordered list of distinct
  keys. Assigning to an existing key keeps its position and replaces its
  value.
- **Join**: `fetch_produkty_join`. It builds the id → name map and then
  runs the loop that builds one row per product.
- **Dashboard**:
  - the metric tiles (total value, total items, number of low-stock
    rows);
  - the low-stock filter and its alert panel;
  - the rule that decides whether the pie chart is drawn, and the
    "Brak kategorii" label it gives to rows without a category.
- **Forms**:
  - the outcome of submitting each of the three forms: a warning, or
    exactly one write with stripped strings;
  - the category options of the product forms;
  - the search loop and the `index` call that choose which entry the edit
    form's category box starts on.
- **Scenarios**: a worked example of the whole data flow. Two categories
  and two products go through the join, the metric tiles, the alert panel
  and the chart data. A second example shows an edit that moves a product
  whose category name is reused.

Nothing here talks to storage. Each read of a table is a parameter of the
operation, given as a sequence of records in id order. Each write is
returned as a value (`Forms.Write`).

Consequences of the code that the model makes explicit:

- Two categories with the same id cannot both be in the id → name map; the
  map keeps the name of the last one. Two categories with the same name
  become a single option of the product forms; that option holds the id of
  the last of them.
- A null category name is a valid dict key. If such a category exists, a
  product without a category opens the edit form with the null-named
  option preselected, because it compares equal to the `None` of
  `default_kat_name`.
- The edit form's category box has no "no category" entry while
  categories exist. So, when every category has a name, saving an
  uncategorised product without touching the box writes the id of the first
  option. That is the last category named like the first category
  (`UncategorisedOpensOnFirst`, `SaveFirstEntry`). With a null-named
  category, the box opens on the null-named option instead, and saving
  writes the id that option holds.
- A later category can reuse the name of a product's category. The option
  with that name then holds the later category's id, so no option may hold
  the product's id. The edit form then opens on entry 0, or on a null-named
  option. Saving it unchanged moves the product to another category
  (`ShadowedOpensOnFirst`, `ShadowedEntryMoves`, `ShadowedExample`).
- A description of only whitespace is stored as the empty string. Only an
  empty description is stored as null.

The model allows a null category name, although the schema of the
category table declares the name `NOT NULL`. Nothing in the code rejects a
null name, and the model keeps what the code would then do.

Two further points of the code:

- The chart labels rows without a category "Brak kategorii" (baza.py:195).
- The add-product form cannot write a product without a category. With no
  categories it shows "Najpierw dodaj kategorię!" instead of the form
  (baza.py:286-287, 302).

## Model

| member | source | states |
|---|---|---|
| Wrappers.Option.GetOr | baza.py:79-80 | `x or default` on a field that is missing or null: the value when there is one, and the default otherwise |
| PyText.IsSpaceRange | baza.py:258 | the `IsSpace` set of `str.isspace()`: below 0x80 it is exactly the codes 0x09-0x0D and 0x1C-0x20; nothing above U+3000 is in it, and no ASCII letter or digit is |
| PyText.LeadingSpaces | baza.py:258 | the length of the longest blank prefix: it is blank, and the next character is not whitespace |
| PyText.TrailingSpaces | baza.py:258 | the length of the longest blank suffix: it is blank, and the character before it is not whitespace |
| PyText.Strip | baza.py:258 | `strip()` returns the slice between a blank prefix and a blank suffix; it is empty exactly when the input is blank, and otherwise it starts and ends on a non-whitespace character |
| PyText.StripIdempotent | baza.py:278 | a name that is already stripped is unchanged by another strip |
| PyText.StripFixesTrimmed | baza.py:302 | a string with no whitespace at either end is its own strip |
| PyDict.Find | baza.py:238 | the first position holding the key, or the length when no position does |
| PyDict.FindAt | baza.py:238 | in a dict with distinct keys, the key at a position is found at that position |
| PyDict.Keys | baza.py:239 | `list(d.keys())`: the keys in insertion order, one per entry |
| PyDict.Get | baza.py:261 | `d.get(k)` is None exactly when the key is absent, and otherwise the value stored under the key |
| PyDict.Put | baza.py:238 | `d[k] = v` keeps the keys distinct; an existing key keeps its position and takes the new value; a new key is appended |
| PyDict.GetPut | baza.py:238 | after `d[k] = v`, reading `k` gives `v` and reading any other key gives what it gave before |
| Join.LastWithId | baza.py:75 | the position of the last category with the id, or -1: no later category carries that id |
| Join.KatMap | baza.py:75 | the keys of `kat_map` are exactly the category ids, and each id maps to the name of the last category carrying it |
| Join.KatMapKeys | baza.py:75 | every category id is a key of `kat_map` |
| Join.CategoryName | baza.py:87 | `kat_map.get(kategoria_id)` is None for a null reference or an unknown id, and otherwise the map's value |
| Join.JoinRow | baza.py:79-89 | a view row copies id and name; a missing quantity or price counts as 0, in which case the value is 0; otherwise the value is quantity times price; the category is the lookup of the product's reference |
| Join.FetchProduktyJoin | baza.py:70-91 | the loop yields one row per product, in product order, each the joined row of its product, built against the map of the whole category list |
| Join.RowCategory | baza.py:75-87 | read off the category list alone, a row's category is None for a null or dangling reference, and otherwise the name of the last category with the referenced id |
| Join.LastIsLast | baza.py:75 | a category that no later category shares an id with is the one the map takes its name from |
| Join.RowCategoryUnique | baza.py:75-87 | with distinct category ids, a product referencing a category is shown with exactly that category's name |
| Dashboard.TotalValue | baza.py:179 | `df["wartosc"].sum()` is zero when every line value is zero; when no line value is negative, it is non-negative and at least every single line value |
| Dashboard.TotalItems | baza.py:180 | `df["liczba"].sum()` is zero when every quantity is zero; when no quantity is negative, it is non-negative and at least every single quantity |
| Dashboard.LowStock | baza.py:181 | `df[df["liczba"] <= limit]` holds exactly the rows at or below the threshold, and no more rows than the frame |
| Dashboard.ComputeMetrics | baza.py:173-181 | an empty frame gives three zero tiles; otherwise the tiles are the value sum, the quantity sum, and the number of positions at or below the threshold, which is at most the number of rows |
| Dashboard.LowStockCount | baza.py:181 | the filtered frame has as many rows as there are positions at or below the threshold |
| Dashboard.LowIndicesSplit | baza.py:181 | the positions at or below the threshold are those of all rows but the last, plus the last position when its row is low |
| Dashboard.LowStockAppend | baza.py:204 | the filter distributes over concatenation, so the alert table keeps the frame's row order |
| Dashboard.TotalsAppend | baza.py:179-180 | the value sum and the quantity sum distribute over concatenation |
| Dashboard.LowStockPanel | baza.py:201-212 | the panel shows the error and the table exactly when the alert tile is non-zero; the table has one (name, quantity) line per filtered row, in order, under the threshold it was given |
| Dashboard.Labelled | baza.py:195 | `fillna("Brak kategorii")` always yields a category, leaves a present one unchanged, and gives a missing one the label |
| Dashboard.PieData | baza.py:191-199 | chart data exists exactly for a non-empty frame with a positive value sum; it is the frame with missing categories labelled |
| Dashboard.PieFollowsTotal | baza.py:191-199 | the chart is drawn exactly when the total value tile is positive |
| Dashboard.PieWhenSomeValue | baza.py:193 | with no negative line value, the total value is non-negative, and the chart is drawn exactly when some row has a positive value |
| Dashboard.JoinOfNonNegative | baza.py:79-88 | if no product has a negative quantity or price, no joined row has a negative quantity or value, and neither sum is negative |
| Forms.RequiredName | baza.py:258-259 | a name is refused exactly when it is blank; an accepted name is its strip, with no whitespace at either end |
| Forms.SubmitAddKategoria | baza.py:274-280 | the form warns "Podaj nazwę kategorii." exactly when the name is blank; otherwise it adds the stripped name, with a null description exactly when the description is empty, and the stripped description otherwise |
| Forms.KatOptions | baza.py:238 | `kat_options` has distinct keys, is empty exactly when there are no categories, and holds only category names. Its keys come in the order in which the names first occur, and each name maps to the id of the last category with that name |
| Forms.NamesMembers | baza.py:238 | a name is among the option names exactly when some category carries it |
| Forms.LastWithName | baza.py:238 | the position of the last category with the name, or -1: no later category carries that name |
| Forms.FirstWithName | baza.py:238 | the position of the first category with the name, or the length: no earlier category carries that name |
| Forms.NamesFirst | baza.py:238 | a name some category carries first occurs inside the list |
| Forms.KatOptionsOrderStep | baza.py:238 | one more category in the comprehension keeps the keys in first-occurrence order: a name seen before keeps its place, and a new name goes last |
| Forms.KatOptionsFirst | baza.py:238 | the first option is named after the first category |
| Forms.KatOptionsStep | baza.py:238 | one more category in the comprehension keeps the option invariant |
| Forms.KatNames | baza.py:239 | the box entries are the option names, or the single "(brak kategorii)" placeholder when there are no options; there is always at least one |
| Forms.FirstWithId | baza.py:243-246 | the first option holding the id, or the number of options; no earlier option holds it |
| Forms.DefaultName | baza.py:241-246 | `default_kat_name` after the search is None when the product has no category or no option holds its id; otherwise it is the name of the first option holding it |
| Forms.FindDefaultName | baza.py:241-246 | the search loop with its `break` leaves the name of the first option whose id is the product's category, and None when the product has no category or no option matches |
| Forms.IndexOrZero | baza.py:248 | `names.index(x) if x in names else 0`: the first position of `x` when present, otherwise 0 |
| Forms.DistinctKeyIndex | baza.py:248 | among distinct keys, a key's first position in the box is its own entry's |
| Forms.DefaultIndex | baza.py:248 | `kat_names.index(default_kat_name) if default_kat_name in kat_names else 0` preselects a valid entry. When an option carries the product's category id, that entry is the first such option. Otherwise it is 0, unless a null-named option exists, which is then preselected |
| Forms.PreselectsUnique | baza.py:248 | with distinct keys, at most one entry meets that description, so it fixes the preselected entry |
| Forms.EditDefaultIndex | baza.py:237-248 | the edit form's lines, run on a category snapshot (options, entries, search loop, `index`), preselect an entry meeting that description |
| Forms.EditFormValues | baza.py:251-253 | the edit form starts from the product's name, quantity and price, with "", 0 and 0.0 for missing ones |
| Forms.SubmitEdit | baza.py:257-264 | the form warns "Podaj nazwę produktu." exactly when the name is blank; otherwise it updates the product's id with the stripped name, the quantity and the price, and with no category when there are no categories and the chosen option's id otherwise |
| Forms.SubmitAddProdukt | baza.py:285-304 | without categories the page warns "Najpierw dodaj kategorię!"; otherwise the form warns exactly when the name is blank, and adds the stripped name, the quantity, the price and the chosen option's id |
| Forms.EditKeepsCategory | baza.py:241-262 | saving the edit form with the preselected entry rewrites the product's own category whenever an option carries its id |
| Forms.NoNullOption | baza.py:238-239 | when every category has a name, no box entry equals None |
| Forms.UncategorisedOpensOnFirst | baza.py:241-248 | a product without a category opens on entry 0 when categories exist and all have names |
| Forms.SaveFirstEntry | baza.py:254-262 | saving on entry 0 of a non-empty box writes the id of the last category named like the first category |
| Forms.ShadowedCategoryLost | baza.py:238-246 | when every category with a given id has its name reused by a later category, no option holds that id |
| Forms.ShadowedOpensOnFirst | baza.py:241-248 | a product whose category is shadowed that way opens on entry 0 when all categories have names |
| Forms.ShadowedEntryMoves | baza.py:238-262 | entry 0 then holds the id of a category other than the product's, so saving unchanged moves the product |
| Scenarios.ExampleJoin | baza.py:70-91 | two categories and two products (3 at 2.0 under category 1; 0 at 5.0 with no category) join into the rows ("A", 6.0) and (None, 0.0), in product order |
| Scenarios.ExampleTotals | baza.py:179-180 | those rows sum to a value of 6.0 and to 3 items |
| Scenarios.ExampleLowStock | baza.py:181 | at threshold 5, both rows are low on stock |
| Scenarios.ExampleDashboard | baza.py:173-181 | at threshold 5, the tiles read 6.0, 3 and 2 |
| Scenarios.ExamplePanel | baza.py:201-212 | at threshold 5, the panel lists ("x", 3) and ("y", 0) |
| Scenarios.ExamplePie | baza.py:191-197 | the chart is drawn, with the second row under "Brak kategorii" |
| Scenarios.ShadowedExample | baza.py:237-262 | with categories 1 "A", 2 "B", 3 "A", a product in category 1 opens on entry 0, which is "A", and saving it unchanged writes category 3 |

## Left out

- Storage access (`get_supabase`, `fetch_kategorie`, `fetch_produkty_raw`, `add_kategoria`, `add_produkt`, `update_produkt`, `delete_produkt`, `delete_kategoria`, lines 45-125): a table read is a parameter, a write is a returned value, and `resp.data or []` is reduced to the sequence read.
- The read cache and `refresh` (lines 58-70, 128-130): these only decide when the reads happen again.
- Deleting a product or a category (lines 306-338): these are storage calls. The error a rejected category delete raises comes from the storage, which is not part of this model.
- The sidebar image helpers and the holiday-mode flag (lines 13-39, 151-161): presentation only.
- Formatting of the metric tiles, the CSV export and the data preview (lines 183-185, 214-224): presentation and encoding. The pie chart's aggregation by category is drawn by the charting library and is not part of this model.
- The product-picker labels `f'{id} — {nazwa}'` (line 233): the chosen product is a parameter of the edit operations. Two products with the same label, which the dict would merge, are not modelled.
- The threshold widget (line 139): the threshold is a parameter.
- Floating point: prices and values are exact reals, with no IEEE rounding.
- `int(liczba)` of a fractional quantity: quantities are integers in the model, as in the table.
- Forms.SubmitEdit: requires a product id, because `int(p["id"])` fails on a null id. It also requires a non-negative quantity and price and an entry of the box, which the widgets guarantee.
- Forms.EditFormValues: a stored negative quantity or price makes the `number_input` widgets (`min_value=0` and `0.0`, lines 252-253) raise, so such a product never reaches the form; the model starts the form from the stored value instead.
- Forms.SubmitAddProdukt: requires a non-negative quantity and price and, when categories exist, a box entry, which the widgets guarantee.
