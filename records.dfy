/** The two tables as the dashboard reads them, and the derived view row.
    Every field the code reads with `.get(...)` is optional. */
module Records {
  import opened Wrappers

  /** A row of `kategorie` (id, nazwa, opis). The id is the table's primary key. */
  datatype Category = Category(id: int, nazwa: Option<string>, opis: Option<string>)

  /** A row of `produkty` (id, nazwa, liczba, cena, kategoria_id). */
  datatype Product = Product(
    id: Option<int>,
    nazwa: Option<string>,
    liczba: Option<int>,
    cena: Option<real>,
    kategoriaId: Option<int>)

  /** One row of the joined view: the product, its category name and its line value. */
  datatype Row = Row(
    id: Option<int>,
    nazwa: Option<string>,
    liczba: int,
    cena: real,
    kategoria: Option<string>,
    wartosc: real)
}
