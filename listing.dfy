/** The sales-note listing: the `per_page` clamp, the search filter over the notes joined
    with their client and vehicle, and the newest-first order by sale date. Pagination of
    the result is left to the web framework. */
module Listing {
  import opened Text
  import opened Models

  /** The page sizes the listing offers; anything else falls back to 20. */
  function ClampPerPage(perPage: int): (r: int)
    ensures r == 20 || r == 30 || r == 50
    ensures perPage == 20 || perPage == 30 || perPage == 50 ==> r == perPage
    ensures r != perPage ==> r == 20
  {
    if perPage == 20 || perPage == 30 || perPage == 50 then perPage else 20
  }

  /** Clamping an already clamped value changes nothing. */
  lemma ClampPerPageIdempotent(perPage: int)
    ensures ClampPerPage(ClampPerPage(perPage)) == ClampPerPage(perPage)
  {
  }

  /** One row of `NotaVenta.query.join(Cliente).join(Vehiculo)`. */
  datatype Row = Row(nota: NotaVenta, cliente: Cliente, vehiculo: Vehiculo)

  /** The rows of the inner join. */
  ghost function JoinRows(t: Tables): set<Row>
  {
    set f | f in t.notas && t.notas[f].clienteRut in t.clientes && t.notas[f].vehiculoPatente in t.vehiculos
      :: Row(t.notas[f], t.clientes[t.notas[f].clienteRut], t.vehiculos[t.notas[f].vehiculoPatente])
  }

  /** With the foreign keys in place the inner join drops no note. */
  lemma JoinKeepsEveryNota(t: Tables, folio: int)
    requires Consistent(t) && folio in t.notas
    ensures exists r :: r in JoinRows(t) && r.nota == t.notas[folio]
  {
    var n := t.notas[folio];
    var r := Row(n, t.clientes[n.clienteRut], t.vehiculos[n.vehiculoPatente]);
    assert r in JoinRows(t);
  }

  // The columns each search field looks at (`LIKE '%q%'`).

  predicate FolioMatches(q: string, r: Row) { Contains(DecimalString(r.nota.id), q) }

  predicate ClienteMatches(q: string, r: Row)
  {
    Contains(r.cliente.nombre, q) || Contains(r.cliente.apellido, q) || Contains(r.cliente.rut, q)
  }

  predicate VehiculoMatches(q: string, r: Row)
  {
    Contains(r.vehiculo.marca, q) || Contains(r.vehiculo.modelo, q) || Contains(r.vehiculo.patente, q)
  }

  predicate EstadoMatches(q: string, r: Row) { Contains(EstadoLabel(r.nota.estado), q) }

  /** The filter the listing applies for a search field and query; an empty query filters
      nothing, and any field other than the four named ones searches all their columns. */
  predicate Matches(field: string, q: string, r: Row)
  {
    if q == "" then true
    else if field == "folio" then FolioMatches(q, r)
    else if field == "cliente" then ClienteMatches(q, r)
    else if field == "vehiculo" then VehiculoMatches(q, r)
    else if field == "estado" then EstadoMatches(q, r)
    else FolioMatches(q, r) || ClienteMatches(q, r) || VehiculoMatches(q, r) || EstadoMatches(q, r)
  }

  /** Whatever a named field finds, the all-fields search finds too. */
  lemma DefaultFieldCoversEach(field: string, q: string, r: Row)
    ensures Matches(field, q, r) ==> Matches("todos", q, r)
  {
  }

  function Filter(rows: seq<Row>, field: string, q: string): (r: seq<Row>)
    ensures forall x :: x in r <==> x in rows && Matches(field, q, x)
    ensures multiset(r) <= multiset(rows)
    ensures forall x :: Matches(field, q, x) ==> multiset(r)[x] == multiset(rows)[x]
  {
    if rows == [] then []
    else
      assert rows == [rows[0]] + rows[1..];
      (if Matches(field, q, rows[0]) then [rows[0]] else []) + Filter(rows[1..], field, q)
  }

  /** `order_by(NotaVenta.fecha_venta.desc())`. */
  predicate NewestFirst(s: seq<Row>)
  {
    forall i, j :: 0 <= i < j < |s| ==> OnOrBefore(s[j].nota.fechaVenta, s[i].nota.fechaVenta)
  }

  function InsertByDate(x: Row, s: seq<Row>): (r: seq<Row>)
    requires NewestFirst(s)
    ensures NewestFirst(r)
    ensures multiset(r) == multiset(s) + multiset{x}
    ensures forall y :: y in r <==> y in s || y == x
  {
    if s == [] then [x]
    else if OnOrBefore(s[0].nota.fechaVenta, x.nota.fechaVenta) then
      assert forall j :: 0 <= j < |s| ==> OnOrBefore(s[j].nota.fechaVenta, x.nota.fechaVenta) by {
        forall j | 0 < j < |s| ensures OnOrBefore(s[j].nota.fechaVenta, x.nota.fechaVenta) {
          assert OnOrBefore(s[j].nota.fechaVenta, s[0].nota.fechaVenta);
        }
      }
      [x] + s
    else
      assert s == [s[0]] + s[1..];
      var rest := InsertByDate(x, s[1..]);
      assert forall y :: y in rest ==> OnOrBefore(y.nota.fechaVenta, s[0].nota.fechaVenta);
      [s[0]] + rest
  }

  function SortNewestFirst(s: seq<Row>): (r: seq<Row>)
    ensures NewestFirst(r)
    ensures multiset(r) == multiset(s)
  {
    if s == [] then []
    else
      assert s == [s[0]] + s[1..];
      InsertByDate(s[0], SortNewestFirst(s[1..]))
  }

  /** The listing's rows for a search field and query, newest sale first: a reordering of
      exactly the rows the filter keeps. */
  function Search(rows: seq<Row>, field: string, q: string): (r: seq<Row>)
    ensures NewestFirst(r)
    ensures multiset(r) == multiset(Filter(rows, field, q))
    ensures forall x :: x in r <==> x in rows && Matches(field, q, x)
  {
    var kept := Filter(rows, field, q);
    var r := SortNewestFirst(kept);
    assert forall x :: x in r <==> x in multiset(r);
    assert forall x :: x in kept <==> x in multiset(kept);
    r
  }

  lemma {:induction false} FilterKeepsAll(rows: seq<Row>, field: string, q: string)
    requires forall x :: x in rows ==> Matches(field, q, x)
    ensures Filter(rows, field, q) == rows
  {
    if rows != [] {
      FilterKeepsAll(rows[1..], field, q);
      assert rows == [rows[0]] + rows[1..];
    }
  }

  /** An empty query lists every row. */
  lemma EmptyQueryListsAll(rows: seq<Row>, field: string)
    ensures multiset(Search(rows, field, "")) == multiset(rows)
  {
    FilterKeepsAll(rows, field, "");
  }

  lemma {:induction false} FilterWithinDefault(rows: seq<Row>, field: string, q: string)
    ensures multiset(Filter(rows, field, q)) <= multiset(Filter(rows, "todos", q))
  {
    if rows != [] {
      FilterWithinDefault(rows[1..], field, q);
      DefaultFieldCoversEach(field, q, rows[0]);
    }
  }

  /** The all-fields search lists at least what any single field lists, as many times. */
  lemma DefaultSearchContainsFieldSearch(rows: seq<Row>, field: string, q: string)
    ensures multiset(Search(rows, field, q)) <= multiset(Search(rows, "todos", q))
  {
    FilterWithinDefault(rows, field, q);
  }

  /** Listing the joined rows with an empty query shows every stored note. */
  lemma EmptySearchShowsEveryNota(t: Tables, rows: seq<Row>, field: string, folio: int)
    requires Consistent(t) && folio in t.notas
    requires forall r :: r in rows <==> r in JoinRows(t)
    ensures exists r :: r in Search(rows, field, "") && r.nota == t.notas[folio]
  {
    JoinKeepsEveryNota(t, folio);
    var r :| r in JoinRows(t) && r.nota == t.notas[folio];
    assert r in rows && Matches(field, "", r);
  }
}
