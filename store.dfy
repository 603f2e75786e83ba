/** The database session of the sales-note, client and vehicle handlers. Each handler
    stages its changes on the five tables, then commits: the commit keeps the changes when
    the database accepts them (all constraints of `Consistent` hold and no other database
    error occurred) and otherwise rolls every table back to where it was. */
module Store {
  import opened Models
  import opened Forms

  /** What a sales-note handler ends with. */
  datatype Outcome =
    | NotFound                             // abort(404): no note with that folio
    | Rejected(errors: set<NotaField>)     // the form is shown again; nothing was written
    | Committed(folio: int, pagoId: int)   // the changes were committed
    | RolledBack                           // the database raised; the session was rolled back

  /** The note a validated form creates, pointing at its payment. */
  function NewNota(folio: int, userId: int, pagoId: int, v: NotaVentaData): (n: NotaVenta)
    ensures n.id == folio && n.userId == userId && n.pagoId == pagoId
    ensures n.clienteRut == v.clienteRut && n.vehiculoPatente == v.vehiculoPatente
    ensures n.fechaVenta == v.fechaVenta && n.montoFinal == v.montoFinal
    ensures n.estado == v.estado && n.observaciones == v.observaciones
  {
    NotaVenta(folio, v.clienteRut, v.vehiculoPatente, userId, pagoId,
              v.fechaVenta, v.montoFinal, v.estado, v.observaciones)
  }

  /** The payment a validated form creates: its total is the note's final amount. */
  function NewPago(pagoId: int, v: NotaVentaData): (p: Pago)
    ensures p.id == pagoId && p.metodoPago == v.metodoPago && p.total == v.montoFinal
    ensures p.detalles.None?
  {
    Pago(pagoId, v.metodoPago, None, v.montoFinal)
  }

  /** A note after the edit form overwrote its six editable fields. */
  function EditedNota(n: NotaVenta, v: NotaVentaData): (e: NotaVenta)
    ensures e.id == n.id && e.userId == n.userId && e.pagoId == n.pagoId
    ensures e.clienteRut == v.clienteRut && e.vehiculoPatente == v.vehiculoPatente
    ensures e.fechaVenta == v.fechaVenta && e.montoFinal == v.montoFinal
    ensures e.estado == v.estado && e.observaciones == v.observaciones
  {
    n.(clienteRut := v.clienteRut, vehiculoPatente := v.vehiculoPatente, fechaVenta := v.fechaVenta,
       montoFinal := v.montoFinal, estado := v.estado, observaciones := v.observaciones)
  }

  /** A payment kept in step with an edited note: same id and details, new method and total. */
  function SyncedPago(p: Pago, v: NotaVentaData): (q: Pago)
    ensures q.id == p.id && q.detalles == p.detalles
    ensures q.metodoPago == v.metodoPago && q.total == v.montoFinal
  {
    p.(metodoPago := v.metodoPago, total := v.montoFinal)
  }

  // ---- The committed effect of each handler, as a function of the tables ----

  function WithSale(t: Tables, folio: int, userId: int, pagoId: int, v: NotaVentaData): Tables
  {
    t.(pagos := t.pagos[pagoId := NewPago(pagoId, v)],
       notas := t.notas[folio := NewNota(folio, userId, pagoId, v)])
  }

  function WithEdit(t: Tables, folio: int, v: NotaVentaData): Tables
    requires folio in t.notas
  {
    var n := t.notas[folio];
    t.(notas := t.notas[folio := EditedNota(n, v)],
       pagos := if n.pagoId in t.pagos then t.pagos[n.pagoId := SyncedPago(t.pagos[n.pagoId], v)] else t.pagos)
  }

  function WithoutSale(t: Tables, folio: int): Tables
    requires folio in t.notas
  {
    var n := t.notas[folio];
    t.(notas := t.notas - {folio}, pagos := if n.pagoId in t.pagos then t.pagos - {n.pagoId} else t.pagos)
  }

  /** A sale built from an accepted form, with fresh payment and note ids and a stored
      seller, never breaks a constraint: the commit of `crear_nota_venta` can only fail for
      reasons outside the data. */
  lemma SaleKeepsConsistent(t: Tables, folio: int, userId: int, pagoId: int, v: NotaVentaData)
    requires Consistent(t)
    requires v.clienteRut in t.clientes && v.vehiculoPatente in t.vehiculos && userId in t.users
    requires pagoId !in t.pagos && folio !in t.notas
    ensures Consistent(WithSale(t, folio, userId, pagoId, v))
  {
    var t' := WithSale(t, folio, userId, pagoId, v);
    assert KeyedByPrimaryKey(t') && ColumnsFit(t') && ForeignKeys(t');
    forall a, b | a in t'.notas && b in t'.notas && t'.notas[a].pagoId == t'.notas[b].pagoId
      ensures a == b
    {
      if a != folio && b != folio {
        assert t'.notas[a] == t.notas[a] && t'.notas[b] == t.notas[b];
      }
    }
  }

  /** Editing a note with an accepted form keeps every constraint. */
  lemma EditKeepsConsistent(t: Tables, folio: int, v: NotaVentaData)
    requires Consistent(t) && folio in t.notas
    requires v.clienteRut in t.clientes && v.vehiculoPatente in t.vehiculos
    ensures Consistent(WithEdit(t, folio, v))
  {
    var t' := WithEdit(t, folio, v);
    assert KeyedByPrimaryKey(t') && ColumnsFit(t') && ForeignKeys(t');
    forall a, b | a in t'.notas && b in t'.notas && t'.notas[a].pagoId == t'.notas[b].pagoId
      ensures a == b
    {
      assert t'.notas[a].pagoId == t.notas[a].pagoId && t'.notas[b].pagoId == t.notas[b].pagoId;
    }
  }

  /** Deleting a note together with its payment keeps every constraint: no other note pointed
      at that payment. */
  lemma DeleteKeepsConsistent(t: Tables, folio: int)
    requires Consistent(t) && folio in t.notas
    ensures Consistent(WithoutSale(t, folio))
  {
    var t' := WithoutSale(t, folio);
    var pid := t.notas[folio].pagoId;
    forall f | f in t'.notas ensures t'.notas[f].pagoId in t'.pagos {
      assert f != folio && t.notas[f].pagoId != pid;
    }
  }

  /** Deleting a sale removes exactly that note and its payment and adds nothing. */
  lemma DeleteRemovesOnlyThatSale(t: Tables, folio: int)
    requires Consistent(t) && folio in t.notas
    ensures var t' := WithoutSale(t, folio);
      && t'.notas == t.notas - {folio}
      && t'.pagos == t.pagos - {t.notas[folio].pagoId}
      && t'.clientes == t.clientes && t'.vehiculos == t.vehiculos && t'.users == t.users
  {
  }

  /** Inserting a client under a new rut is accepted by the database exactly when its
      columns fit their widths. */
  lemma ClienteInsertConsistent(t: Tables, c: Cliente)
    requires Consistent(t) && c.rut !in t.clientes
    ensures Consistent(t.(clientes := t.clientes[c.rut := c])) <==> ClienteFits(c)
  {
    var t' := t.(clientes := t.clientes[c.rut := c]);
    if ClienteFits(c) {
      assert ForeignKeys(t');
    } else {
      assert !ColumnsFit(t') by { assert c.rut in t'.clientes && t'.clientes[c.rut] == c; }
    }
  }

  /** The chassis and engine numbers no stored vehicle uses yet. */
  predicate NumbersUnused(vehiculos: map<string, Vehiculo>, v: Vehiculo)
  {
    && (forall p :: p in vehiculos ==> vehiculos[p].chasisN != v.chasisN)
    && (forall p :: p in vehiculos ==> vehiculos[p].motorN != v.motorN)
  }

  /** A vehicle that fits its columns and reuses no chassis or engine number is accepted. */
  lemma VehiculoInsertAccepted(t: Tables, v: Vehiculo)
    requires Consistent(t) && v.patente !in t.vehiculos
    requires VehiculoFits(v) && NumbersUnused(t.vehiculos, v)
    ensures Consistent(t.(vehiculos := t.vehiculos[v.patente := v]))
  {
    var t' := t.(vehiculos := t.vehiculos[v.patente := v]);
    assert KeyedByPrimaryKey(t') && ColumnsFit(t') && ForeignKeys(t');
    forall a, b | a in t'.vehiculos && b in t'.vehiculos && t'.vehiculos[a].chasisN == t'.vehiculos[b].chasisN
      ensures a == b
    {
      if a != v.patente && b != v.patente {
        assert t'.vehiculos[a] == t.vehiculos[a] && t'.vehiculos[b] == t.vehiculos[b];
      }
    }
    forall a, b | a in t'.vehiculos && b in t'.vehiculos && t'.vehiculos[a].motorN == t'.vehiculos[b].motorN
      ensures a == b
    {
      if a != v.patente && b != v.patente {
        assert t'.vehiculos[a] == t.vehiculos[a] && t'.vehiculos[b] == t.vehiculos[b];
      }
    }
  }

  /** A vehicle the database accepts fits its columns and reuses no chassis or engine number. */
  lemma VehiculoInsertAcceptedOnlyIf(t: Tables, v: Vehiculo)
    requires v.patente !in t.vehiculos
    requires Consistent(t.(vehiculos := t.vehiculos[v.patente := v]))
    ensures VehiculoFits(v) && NumbersUnused(t.vehiculos, v)
  {
    var t' := t.(vehiculos := t.vehiculos[v.patente := v]);
    assert v.patente in t'.vehiculos && t'.vehiculos[v.patente] == v;
    forall p | p in t.vehiculos
      ensures t.vehiculos[p].chasisN != v.chasisN && t.vehiculos[p].motorN != v.motorN
    {
      assert p in t'.vehiculos && t'.vehiculos[p] == t.vehiculos[p] && p != v.patente;
    }
  }

  /** Inserting a vehicle under a new patente is accepted exactly when its columns fit and
      neither its chassis number nor its engine number is taken. */
  lemma VehiculoInsertConsistent(t: Tables, v: Vehiculo)
    requires Consistent(t) && v.patente !in t.vehiculos
    ensures Consistent(t.(vehiculos := t.vehiculos[v.patente := v])) <==>
              VehiculoFits(v) && NumbersUnused(t.vehiculos, v)
  {
    if VehiculoFits(v) && NumbersUnused(t.vehiculos, v) {
      VehiculoInsertAccepted(t, v);
    }
    if Consistent(t.(vehiculos := t.vehiculos[v.patente := v])) {
      VehiculoInsertAcceptedOnlyIf(t, v);
    }
  }

  /** The tables of the dealership, as the database session sees them. */
  class Dealership {
    var users: map<int, User>
    var clientes: map<string, Cliente>
    var vehiculos: map<string, Vehiculo>
    var pagos: map<int, Pago>
    var notas: map<int, NotaVenta>

    function Snapshot(): Tables
      reads this
    {
      Tables(users, clientes, vehiculos, pagos, notas)
    }

    /** What the database would accept on commit. */
    predicate Valid()
      reads this
    {
      Consistent(Snapshot())
    }

    constructor ()
      ensures Valid()
      ensures users == map[] && clientes == map[] && vehiculos == map[] && pagos == map[] && notas == map[]
    {
      users, clientes, vehiculos, pagos, notas := map[], map[], map[], map[], map[];
    }

    /** `db.session.rollback()`: every table back to the given committed state. */
    method Rollback(saved: Tables)
      modifies this
      ensures Snapshot() == saved
    {
      users, clientes, vehiculos, pagos, notas := saved.users, saved.clientes, saved.vehiculos, saved.pagos, saved.notas;
    }

    /** `crear_nota_venta`: validate the form; write the payment and flush it for its id;
        write the note pointing at it; commit, or roll back if the database raises
        (`fault`). `userId` is the logged-in seller. */
    method CrearNotaVenta(form: NotaVentaForm, userId: int, fault: bool) returns (r: Outcome)
      requires Valid()
      requires userId in users
      modifies this
      ensures Valid()
      ensures users == old(users) && clientes == old(clientes) && vehiculos == old(vehiculos)
      ensures match ValidateNotaVenta(form, old(clientes).Keys, old(vehiculos).Keys)
        case Err(errs) =>
          r == Rejected(errs) && pagos == old(pagos) && notas == old(notas)
        case Ok(v) =>
          if fault then r == RolledBack && pagos == old(pagos) && notas == old(notas)
          else
            && r.Committed?
            && r.pagoId > 0 && r.pagoId !in old(pagos) && r.folio > 0 && r.folio !in old(notas)
            && pagos == old(pagos)[r.pagoId := NewPago(r.pagoId, v)]
            && notas == old(notas)[r.folio := NewNota(r.folio, userId, r.pagoId, v)]
    {
      var checked := ValidateNotaVenta(form, clientes.Keys, vehiculos.Keys);
      if checked.Err? {
        return Rejected(checked.error);
      }
      var v := checked.value;
      var saved := Snapshot();
      // the payment first, flushed to obtain its id
      FreshIdExists(pagos.Keys);
      var pagoId :| pagoId > 0 && pagoId !in pagos;
      pagos := pagos[pagoId := NewPago(pagoId, v)];
      // then the note that points at it
      FreshIdExists(notas.Keys);
      var folio :| folio > 0 && folio !in notas;
      notas := notas[folio := NewNota(folio, userId, pagoId, v)];
      SaleKeepsConsistent(saved, folio, userId, pagoId, v);
      assert Snapshot() == WithSale(saved, folio, userId, pagoId, v);
      if fault || !Valid() {
        Rollback(saved);
        r := RolledBack;
      } else {
        r := Committed(folio, pagoId);
      }
    }

    /** `editar_nota_venta`: 404 for an unknown folio; otherwise validate the form, overwrite
        the note's six editable fields, bring its payment's method and total in line, and
        commit or roll back. */
    method EditarNotaVenta(folio: int, form: NotaVentaForm, fault: bool) returns (r: Outcome)
      requires Valid()
      modifies this
      ensures Valid()
      ensures users == old(users) && clientes == old(clientes) && vehiculos == old(vehiculos)
      ensures folio !in old(notas) ==> r == NotFound && pagos == old(pagos) && notas == old(notas)
      ensures folio in old(notas) ==>
        var n := old(notas)[folio];
        match ValidateNotaVenta(form, old(clientes).Keys, old(vehiculos).Keys)
        case Err(errs) =>
          r == Rejected(errs) && pagos == old(pagos) && notas == old(notas)
        case Ok(v) =>
          if fault then r == RolledBack && pagos == old(pagos) && notas == old(notas)
          else
            && r == Committed(folio, n.pagoId)
            && notas == old(notas)[folio := EditedNota(n, v)]
            && n.pagoId in old(pagos)
            && pagos == old(pagos)[n.pagoId := SyncedPago(old(pagos)[n.pagoId], v)]
    {
      if folio !in notas {
        return NotFound;
      }
      var nota := notas[folio];
      var checked := ValidateNotaVenta(form, clientes.Keys, vehiculos.Keys);
      if checked.Err? {
        return Rejected(checked.error);
      }
      var v := checked.value;
      var saved := Snapshot();
      notas := notas[folio := EditedNota(nota, v)];
      if nota.pagoId in pagos {
        pagos := pagos[nota.pagoId := SyncedPago(pagos[nota.pagoId], v)];
      }
      EditKeepsConsistent(saved, folio, v);
      assert Snapshot() == WithEdit(saved, folio, v);
      if fault || !Valid() {
        Rollback(saved);
        r := RolledBack;
      } else {
        r := Committed(folio, nota.pagoId);
      }
    }

    /** `eliminar_nota_venta`: 404 for an unknown folio; otherwise delete the note, then its
        payment, and commit or roll back. */
    method EliminarNotaVenta(folio: int, fault: bool) returns (r: Outcome)
      requires Valid()
      modifies this
      ensures Valid()
      ensures users == old(users) && clientes == old(clientes) && vehiculos == old(vehiculos)
      ensures folio !in old(notas) ==> r == NotFound && pagos == old(pagos) && notas == old(notas)
      ensures folio in old(notas) ==>
        var pid := old(notas)[folio].pagoId;
        if fault then r == RolledBack && pagos == old(pagos) && notas == old(notas)
        else
          && r == Committed(folio, pid)
          && notas == old(notas) - {folio}
          && pagos == old(pagos) - {pid}
    {
      if folio !in notas {
        return NotFound;
      }
      var nota := notas[folio];
      var saved := Snapshot();
      notas := notas - {folio};
      if nota.pagoId in pagos {
        pagos := pagos - {nota.pagoId};
      }
      DeleteKeepsConsistent(saved, folio);
      assert Snapshot() == WithoutSale(saved, folio);
      if fault || !Valid() {
        Rollback(saved);
        r := RolledBack;
      } else {
        r := Committed(folio, nota.pagoId);
      }
    }

    /** `crear_cliente`: insert the client and commit. A taken rut, a column too wide or a
        database error leaves every table as it was. */
    method CrearCliente(c: Cliente, fault: bool) returns (added: bool)
      requires Valid()
      modifies this
      ensures Valid()
      ensures added <==> !fault && c.rut !in old(clientes) && ClienteFits(c)
      ensures clientes == if added then old(clientes)[c.rut := c] else old(clientes)
      ensures users == old(users) && vehiculos == old(vehiculos) && pagos == old(pagos) && notas == old(notas)
    {
      var saved := Snapshot();
      var duplicate := c.rut in clientes;
      clientes := clientes[c.rut := c];
      if !duplicate {
        ClienteInsertConsistent(saved, c);
      }
      if fault || duplicate || !Valid() {
        Rollback(saved);
        added := false;
      } else {
        added := true;
      }
    }

    /** `crear_vehiculo`: insert the vehicle and commit. A taken patente, chassis number or
        engine number, a column too wide or a database error leaves every table as it was. */
    method CrearVehiculo(v: Vehiculo, fault: bool) returns (added: bool)
      requires Valid()
      modifies this
      ensures Valid()
      ensures added <==> !fault && v.patente !in old(vehiculos) && VehiculoFits(v) && NumbersUnused(old(vehiculos), v)
      ensures vehiculos == if added then old(vehiculos)[v.patente := v] else old(vehiculos)
      ensures users == old(users) && clientes == old(clientes) && pagos == old(pagos) && notas == old(notas)
    {
      var saved := Snapshot();
      var duplicate := v.patente in vehiculos;
      vehiculos := vehiculos[v.patente := v];
      if !duplicate {
        VehiculoInsertConsistent(saved, v);
      }
      if fault || duplicate || !Valid() {
        Rollback(saved);
        added := false;
      } else {
        added := true;
      }
    }
  }
}
