/** The dealership's tables (users, clientes, vehiculos, pagos, notas_de_venta) as
    values, and the constraints the database enforces on them: primary keys, column
    widths, NOT NULL columns, enumerations, unique columns and foreign keys. */
module Models {

  datatype Option<T> = None | Some(value: T)

  datatype Result<T, E> = Ok(value: T) | Err(error: E)

  /** The `metodo_pago_enum` database enumeration. */
  datatype MetodoPago = Contado | CreditoAutomotriz | TarjetaCredito | TarjetaDebito

  function ParseMetodoPago(s: string): Option<MetodoPago>
  {
    if s == "contado" then Some(Contado)
    else if s == "credito automotriz" then Some(CreditoAutomotriz)
    else if s == "T. crédito" then Some(TarjetaCredito)
    else if s == "T. débito" then Some(TarjetaDebito)
    else None
  }

  /** The stored spelling of a payment method; parsing it gives the method back. */
  function MetodoPagoLabel(m: MetodoPago): (s: string)
    ensures ParseMetodoPago(s) == Some(m)
  {
    match m
    case Contado => "contado"
    case CreditoAutomotriz => "credito automotriz"
    case TarjetaCredito => "T. crédito"
    case TarjetaDebito => "T. débito"
  }

  /** Only the four enumeration labels parse, and each parses to the method it spells. */
  lemma ParseMetodoPagoExact(s: string)
    ensures ParseMetodoPago(s).Some? <==>
              s in {"contado", "credito automotriz", "T. crédito", "T. débito"}
    ensures ParseMetodoPago(s).Some? ==> MetodoPagoLabel(ParseMetodoPago(s).value) == s
  {
  }

  /** The `estado_venta_enum` database enumeration. */
  datatype Estado = Completada | Pendiente | Anulada

  function ParseEstado(s: string): Option<Estado>
  {
    if s == "completada" then Some(Completada)
    else if s == "pendiente" then Some(Pendiente)
    else if s == "anulada" then Some(Anulada)
    else None
  }

  function EstadoLabel(e: Estado): (s: string)
    ensures ParseEstado(s) == Some(e)
  {
    match e
    case Completada => "completada"
    case Pendiente => "pendiente"
    case Anulada => "anulada"
  }

  lemma ParseEstadoExact(s: string)
    ensures ParseEstado(s).Some? <==> s in {"completada", "pendiente", "anulada"}
    ensures ParseEstado(s).Some? ==> EstadoLabel(ParseEstado(s).value) == s
  {
  }

  /** A calendar date (`db.Date`), ordered year, then month, then day. */
  datatype Date = Date(year: int, month: int, day: int)

  predicate OnOrBefore(a: Date, b: Date)
  {
    a.year < b.year
    || (a.year == b.year && (a.month < b.month || (a.month == b.month && a.day <= b.day)))
  }

  lemma OnOrBeforeTotal(a: Date, b: Date)
    ensures OnOrBefore(a, b) || OnOrBefore(b, a)
  {
  }

  // Records. Nullable columns are `Option`s; timestamps are left out.

  datatype User = User(id: int, name: string, email: string, passwordHash: string)

  datatype Cliente = Cliente(
    rut: string,
    nombre: string,
    apellido: string,
    telefono: Option<string>,
    direccion: Option<string>,
    ciudad: Option<string>)

  datatype Vehiculo = Vehiculo(
    patente: string,
    marca: string,
    modelo: string,
    ano: int,
    color: Option<string>,
    chasisN: string,
    motorN: string,
    valor: int,
    descripcion: Option<string>)

  datatype Pago = Pago(id: int, metodoPago: MetodoPago, detalles: Option<string>, total: int)

  datatype NotaVenta = NotaVenta(
    id: int,   // the folio
    clienteRut: string,
    vehiculoPatente: string,
    userId: int,
    pagoId: int,
    fechaVenta: Date,
    montoFinal: int,
    estado: Estado,
    observaciones: Option<string>)

  // Column widths (`db.String(n)`).

  predicate FitsOpt(s: Option<string>, width: nat) { s.None? || |s.value| <= width }

  predicate UserFits(u: User)
  {
    |u.name| <= 100 && |u.email| <= 120 && |u.passwordHash| <= 256
  }

  predicate ClienteFits(c: Cliente)
  {
    && |c.rut| <= 10 && |c.nombre| <= 100 && |c.apellido| <= 100
    && FitsOpt(c.telefono, 15) && FitsOpt(c.direccion, 200) && FitsOpt(c.ciudad, 100)
  }

  predicate VehiculoFits(v: Vehiculo)
  {
    && |v.patente| <= 8 && |v.marca| <= 50 && |v.modelo| <= 50 && FitsOpt(v.color, 30)
    && |v.chasisN| <= 100 && |v.motorN| <= 100
  }

  /** The whole database: each table keyed by its primary key. */
  datatype Tables = Tables(
    users: map<int, User>,
    clientes: map<string, Cliente>,
    vehiculos: map<string, Vehiculo>,
    pagos: map<int, Pago>,
    notas: map<int, NotaVenta>)

  /** Every row is stored under its own primary key. */
  predicate KeyedByPrimaryKey(t: Tables)
  {
    && (forall id :: id in t.users ==> t.users[id].id == id)
    && (forall rut :: rut in t.clientes ==> t.clientes[rut].rut == rut)
    && (forall p :: p in t.vehiculos ==> t.vehiculos[p].patente == p)
    && (forall id :: id in t.pagos ==> t.pagos[id].id == id)
    && (forall folio :: folio in t.notas ==> t.notas[folio].id == folio)
  }

  predicate ColumnsFit(t: Tables)
  {
    && (forall id :: id in t.users ==> UserFits(t.users[id]))
    && (forall rut :: rut in t.clientes ==> ClienteFits(t.clientes[rut]))
    && (forall p :: p in t.vehiculos ==> VehiculoFits(t.vehiculos[p]))
  }

  /** `users.email`, `vehiculos.chasis_n`, `vehiculos.motor_n` and `notas_de_venta.pago_id`
      are declared unique. */
  predicate UniqueColumns(t: Tables)
  {
    && (forall a, b :: a in t.users && b in t.users && t.users[a].email == t.users[b].email ==> a == b)
    && (forall a, b :: a in t.vehiculos && b in t.vehiculos && t.vehiculos[a].chasisN == t.vehiculos[b].chasisN
                       ==> a == b)
    && (forall a, b :: a in t.vehiculos && b in t.vehiculos && t.vehiculos[a].motorN == t.vehiculos[b].motorN
                       ==> a == b)
    && (forall a, b :: a in t.notas && b in t.notas && t.notas[a].pagoId == t.notas[b].pagoId ==> a == b)
  }

  /** Each note points at an existing client, vehicle, seller and payment. */
  predicate ForeignKeys(t: Tables)
  {
    forall folio :: folio in t.notas ==>
      && t.notas[folio].clienteRut in t.clientes
      && t.notas[folio].vehiculoPatente in t.vehiculos
      && t.notas[folio].userId in t.users
      && t.notas[folio].pagoId in t.pagos
  }

  /** Everything the database enforces on a committed state. */
  predicate Consistent(t: Tables)
  {
    KeyedByPrimaryKey(t) && ColumnsFit(t) && UniqueColumns(t) && ForeignKeys(t)
  }

  /** The e-mail addresses already registered. */
  function Emails(users: map<int, User>): set<string>
  {
    set id | id in users :: users[id].email
  }

  /** In a consistent state every note owns exactly one payment: it exists, and no other
      note points at it. */
  lemma PagoBelongsToOneNota(t: Tables, a: int)
    requires Consistent(t) && a in t.notas
    ensures t.notas[a].pagoId in t.pagos && t.pagos[t.notas[a].pagoId].id == t.notas[a].pagoId
    ensures forall b :: b in t.notas && b != a ==> t.notas[b].pagoId != t.notas[a].pagoId
  {
  }

  /** The keys of a consistent state are as wide as the key columns allow: a client's
      rut at most 10 characters, a vehicle's patente at most 8. */
  lemma KeyWidths(t: Tables, rut: string, patente: string)
    requires Consistent(t)
    ensures rut in t.clientes ==> |rut| <= 10
    ensures patente in t.vehiculos ==> |patente| <= 8
  {
  }

  /** A finite table always has a positive id no row uses yet (what the database's
      auto-increment hands out on flush). */
  lemma {:induction false} FreshIdExists(ids: set<int>)
    ensures exists k :: k > 0 && k !in ids
  {
    var b := UpperBound(ids);
    assert b > 0 && b !in ids;
  }

  ghost function UpperBound(ids: set<int>): (b: int)
    ensures b > 0 && forall k :: k in ids ==> k < b
    decreases |ids|
  {
    if ids == {} then 1
    else
      NonEmptyHasElement(ids);
      var x :| x in ids;
      var b' := UpperBound(ids - {x});
      assert forall k :: k in ids ==> k == x || k in ids - {x};
      if x < b' then b' else x + 1
  }

  lemma NonEmptyHasElement(s: set<int>)
    requires s != {}
    ensures exists x :: x in s
  {
    if forall x :: x !in s {
      assert false;
    }
  }
}
