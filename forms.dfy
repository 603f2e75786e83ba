/** The submitted forms and their validators. A validator yields the set of fields that
    carry an error; the form is accepted exactly when that set is empty. Lookups the
    validators make in the database are passed in as the relevant key sets. */
module Forms {
  import opened Text
  import opened Models

  /** The `choices` of the two select fields of the sales-note form. */
  const MetodoPagoChoices: seq<string> := ["contado", "credito automotriz", "T. crédito", "T. débito"]
  const EstadoChoices: seq<string> := ["pendiente", "completada", "anulada"]

  /** `DataRequired()` on a text field: something other than white space was entered. */
  predicate Required(s: string) { !IsBlank(s) }

  /** The select fields offer exactly the database enumerations. */
  lemma ChoicesAreEnums(s: string)
    ensures s in MetodoPagoChoices <==> ParseMetodoPago(s).Some?
    ensures s in EstadoChoices <==> ParseEstado(s).Some?
    ensures forall m :: MetodoPagoLabel(m) in MetodoPagoChoices
    ensures forall e :: EstadoLabel(e) in EstadoChoices
  {
    ParseMetodoPagoExact(s);
    ParseEstadoExact(s);
    forall m ensures MetodoPagoLabel(m) in MetodoPagoChoices {
      match m
      case Contado =>
      case CreditoAutomotriz =>
      case TarjetaCredito =>
      case TarjetaDebito =>
    }
  }

  // ---- NotaVentaForm ------------------------------------------------------

  /** What was submitted. A date or an integer that did not parse arrives as `None`. */
  datatype NotaVentaForm = NotaVentaForm(
    clienteRut: string,
    vehiculoPatente: string,
    fechaVenta: Option<Date>,
    montoFinal: Option<int>,
    metodoPago: string,
    estado: string,
    observaciones: Option<string>)

  datatype NotaField =
    ClienteRutField | VehiculoPatenteField | FechaVentaField | MontoFinalField | MetodoPagoField | EstadoField

  /** An accepted sales-note form, with its select fields read as enumeration values. */
  datatype NotaVentaData = NotaVentaData(
    clienteRut: string,
    vehiculoPatente: string,
    fechaVenta: Date,
    montoFinal: int,
    metodoPago: MetodoPago,
    estado: Estado,
    observaciones: Option<string>)

  // The validator chain of each field. `DataRequired()` on an integer field rejects 0, since
  // it tests the value's truth.

  predicate RutOk(f: NotaVentaForm, ruts: set<string>)
  {
    Required(f.clienteRut) && |f.clienteRut| <= 10 && f.clienteRut in ruts
  }

  predicate PatenteOk(f: NotaVentaForm, patentes: set<string>)
  {
    Required(f.vehiculoPatente) && |f.vehiculoPatente| <= 8 && f.vehiculoPatente in patentes
  }

  predicate MontoOk(f: NotaVentaForm) { f.montoFinal.Some? && f.montoFinal.value != 0 }

  predicate MetodoPagoOk(f: NotaVentaForm) { Required(f.metodoPago) && f.metodoPago in MetodoPagoChoices }

  predicate EstadoOk(f: NotaVentaForm) { Required(f.estado) && f.estado in EstadoChoices }

  predicate NotaFieldOk(f: NotaVentaForm, ruts: set<string>, patentes: set<string>, field: NotaField)
  {
    match field
    case ClienteRutField => RutOk(f, ruts)
    case VehiculoPatenteField => PatenteOk(f, patentes)
    case FechaVentaField => f.fechaVenta.Some?
    case MontoFinalField => MontoOk(f)
    case MetodoPagoField => MetodoPagoOk(f)
    case EstadoField => EstadoOk(f)
  }

  const AllNotaFields: set<NotaField> :=
    {ClienteRutField, VehiculoPatenteField, FechaVentaField, MontoFinalField, MetodoPagoField, EstadoField}

  lemma AllNotaFieldsListed(field: NotaField)
    ensures field in AllNotaFields
  {
  }

  function NotaVentaErrors(f: NotaVentaForm, ruts: set<string>, patentes: set<string>): (errs: set<NotaField>)
    ensures forall field :: field in errs <==> !NotaFieldOk(f, ruts, patentes, field)
  {
    var errs := set field | field in AllNotaFields && !NotaFieldOk(f, ruts, patentes, field);
    assert forall field :: field in AllNotaFields by {
      forall field ensures field in AllNotaFields { AllNotaFieldsListed(field); }
    }
    errs
  }

  /** `form.validate_on_submit()` for the sales-note form against the stored client ruts and
      vehicle patentes: either the data it accepts, or the fields in error. */
  function ValidateNotaVenta(f: NotaVentaForm, ruts: set<string>, patentes: set<string>)
    : (r: Result<NotaVentaData, set<NotaField>>)
    ensures r.Ok? <==> NotaVentaErrors(f, ruts, patentes) == {}
    ensures r.Err? ==> r.error == NotaVentaErrors(f, ruts, patentes) && r.error != {}
    ensures r.Ok? ==>
      && r.value.clienteRut == f.clienteRut && r.value.clienteRut in ruts
      && 0 < |r.value.clienteRut| <= 10
      && r.value.vehiculoPatente == f.vehiculoPatente && r.value.vehiculoPatente in patentes
      && 0 < |r.value.vehiculoPatente| <= 8
      && f.fechaVenta == Some(r.value.fechaVenta)
      && f.montoFinal == Some(r.value.montoFinal) && r.value.montoFinal != 0
      && MetodoPagoLabel(r.value.metodoPago) == f.metodoPago
      && EstadoLabel(r.value.estado) == f.estado
      && r.value.observaciones == f.observaciones
  {
    var errs := NotaVentaErrors(f, ruts, patentes);
    if errs != {} then Err(errs)
    else
      assert NotaFieldOk(f, ruts, patentes, MetodoPagoField) && NotaFieldOk(f, ruts, patentes, EstadoField);
      assert NotaFieldOk(f, ruts, patentes, ClienteRutField) && NotaFieldOk(f, ruts, patentes, VehiculoPatenteField);
      assert NotaFieldOk(f, ruts, patentes, FechaVentaField) && NotaFieldOk(f, ruts, patentes, MontoFinalField);
      ChoicesAreEnums(f.metodoPago);
      ChoicesAreEnums(f.estado);
      ParseMetodoPagoExact(f.metodoPago);
      ParseEstadoExact(f.estado);
      Ok(NotaVentaData(
        f.clienteRut, f.vehiculoPatente, f.fechaVenta.value, f.montoFinal.value,
        ParseMetodoPago(f.metodoPago).value, ParseEstado(f.estado).value, f.observaciones))
  }

  /** A form naming a client that is not stored is rejected on that field, and likewise for a
      vehicle; a rut over 10 or a patente over 8 characters is rejected too. */
  lemma UnknownReferenceRejected(f: NotaVentaForm, ruts: set<string>, patentes: set<string>)
    ensures f.clienteRut !in ruts || |f.clienteRut| > 10 ==>
              ValidateNotaVenta(f, ruts, patentes).Err?
              && ClienteRutField in ValidateNotaVenta(f, ruts, patentes).error
    ensures f.vehiculoPatente !in patentes || |f.vehiculoPatente| > 8 ==>
              ValidateNotaVenta(f, ruts, patentes).Err?
              && VehiculoPatenteField in ValidateNotaVenta(f, ruts, patentes).error
  {
  }

  // ---- RegistrationForm ---------------------------------------------------

  datatype RegistrationForm = RegistrationForm(name: string, email: string, password: string, password2: string)

  datatype RegistrationField = NameField | EmailField | PasswordField | Password2Field

  /** `emailSyntax` is the outcome of the `Email()` validator, whose rules live in a library
      outside this model; `emails` are the addresses already stored (`validate_email`). */
  predicate RegistrationFieldOk(
    f: RegistrationForm, emails: set<string>, emailSyntax: string -> bool, field: RegistrationField)
  {
    match field
    case NameField => Required(f.name)
    case EmailField => Required(f.email) && emailSyntax(f.email) && f.email !in emails
    case PasswordField => Required(f.password) && |f.password| >= 8
    case Password2Field => Required(f.password2) && f.password2 == f.password
  }

  function RegistrationErrors(f: RegistrationForm, emails: set<string>, emailSyntax: string -> bool)
    : (errs: set<RegistrationField>)
    ensures forall field :: field in errs <==> !RegistrationFieldOk(f, emails, emailSyntax, field)
  {
    (if RegistrationFieldOk(f, emails, emailSyntax, NameField) then {} else {NameField})
    + (if RegistrationFieldOk(f, emails, emailSyntax, EmailField) then {} else {EmailField})
    + (if RegistrationFieldOk(f, emails, emailSyntax, PasswordField) then {} else {PasswordField})
    + (if RegistrationFieldOk(f, emails, emailSyntax, Password2Field) then {} else {Password2Field})
  }

  /** An accepted registration has a password of at least 8 characters, confirmed by an
      identical second entry, and an e-mail nobody uses yet. */
  lemma RegistrationAccepted(f: RegistrationForm, emails: set<string>, emailSyntax: string -> bool)
    requires RegistrationErrors(f, emails, emailSyntax) == {}
    ensures |f.password| >= 8 && f.password2 == f.password
    ensures f.email !in emails && emailSyntax(f.email)
    ensures Required(f.name)
  {
    assert RegistrationFieldOk(f, emails, emailSyntax, PasswordField);
    assert RegistrationFieldOk(f, emails, emailSyntax, Password2Field);
    assert RegistrationFieldOk(f, emails, emailSyntax, EmailField);
    assert RegistrationFieldOk(f, emails, emailSyntax, NameField);
  }

  // ---- LoginForm ----------------------------------------------------------

  datatype LoginForm = LoginForm(email: string, password: string, rememberMe: bool)

  datatype LoginField = LoginEmailField | LoginPasswordField

  function LoginErrors(f: LoginForm, emailSyntax: string -> bool): (errs: set<LoginField>)
    ensures LoginEmailField in errs <==> !(Required(f.email) && emailSyntax(f.email))
    ensures LoginPasswordField in errs <==> !Required(f.password)
  {
    (if Required(f.email) && emailSyntax(f.email) then {} else {LoginEmailField})
    + (if Required(f.password) then {} else {LoginPasswordField})
  }
}
