/**
 * The ledger store: the `locales` map and the `pagos` table held by one
 * object, bootstrapped by `init_db` and extended by `registrar_pago`. Each
 * operation is one transaction: it commits all of its writes or none.
 */
module Ledger {
  import opened Wrappers
  import opened Schema
  import opened Validation
  import opened Seed

  /** The reason `registrar_pago` reports (through st.error) before returning False. */
  datatype RecordError =
    | MissingField   // a required field is empty
    | InvalidMonth   // validar_mes_abonado rejects mes_abonado
    | InvalidAmount  // validar_monto rejects monto
    | UnknownUnit    // no unit has that numero_local
    | StoreRejected  // the INSERT violates a table constraint and is rolled back

  /** A value the table's CHECK(mes_abonado LIKE '____-__') accepts. */
  lemma ValidMonthFitsCheck(mes: string)
    requires ValidarMesAbonado(mes)
    ensures LikeMonthShape(mes)
  {
  }

  /**
   * The outcome of `registrar_pago`: None when the row is stored, otherwise
   * the first check that fails, in the order the function makes them.
   */
  function RegistrationCheck(
    locales: map<string, Local>, local: string, inquilino: string, fechaPago: string,
    mesAbonado: string, monto: AmountArg, estado: string): (r: Option<RecordError>)
    ensures r == Some(MissingField) <==> local == "" || inquilino == "" || mesAbonado == "" || fechaPago == ""
    ensures r == Some(InvalidMonth) <==>
      local != "" && inquilino != "" && mesAbonado != "" && fechaPago != "" && !CalendarMonth(mesAbonado)
    ensures r == Some(InvalidAmount) <==>
      local != "" && inquilino != "" && fechaPago != "" && CalendarMonth(mesAbonado) && !(monto.Numeric? && monto.value > 0.0)
    ensures r == Some(UnknownUnit) <==>
      local != "" && inquilino != "" && fechaPago != "" && CalendarMonth(mesAbonado)
      && monto.Numeric? && monto.value > 0.0 && local !in locales
    ensures r == Some(StoreRejected) <==>
      local != "" && inquilino != "" && fechaPago != "" && CalendarMonth(mesAbonado)
      && monto.Numeric? && monto.value > 0.0 && local in locales && estado !in Estados
    ensures r == None <==>
      local != "" && inquilino != "" && fechaPago != "" && CalendarMonth(mesAbonado)
      && monto.Numeric? && monto.value > 0.0 && local in locales && estado in Estados
  {
    if local == "" || inquilino == "" || mesAbonado == "" || fechaPago == "" then Some(MissingField)
    else if !ValidarMesAbonado(mesAbonado) then Some(InvalidMonth)
    else if !ValidarMonto(monto) then Some(InvalidAmount)
    else if local !in locales then Some(UnknownUnit)
    // the table's constraints do not look at the id or the notes
    else if !PagoOk(Pago(0, local, inquilino, fechaPago, mesAbonado, monto.value, estado, ""), locales) then Some(StoreRejected)
    else None
  }

  /** Ids in insertion order, each larger than the one before: AUTOINCREMENT. */
  predicate IdsAscending(pagos: seq<Pago>) {
    forall i, j :: 0 <= i < j < |pagos| ==> pagos[i].id < pagos[j].id
  }

  class Store {
    /** The `locales` table, by primary key `numero_local`. */
    var locales: map<string, Local>
    /** The `pagos` table, in insertion order. */
    var pagos: seq<Pago>
    /** The largest id AUTOINCREMENT has handed out (its sqlite_sequence entry). */
    var lastId: nat

    /** Every constraint the two tables declare holds. */
    ghost predicate Valid()
      reads this
    {
      && LocalesOk(locales)
      && PagosOk(pagos, locales)
      && IdsAscending(pagos)
      && (forall i :: 0 <= i < |pagos| ==> 1 <= pagos[i].id <= lastId)
    }

    /** A new database file: both tables exist and are empty. */
    constructor ()
      ensures Valid()
      ensures locales == map[] && pagos == [] && lastId == 0
    {
      locales := map[];
      pagos := [];
      lastId := 0;
    }

    /**
     * init_db: when `locales` is empty, insert `seed` row by row (the source
     * passes cargar_datos_iniciales()); a constraint violation rolls the whole
     * batch back and the session stops (ok == false).
     */
    method InitDb(seed: seq<Local>) returns (ok: bool)
      requires Valid()
      modifies this
      ensures Valid()
      ensures pagos == old(pagos) && lastId == old(lastId)
      ensures old(locales) != map[] ==> ok && locales == old(locales)
      ensures old(locales) == map[] ==> (ok <==> InsertAll(map[], seed).Some?)
      ensures old(locales) == map[] && ok ==> locales == InsertAll(map[], seed).value
      ensures old(locales) == map[] && !ok ==> locales == map[]
    {
      // BEGIN; the CREATE TABLE IF NOT EXISTS statements find both tables.
      if |locales| != 0 {
        return true;  // COMMIT
      }
      assert locales == map[];
      var before := locales;
      var i := 0;
      while i < |seed|
        invariant 0 <= i <= |seed|
        invariant pagos == old(pagos) && lastId == old(lastId)
        invariant LocalesOk(locales)
        invariant before.Keys <= locales.Keys
        invariant InsertAll(locales, seed[i..]) == InsertAll(before, seed)
      {
        var row := seed[i];
        assert seed[i..][0] == row && seed[i..][1..] == seed[i + 1..];
        if row.numeroLocal in locales || row.montoAlquiler < 0.0 {
          // PRIMARY KEY or CHECK violation: ROLLBACK, st.stop()
          locales := before;
          return false;
        }
        locales := locales[row.numeroLocal := row];
        i := i + 1;
      }
      assert seed[i..] == [];
      PagosOkMonotone(pagos, before, locales);
      return true;  // COMMIT
    }

    /**
     * registrar_pago: the field, month and amount checks, then BEGIN, the
     * unit lookup and the INSERT, which the table's constraints may reject
     * (ROLLBACK). Returns what the source returns and the error it reports.
     */
    method RegistrarPago(
      local: string, inquilino: string, fechaPago: string, mesAbonado: string,
      monto: AmountArg, estado: string, observaciones: string)
      returns (ok: bool, reported: Option<RecordError>)
      requires Valid()
      modifies this
      ensures Valid()
      ensures locales == old(locales)
      ensures reported == RegistrationCheck(old(locales), local, inquilino, fechaPago, mesAbonado, monto, estado)
      ensures ok <==> reported == None
      ensures ok ==> monto.Numeric? && lastId == old(lastId) + 1
      ensures ok ==>
        pagos == old(pagos) + [Pago(lastId, local, inquilino, fechaPago, mesAbonado, monto.value, estado, observaciones)]
      ensures ok ==> forall i :: 0 <= i < |old(pagos)| ==> old(pagos)[i].id < lastId
      ensures !ok ==> pagos == old(pagos) && lastId == old(lastId)
    {
      if local == "" || inquilino == "" || mesAbonado == "" || fechaPago == "" {
        return false, Some(MissingField);
      }
      if !ValidarMesAbonado(mesAbonado) {
        return false, Some(InvalidMonth);
      }
      if !ValidarMonto(monto) {
        return false, Some(InvalidAmount);
      }
      // BEGIN
      if local !in locales {
        return false, Some(UnknownUnit);
      }
      var row := Pago(lastId + 1, local, inquilino, fechaPago, mesAbonado, monto.value, estado, observaciones);
      if !PagoOk(row, locales) {
        // sqlite3.IntegrityError from a CHECK: ROLLBACK
        return false, Some(StoreRejected);
      }
      pagos := pagos + [row];
      lastId := lastId + 1;
      // COMMIT
      return true, None;
    }
  }

  /**
   * Starting the application on a new database file: init_db with
   * cargar_datos_iniciales() rolls back and stops, leaving no unit.
   */
  method BootstrapFreshDatabase() returns (ok: bool, units: nat)
    ensures !ok && units == 0
  {
    var store := new Store();
    SeedingEmptyTableAborts();
    ok := store.InitDb(CargarDatosIniciales());
    units := |store.locales|;
  }

  /** The same start with the corrected seed commits one unit per listed code. */
  method BootstrapWithCorrectedSeed() returns (ok: bool, units: nat)
    ensures ok && units == |Codes(CargarDatosIniciales())|
  {
    var store := new Store();
    CorrectedSeedingSucceeds();
    ok := store.InitDb(FirstPerCode(CargarDatosIniciales()));
    units := |store.locales|;
  }
}
