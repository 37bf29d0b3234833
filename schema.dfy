/**
 * The two tables of the ledger and the constraints their DDL declares
 * (`locales` keyed by `numero_local`, `pagos` with CHECKs and a foreign key),
 * and what a batch of INSERTs into `locales` does inside one transaction.
 */
module Schema {
  import opened Wrappers

  /** A row of `locales`. */
  datatype Local = Local(
    numeroLocal: string,
    inquilino: string,
    planta: string,
    ramoNegocio: string,
    montoAlquiler: real,
    contrato: string)

  /** A row of `pagos`; `fechaPago` is the stored TEXT of the date. */
  datatype Pago = Pago(
    id: nat,
    numeroLocal: string,
    inquilino: string,
    fechaPago: string,
    mesAbonado: string,
    monto: real,
    estado: string,
    observaciones: string)

  /** CHECK(estado IN ('Pagado', 'Parcial', 'Pendiente')) */
  const Estados: set<string> := {"Pagado", "Parcial", "Pendiente"}

  /** CHECK(mes_abonado LIKE '____-__'): seven characters, the fifth a hyphen. */
  predicate LikeMonthShape(s: string) {
    |s| == 7 && s[4] == '-'
  }

  /** A unit row the table accepts under key `code`: CHECK(monto_alquiler >= 0). */
  predicate LocalOk(code: string, l: Local) {
    l.numeroLocal == code && l.montoAlquiler >= 0.0
  }

  /** The `locales` table: the map's key is the row's primary key. */
  predicate LocalesOk(locales: map<string, Local>) {
    forall code :: code in locales ==> LocalOk(code, locales[code])
  }

  /** The CHECKs of `pagos` and its FOREIGN KEY into `locales`. */
  predicate PagoOk(p: Pago, locales: map<string, Local>) {
    && LikeMonthShape(p.mesAbonado)
    && p.monto > 0.0
    && p.estado in Estados
    && p.numeroLocal in locales
  }

  predicate PagosOk(pagos: seq<Pago>, locales: map<string, Local>) {
    forall i :: 0 <= i < |pagos| ==> PagoOk(pagos[i], locales)
  }

  /** Adding units never breaks a payment's foreign key. */
  lemma PagosOkMonotone(pagos: seq<Pago>, locales: map<string, Local>, more: map<string, Local>)
    requires PagosOk(pagos, locales) && locales.Keys <= more.Keys
    ensures PagosOk(pagos, more)
  {
  }

  // ---------------------------------------------------------------------
  // executemany(INSERT INTO locales ...) inside one transaction

  /** The unit codes a batch of rows carries. */
  function Codes(rows: seq<Local>): set<string> {
    set i | 0 <= i < |rows| :: rows[i].numeroLocal
  }

  predicate DistinctCodes(rows: seq<Local>) {
    forall i, j :: 0 <= i < j < |rows| ==> rows[i].numeroLocal != rows[j].numeroLocal
  }

  /**
   * Inserting `rows` one after the other into a table holding `m`: the first
   * row whose key is taken or whose rent is negative raises, and the
   * transaction is rolled back (None); otherwise the table after the batch.
   */
  function InsertAll(m: map<string, Local>, rows: seq<Local>): (r: Option<map<string, Local>>)
    ensures r.Some? ==> forall code :: code in m ==> code in r.value && r.value[code] == m[code]
    decreases |rows|
  {
    if rows == [] then Some(m)
    else if rows[0].numeroLocal in m || rows[0].montoAlquiler < 0.0 then None
    else InsertAll(m[rows[0].numeroLocal := rows[0]], rows[1..])
  }

  /** The batch commits exactly when its keys are new and distinct and every rent is allowed. */
  lemma {:induction false} InsertAllSucceeds(m: map<string, Local>, rows: seq<Local>)
    ensures InsertAll(m, rows).Some? <==>
      && DistinctCodes(rows)
      && (forall i :: 0 <= i < |rows| ==> rows[i].numeroLocal !in m && rows[i].montoAlquiler >= 0.0)
    decreases |rows|
  {
    if rows != [] {
      var r := rows[0];
      InsertAllSucceeds(m[r.numeroLocal := r], rows[1..]);
      if r.numeroLocal !in m && r.montoAlquiler >= 0.0 {
        if DistinctCodes(rows[1..]) && (forall i :: 0 <= i < |rows| - 1 ==> rows[1..][i].numeroLocal !in m[r.numeroLocal := r]) {
          assert DistinctCodes(rows) by {
            forall i, j | 0 <= i < j < |rows| ensures rows[i].numeroLocal != rows[j].numeroLocal {
              if i > 0 { assert rows[i] == rows[1..][i - 1] && rows[j] == rows[1..][j - 1]; }
              else { assert rows[j] == rows[1..][j - 1]; }
            }
          }
        }
        if DistinctCodes(rows) {
          assert forall i :: 0 <= i < |rows| - 1 ==> rows[1..][i] == rows[i + 1];
        }
      }
    }
  }

  /** A committed batch keeps every existing row and adds each inserted row under its key. */
  lemma {:induction false} InsertAllContents(m: map<string, Local>, rows: seq<Local>)
    requires InsertAll(m, rows).Some?
    ensures var t := InsertAll(m, rows).value;
      && t.Keys == m.Keys + Codes(rows)
      && (forall code :: code in m ==> t[code] == m[code])
      && (forall i :: 0 <= i < |rows| ==> t[rows[i].numeroLocal] == rows[i])
    decreases |rows|
  {
    if rows != [] {
      var r := rows[0];
      var m' := m[r.numeroLocal := r];
      InsertAllContents(m', rows[1..]);
      var t := InsertAll(m, rows).value;
      assert t == InsertAll(m', rows[1..]).value;
      assert Codes(rows) == {r.numeroLocal} + Codes(rows[1..]) by {
        forall code | code in Codes(rows) ensures code in {r.numeroLocal} + Codes(rows[1..]) {
          var i :| 0 <= i < |rows| && rows[i].numeroLocal == code;
          if i > 0 { assert rows[1..][i - 1] == rows[i]; }
        }
      }
      forall i | 0 <= i < |rows| ensures t[rows[i].numeroLocal] == rows[i] {
        if i > 0 { assert rows[1..][i - 1] == rows[i]; }
      }
    }
  }

  /** A committed batch leaves a table that still meets its constraints. */
  lemma {:induction false} InsertAllKeepsConstraints(m: map<string, Local>, rows: seq<Local>)
    requires LocalesOk(m) && InsertAll(m, rows).Some?
    ensures LocalesOk(InsertAll(m, rows).value)
    decreases |rows|
  {
    if rows != [] {
      InsertAllKeepsConstraints(m[rows[0].numeroLocal := rows[0]], rows[1..]);
    }
  }
}
