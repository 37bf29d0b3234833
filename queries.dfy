/**
 * The read-only queries: the tenant and unit lookups that feed the payment
 * form, and the filtered, date-ordered payment history.
 */
module Queries {
  import opened Wrappers
  import opened TextOrder
  import opened Schema
  import opened Validation

  // ---------------------------------------------------------------------
  // obtener_inquilinos

  function TenantNames(locales: map<string, Local>): set<string> {
    set code | code in locales :: locales[code].inquilino
  }

  /** `[""]` followed by SELECT DISTINCT inquilino FROM locales ORDER BY inquilino. */
  function ObtenerInquilinos(locales: map<string, Local>): (r: seq<string>)
    ensures |r| >= 1 && r[0] == ""
    ensures StrictlyAscending(r[1..])
    ensures forall t :: t in r[1..] <==> exists code :: code in locales && locales[code].inquilino == t
  {
    var names := Ascending(TenantNames(locales));
    assert ([""] + names)[1..] == names;
    [""] + names
  }

  // ---------------------------------------------------------------------
  // obtener_locales_por_inquilino

  /** One record of the result: the unit's code and its rent. */
  datatype UnitRent = UnitRent(numeroLocal: string, montoAlquiler: real)

  function CodesOfTenant(locales: map<string, Local>, inquilino: string): set<string> {
    set code | code in locales && locales[code].inquilino == inquilino
  }

  /**
   * Nothing for an empty tenant; otherwise SELECT numero_local,
   * monto_alquiler FROM locales WHERE inquilino = ? ORDER BY numero_local.
   */
  function ObtenerLocalesPorInquilino(locales: map<string, Local>, inquilino: string): (r: seq<UnitRent>)
    ensures inquilino == "" ==> r == []
    ensures forall i, j :: 0 <= i < j < |r| ==> LexLt(r[i].numeroLocal, r[j].numeroLocal)
    ensures forall i :: 0 <= i < |r| ==>
      && r[i].numeroLocal in locales
      && locales[r[i].numeroLocal].inquilino == inquilino
      && r[i].montoAlquiler == locales[r[i].numeroLocal].montoAlquiler
    ensures inquilino != "" ==> forall code :: code in locales && locales[code].inquilino == inquilino ==>
      exists i :: 0 <= i < |r| && r[i].numeroLocal == code
  {
    if inquilino == "" then []
    else
      var codes := Ascending(CodesOfTenant(locales, inquilino));
      assert forall i :: 0 <= i < |codes| ==> codes[i] in CodesOfTenant(locales, inquilino);
      var r := seq(|codes|, i requires 0 <= i < |codes| => UnitRent(codes[i], locales[codes[i]].montoAlquiler));
      assert forall code :: code in locales && locales[code].inquilino == inquilino ==>
        exists i :: 0 <= i < |r| && r[i].numeroLocal == code by {
        forall code | code in locales && locales[code].inquilino == inquilino
          ensures exists i :: 0 <= i < |r| && r[i].numeroLocal == code
        {
          assert code in CodesOfTenant(locales, inquilino);
          var i :| 0 <= i < |codes| && codes[i] == code;
          assert r[i].numeroLocal == code;
        }
      }
      r
  }

  // ---------------------------------------------------------------------
  // obtener_monto_alquiler_local

  /** The stored rent of the unit; 0.0 for an empty or unknown code. */
  function ObtenerMontoAlquilerLocal(locales: map<string, Local>, numeroLocal: string): (r: real)
    ensures numeroLocal == "" || numeroLocal !in locales ==> r == 0.0
    ensures numeroLocal != "" && numeroLocal in locales ==> r == locales[numeroLocal].montoAlquiler
  {
    if numeroLocal == "" then 0.0
    else if numeroLocal in locales then locales[numeroLocal].montoAlquiler
    else 0.0
  }

  /** The rent the form suggests for a unit picked from the tenant's list is the one listed. */
  lemma SuggestedRentIsListedRent(locales: map<string, Local>, inquilino: string, i: nat)
    requires i < |ObtenerLocalesPorInquilino(locales, inquilino)|
    requires ObtenerLocalesPorInquilino(locales, inquilino)[i].numeroLocal != ""
    ensures var u := ObtenerLocalesPorInquilino(locales, inquilino)[i];
      ObtenerMontoAlquilerLocal(locales, u.numeroLocal) == u.montoAlquiler
  {
  }

  /** Under CHECK(monto_alquiler >= 0) the suggested rent is never negative. */
  lemma SuggestedRentNonNegative(locales: map<string, Local>, numeroLocal: string)
    requires LocalesOk(locales)
    ensures ObtenerMontoAlquilerLocal(locales, numeroLocal) >= 0.0
  {
  }

  // ---------------------------------------------------------------------
  // The history query of mostrar_historial_pagos

  /** The choice that leaves the tenant or the status unfiltered. */
  const Todos: string := "Todos"

  /** One `AND p.<column> = ?` the query gains, with its parameter. */
  datatype Condition = InquilinoIs(inquilino: string) | MesIs(mes: string) | EstadoIs(estado: string)

  /** The conditions appended to `WHERE 1=1`, in the order the source appends them. */
  function HistoryConditions(filtroInquilino: string, filtroMes: string, filtroEstado: string): (r: seq<Condition>)
    ensures forall c :: c in r <==>
      || (c == InquilinoIs(filtroInquilino) && filtroInquilino != Todos)
      || (c == MesIs(filtroMes) && filtroMes != "" && CalendarMonth(filtroMes))
      || (c == EstadoIs(filtroEstado) && filtroEstado != Todos)
    ensures |r| <= 3
  {
    var c1 := if filtroInquilino != Todos then [InquilinoIs(filtroInquilino)] else [];
    var c2 := if filtroMes != "" && ValidarMesAbonado(filtroMes) then c1 + [MesIs(filtroMes)] else c1;
    if filtroEstado != Todos then c2 + [EstadoIs(filtroEstado)] else c2
  }

  predicate Holds(p: Pago, c: Condition) {
    match c
    case InquilinoIs(t) => p.inquilino == t
    case MesIs(m) => p.mesAbonado == m
    case EstadoIs(e) => p.estado == e
  }

  predicate HoldsAll(p: Pago, cs: seq<Condition>) {
    forall i :: 0 <= i < |cs| ==> Holds(p, cs[i])
  }

  /**
   * Which payments the history shows: each filter that is set must match;
   * a month filter counts only when it is a valid month.
   */
  predicate MatchesFilters(p: Pago, filtroInquilino: string, filtroMes: string, filtroEstado: string) {
    && (filtroInquilino == Todos || p.inquilino == filtroInquilino)
    && (filtroMes == "" || !CalendarMonth(filtroMes) || p.mesAbonado == filtroMes)
    && (filtroEstado == Todos || p.estado == filtroEstado)
  }

  lemma ConditionsMeanFilters(p: Pago, filtroInquilino: string, filtroMes: string, filtroEstado: string)
    ensures HoldsAll(p, HistoryConditions(filtroInquilino, filtroMes, filtroEstado))
      <==> MatchesFilters(p, filtroInquilino, filtroMes, filtroEstado)
  {
    var cs := HistoryConditions(filtroInquilino, filtroMes, filtroEstado);
    var byMonth := filtroMes != "" && ValidarMesAbonado(filtroMes);
    var k1 := if filtroInquilino != Todos then 1 else 0;
    var k2 := if byMonth then k1 + 1 else k1;
    assert |cs| == if filtroEstado != Todos then k2 + 1 else k2;
    assert filtroInquilino != Todos ==> cs[0] == InquilinoIs(filtroInquilino);
    assert byMonth ==> cs[k1] == MesIs(filtroMes);
    assert filtroEstado != Todos ==> cs[k2] == EstadoIs(filtroEstado);
  }

  /** The rows of `pagos` that satisfy every condition. */
  function Selected(pagos: seq<Pago>, cs: seq<Condition>): (r: seq<Pago>)
    ensures forall p :: multiset(r)[p] == if HoldsAll(p, cs) then multiset(pagos)[p] else 0
    decreases |pagos|
  {
    if pagos == [] then []
    else
      var rest := Selected(pagos[1..], cs);
      assert pagos == [pagos[0]] + pagos[1..];
      if HoldsAll(pagos[0], cs) then [pagos[0]] + rest else rest
  }

  /** Later-or-equal dates first: ORDER BY p.fecha_pago DESC over the stored TEXT. */
  predicate FechaDescending(ps: seq<Pago>) {
    forall i, j :: 0 <= i < j < |ps| ==> LexLe(ps[j].fechaPago, ps[i].fechaPago)
  }

  function InsertByFecha(p: Pago, ps: seq<Pago>): (r: seq<Pago>)
    ensures multiset(r) == multiset(ps) + multiset{p}
    decreases |ps|
  {
    if ps == [] then [p]
    else if LexLe(ps[0].fechaPago, p.fechaPago) then [p] + ps
    else
      assert ps == [ps[0]] + ps[1..];
      [ps[0]] + InsertByFecha(p, ps[1..])
  }

  lemma {:induction false} InsertByFechaSorted(p: Pago, ps: seq<Pago>)
    requires FechaDescending(ps)
    ensures FechaDescending(InsertByFecha(p, ps))
    decreases |ps|
  {
    if ps == [] {
    } else if LexLe(ps[0].fechaPago, p.fechaPago) {
      var r := [p] + ps;
      forall i, j | 0 <= i < j < |r| ensures LexLe(r[j].fechaPago, r[i].fechaPago) {
        if i == 0 {
          assert r[j] == ps[j - 1];
          if j > 1 { LexLeTransitive(ps[j - 1].fechaPago, ps[0].fechaPago, p.fechaPago); }
        } else {
          assert r[i] == ps[i - 1] && r[j] == ps[j - 1];
        }
      }
    } else {
      LexLeTotal(ps[0].fechaPago, p.fechaPago);
      var tail := ps[1..];
      assert FechaDescending(tail) by {
        forall i, j | 0 <= i < j < |tail| ensures LexLe(tail[j].fechaPago, tail[i].fechaPago) {
          assert tail[i] == ps[i + 1] && tail[j] == ps[j + 1];
        }
      }
      InsertByFechaSorted(p, tail);
      var rest := InsertByFecha(p, tail);
      var r := [ps[0]] + rest;
      forall j | 0 <= j < |rest| ensures LexLe(rest[j].fechaPago, ps[0].fechaPago) {
        assert rest[j] in multiset(rest);
        if rest[j] != p {
          assert rest[j] in multiset(tail);
          var k :| 0 <= k < |tail| && tail[k] == rest[j];
          assert tail[k] == ps[k + 1];
        }
      }
      forall i, j | 0 <= i < j < |r| ensures LexLe(r[j].fechaPago, r[i].fechaPago) {
        assert r[j] == rest[j - 1];
        if i > 0 { assert r[i] == rest[i - 1]; }
      }
    }
  }

  /** An insertion sort: later dates first (equal dates keep table order, which the contract does not promise). */
  function SortByFechaDesc(ps: seq<Pago>): (r: seq<Pago>)
    ensures multiset(r) == multiset(ps)
    ensures FechaDescending(r)
    decreases |ps|
  {
    if ps == [] then []
    else
      var rest := SortByFechaDesc(ps[1..]);
      InsertByFechaSorted(ps[0], rest);
      assert ps == [ps[0]] + ps[1..];
      InsertByFecha(ps[0], rest)
  }

  /** A history row: the payment, with its unit's `planta` and `ramo_negocio` (LEFT JOIN). */
  datatype HistoryRow = HistoryRow(pago: Pago, planta: Option<string>, ramoNegocio: Option<string>)

  function LeftJoin(p: Pago, locales: map<string, Local>): (r: HistoryRow)
    ensures r.pago == p
    ensures r.planta.Some? <==> p.numeroLocal in locales
    ensures r.ramoNegocio.Some? <==> p.numeroLocal in locales
    ensures p.numeroLocal in locales ==>
      r.planta.value == locales[p.numeroLocal].planta && r.ramoNegocio.value == locales[p.numeroLocal].ramoNegocio
  {
    if p.numeroLocal in locales
    then HistoryRow(p, Some(locales[p.numeroLocal].planta), Some(locales[p.numeroLocal].ramoNegocio))
    else HistoryRow(p, None, None)
  }

  function PagosOf(rows: seq<HistoryRow>): seq<Pago> {
    seq(|rows|, i requires 0 <= i < |rows| => rows[i].pago)
  }

  /**
   * The history for the three filters: every payment that matches them, as
   * often as it is stored and no other, latest `fecha_pago` first, with its
   * unit's columns joined in.
   */
  function HistorialPagos(
    pagos: seq<Pago>, locales: map<string, Local>,
    filtroInquilino: string, filtroMes: string, filtroEstado: string): (r: seq<HistoryRow>)
    ensures forall p :: multiset(PagosOf(r))[p] ==
                       if MatchesFilters(p, filtroInquilino, filtroMes, filtroEstado) then multiset(pagos)[p] else 0
    ensures FechaDescending(PagosOf(r))
    ensures forall i :: 0 <= i < |r| ==> r[i] == LeftJoin(r[i].pago, locales)
  {
    var cs := HistoryConditions(filtroInquilino, filtroMes, filtroEstado);
    var sorted := SortByFechaDesc(Selected(pagos, cs));
    var r := seq(|sorted|, i requires 0 <= i < |sorted| => LeftJoin(sorted[i], locales));
    assert PagosOf(r) == sorted;
    forall p ensures HoldsAll(p, cs) <==> MatchesFilters(p, filtroInquilino, filtroMes, filtroEstado) {
      ConditionsMeanFilters(p, filtroInquilino, filtroMes, filtroEstado);
    }
    r
  }

  /** Without filters the history is a reordering of the whole table. */
  lemma UnfilteredHistoryListsAll(pagos: seq<Pago>, locales: map<string, Local>)
    ensures multiset(PagosOf(HistorialPagos(pagos, locales, Todos, "", Todos))) == multiset(pagos)
  {
    var r := PagosOf(HistorialPagos(pagos, locales, Todos, "", Todos));
    forall p ensures multiset(r)[p] == multiset(pagos)[p] {
      assert MatchesFilters(p, Todos, "", Todos);
    }
  }

  /** A month filter that is not a valid month is dropped, as if left blank. */
  lemma InvalidMonthFilterIgnored(
    pagos: seq<Pago>, locales: map<string, Local>,
    filtroInquilino: string, filtroMes: string, filtroEstado: string)
    requires filtroMes != "" && !ValidarMesAbonado(filtroMes)
    ensures HistorialPagos(pagos, locales, filtroInquilino, filtroMes, filtroEstado)
         == HistorialPagos(pagos, locales, filtroInquilino, "", filtroEstado)
  {
    assert HistoryConditions(filtroInquilino, filtroMes, filtroEstado) == HistoryConditions(filtroInquilino, "", filtroEstado);
  }

  /**
   * A payment just appended is listed when the history is filtered by its
   * own tenant, month and status, and the row shows exactly its fields.
   */
  lemma RegisteredPaymentListed(pagos: seq<Pago>, locales: map<string, Local>, p: Pago)
    ensures var r := HistorialPagos(pagos + [p], locales, p.inquilino, p.mesAbonado, p.estado);
      exists i :: 0 <= i < |r| && r[i].pago == p
  {
    var r := HistorialPagos(pagos + [p], locales, p.inquilino, p.mesAbonado, p.estado);
    assert MatchesFilters(p, p.inquilino, p.mesAbonado, p.estado);
    assert multiset(pagos + [p])[p] >= 1;
    assert p in multiset(PagosOf(r));
    var i :| 0 <= i < |PagosOf(r)| && PagosOf(r)[i] == p;
    assert r[i].pago == p;
  }
}
