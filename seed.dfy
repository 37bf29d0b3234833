/**
 * The fixed list of units that bootstraps an empty `locales` table
 * (`cargar_datos_iniciales`), and what inserting it does.
 */
module Seed {
  import opened Wrappers
  import opened Schema

  /**
   * cargar_datos_iniciales: 55 rows, in the order they are inserted. The
   * list is written in three blocks, by the floor (`planta`) each row names.
   */
  function CargarDatosIniciales(): (rows: seq<Local>)
    ensures |rows| == 55
  {
    GroundFloor() + FirstMezzanine() + SecondMezzanine()
  }

  /** Rows 1 to 23 of the list: planta 'PB'. */
  function GroundFloor(): seq<Local> {
    [
      Local("LOCAL A", "MONICA JANET VARGAS G.", "PB", "LENCERIA", 350.0, "MONICA JANET VARGAS G."),
      Local("LOCAL B", "OSCAR DUQUE ECHEVERRIA", "PB", "LENCERIA", 350.0, "OSCAR DUQUE ECHEVERRI"),
      Local("LOCAL 1", "JOSE MANUEL ANDRADE PEREIRA", "PB", "MANUFACTURA", 70.0, "JOSE M. ANDRADE PEREIRA"),
      Local("LOCAL 2", "JOSE MANUEL ANDRADE PEREIRA", "PB", "MANUFACTURA", 70.0, "JOSE M. ANDRADE PEREIRA"),
      Local("LOCAL 3", "JOSE MANUEL ANDRADE PEREIRA", "PB", "MANUFACTURA", 70.0, "JOSE M. ANDRADE PEREIRA"),
      Local("LOCAL 4", "JOSE R. RODRIGUEZ V.", "PB", "DOMESA", 33.33, "YORMAN JOSE VALERA"),
      Local("LOCAL 5", "JOSE R. RODRIGUEZ V.", "PB", "DOMESA", 33.33, "YORMAN JOSE VALERA"),
      Local("LOCAL 5A", "JOSE R. RODRIGUEZ V.", "PB", "DOMESA", 33.33, "YORMAN JOSE VALERA"),
      Local("LOCAL 6", "Daniel", "PB", "Compra/Venta Oro", 50.0, "DANNYS JOSE GARCIA"),
      Local("LOCAL 7", "YAMILETH JOSEFINA CHACON", "PB", "SANTERIA", 70.0, "YAMILET JOSEFINA CHACON"),
      Local("LOCAL 8", "JOSE ANTONIO SPANO", "PB", "ODONTOLOGIA", 50.0, "JOSE ANTONIO SPANO"),
      Local("LOCAL 9", "JOSE ANTONIO SPANO", "PB", "ODONTOLOGIA", 50.0, "JOSE ANTONIO SPANO"),
      Local("LOCAL 10", "YANIRE NAVARRO VIVES", "PB", "ARTESANIA", 150.0, "YANIRE NAVARRO VIDES"),
      Local("LOCAL 11 A", "IVAN SILVA", "PB", "ROPA", 80.0, "ARENAS DEL NILO C.A"),
      Local("LOCAL 11", "MARTIN SANTOS", "PB", "NO SE", 60.0, "MARTIN SANTOS"),
      Local("LOCAL 12", "MARTIN SANTOS", "PB", "NO SE", 60.0, "MARTIN SANTOS"),
      Local("LOCAL 13", "ESPERANZA RUEDA", "PB", "ROPA", 70.0, "ESPERANZA RUEDA"),
      Local("LOCAL 14", "SUSANA DO LIVRAMENTO", "PB", "PERFUMES", 70.0, "SUSANA DO LIVRAMENTO"),
      Local("LOCAL 15", "JUAN ANTONIO RODRIGUEZ", "PB", "OPTICA", 70.0, "JUAN ANTONIO RODRÍGUEZ"),
      Local("LOCAL 16", "MARYABETH TOVAR Y ALDO M.", "PB", "CYBER", 70.0, "YULIANA SINDY POVES VALLADARES"),
      Local("LOCAL 17", "YANIRE NAVARRO VIVES", "PB", "ARTESANIA", 37.5, "YANIRE NAVARRO VIDES"),
      Local("LOCAL 18", "YANIRE NAVARRO VIVES", "PB", "ARTESANIA", 37.5, "YANIRE NAVARRO VIDES"),
      Local("LOCAL 19", "YANIRE NAVARRO VIVES", "PB", "ARTESANIA", 37.5, "YANIRE NAVARRO VIDES")
    ]
  }

  /** Rows 24 to 43 of the list: planta 'MEZZANINA 1'. */
  function FirstMezzanine(): seq<Local> {
    [
      Local("MEZZANINA 1", "OSCAR DUQUE", "MEZZANINA 1", "", 100.0, "OSCAR DUQUE ECHEVERRI"),
      Local("LOCAL 27", "CARLOS Y ELIS MIÑANO", "MEZZANINA 1", "", 25.0, "CARLOS Y ELVIS MIÑANO"),
      Local("LOCAL 28", "CARLOS Y ELIS MIÑANO", "MEZZANINA 1", "", 25.0, "CARLOS Y ELVIS MIÑANO"),
      Local("LOCAL 29", "CARLOS Y ELIS MIÑANO", "MEZZANINA 1", "", 25.0, "CARLOS Y ELVIS MIÑANO"),
      Local("LOCAL 30", "CARLOS Y ELIS MIÑANO", "MEZZANINA 1", "", 25.0, "CARLOS Y ELVIS MIÑANO"),
      Local("LOCAL 34", "JACQUELINE QUINTANA", "MEZZANINA 1", "", 60.0, "JACQUELINE QUINTANA"),
      Local("LOCAL 35", "JACQUELINE QUINTANA", "MEZZANINA 1", "", 60.0, "JACQUELINE QUINTANA"),
      Local("MEZZANINA 2", "CARLOS GOMEZ ZULOAGA", "MEZZANINA 1", "", 120.0, "CARLOS MARIO GOMEZ"),
      Local("LOCAL 40", "JHON SERNA GOMEZ", "MEZZANINA 1", "", 120.0, "JHON SERNA GOMEZ"),
      Local("LOCAL 42", "CARLOS Y ELIS MIÑANO", "MEZZANINA 1", "", 16.67, "GERARDO MIÑANO TRUJILLO"),
      Local("LOCAL 43", "CARLOS Y ELIS MIÑANO", "MEZZANINA 1", "", 16.67, "GERARDO MIÑANO TRUJILLO"),
      Local("LOCAL 44", "CARLOS Y ELIS MIÑANO", "MEZZANINA 1", "", 16.67, "GERARDO MIÑANO TRUJILLO"),
      Local("LOCAL 45", "CARLOS Y ELIS MIÑANO", "MEZZANINA 1", "", 16.67, "GERARDO MIÑANO TRUJILLO"),
      Local("LOCAL 46", "CARLOS Y ELIS MIÑANO", "MEZZANINA 1", "", 16.67, "GERARDO MIÑANO TRUJILLO"),
      Local("LOCAL 47", "CARLOS Y ELIS MIÑANO", "MEZZANINA 1", "", 16.67, "GERARDO MIÑANO TRUJILLO"),
      Local("LOCAL 31", "ALDO MUÑOZ Y JARRISON HEVER", "MEZZANINA 1", "SUSHI", 50.0, "ALDO MUÑOZ y JARRISON HEVER"),
      Local("LOCAL 32", "ALDO MUÑOZ Y JARRISON HEVER", "MEZZANINA 1", "SUSHI", 50.0, "ALDO MUÑOZ y JARRISON HEVER"),
      Local("LOCAL S/N", "SALVADOR FREITAS NUNES", "MEZZANINA 1", "RESTAURANT", 200.0, "SALVADOR FREITAS NUNES"),
      Local("LOCAL 2-4", "AURA MARINA", "MEZZANINA 1", "TELAS", 50.0, "AURA MARINA MONTILLA"),
      Local("LOCAL 2-5", "AURA MARINA", "MEZZANINA 1", "TELAS", 50.0, "AURA MARINA MONTILLA")
    ]
  }

  /** Rows 44 to 55 of the list: planta 'MEZZANINA 2'. */
  function SecondMezzanine(): seq<Local> {
    [
      Local("LOCAL 2-2", "ESPERANZA RUEDA", "MEZZANINA 2", "", 23.33, "FEDERICK JACOB OVALLES"),
      Local("LOCAL 2-3", "ESPERANZA RUEDA", "MEZZANINA 2", "", 23.33, "FEDERICK JACOB OVALLES"),
      Local("LOCAL 2 -3", "DESOCUPADO", "MEZZANINA 2", "", 23.33, "FEDERICK JACOB OVALLES"),
      Local("LOCAL 2 -7", "DESOCUPADO", "MEZZANINA 2", "", 23.33, "Martin Santos"),
      Local("LOCAL 2-4", "JOSE ANTONIO DO FAIAL", "MEZZANINA 2", "ACRILICOS", 60.0, "JOSE ANTONIO FAIAL PESTAÑA"),
      Local("LOCAL 2-5", "JOSE ANTONIO DO FAIAL", "MEZZANINA 2", "ACRILICOS", 60.0, "JOSE ANTONIO FAIAL PESTAÑA"),
      Local("LOCAL 34", "ELY SAUL QUINTERO CUELLAE", "MEZZANINA 2", "", 16.67, "ELY SAUL QUINTERO CUELLAR"),
      Local("LOCAL 35", "ELY SAUL QUINTERO CUELLAE", "MEZZANINA 2", "", 16.67, "ELY SAUL QUINTERO CUELLAR"),
      Local("LOCAL 36", "ELY SAUL QUINTERO CUELLAE", "MEZZANINA 2", "", 16.67, "ELY SAUL QUINTERO CUELLAR"),
      Local("LOCAL 37", "ELY SAUL QUINTERO CUELLAE", "MEZZANINA 2", "", 16.67, "ELY SAUL QUINTERO CUELLAR"),
      Local("LOCAL 38", "ELY SAUL QUINTERO CUELLAE", "MEZZANINA 2", "", 16.67, "ELY SAUL QUINTERO CUELLAR"),
      Local("LOCAL 39", "ELY SAUL QUINTERO CUELLAE", "MEZZANINA 2", "", 16.67, "ELY SAUL QUINTERO CUELLAR")
    ]
  }

  /** Four unit codes occur twice in the list, each time on a different floor. */
  lemma SeedRepeatsCodes()
    ensures var s := CargarDatosIniciales();
      && s[41].numeroLocal == s[47].numeroLocal == "LOCAL 2-4"
      && s[42].numeroLocal == s[48].numeroLocal == "LOCAL 2-5"
      && s[28].numeroLocal == s[49].numeroLocal == "LOCAL 34"
      && s[29].numeroLocal == s[50].numeroLocal == "LOCAL 35"
      && s[41].planta != s[47].planta && s[42].planta != s[48].planta
      && s[28].planta != s[49].planta && s[29].planta != s[50].planta
    ensures !DistinctCodes(CargarDatosIniciales())
  {
  }

  /** Every rent in the list meets CHECK(monto_alquiler >= 0). */
  lemma SeedRentsNonNegative()
    ensures forall x :: x in CargarDatosIniciales() ==> x.montoAlquiler >= 0.0
  {
    GroundFloorRents();
    FirstMezzanineRents();
    SecondMezzanineRents();
  }

  lemma GroundFloorRents()
    ensures forall x :: x in GroundFloor() ==> x.montoAlquiler >= 0.0
  {
  }

  lemma FirstMezzanineRents()
    ensures forall x :: x in FirstMezzanine() ==> x.montoAlquiler >= 0.0
  {
  }

  lemma SecondMezzanineRents()
    ensures forall x :: x in SecondMezzanine() ==> x.montoAlquiler >= 0.0
  {
  }

  /**
   * As written: inserting the list into an empty table hits the primary
   * key at index 47 ('LOCAL 2-4' again, arvelo.py:103), so the whole batch
   * is rolled back.
   */
  lemma SeedingEmptyTableAborts()
    ensures InsertAll(map[], CargarDatosIniciales()) == None
  {
    SeedRepeatsCodes();
    InsertAllSucceeds(map[], CargarDatosIniciales());
  }

  // ---------------------------------------------------------------------
  // A seed with one row per code

  /** `x` is the first row of `rows` that carries its code. */
  ghost predicate FirstOfItsCode(rows: seq<Local>, x: Local) {
    exists i :: 0 <= i < |rows| && rows[i] == x && forall k :: 0 <= k < i ==> rows[k].numeroLocal != x.numeroLocal
  }

  /** `r` is `s` with some rows left out and the others kept in their order. */
  predicate Subsequence(r: seq<Local>, s: seq<Local>)
    decreases |s|
  {
    || r == []
    || (&& s != []
        && ((r[|r| - 1] == s[|s| - 1] && Subsequence(r[..|r| - 1], s[..|s| - 1]))
            || Subsequence(r, s[..|s| - 1])))
  }

  /**
   * The rows of `rows`, in order, without those whose code an earlier row
   * already used (what INSERT OR IGNORE would store).
   */
  function FirstPerCode(rows: seq<Local>): (r: seq<Local>)
    ensures Subsequence(r, rows)
    ensures DistinctCodes(r)
    ensures Codes(r) == Codes(rows)
    ensures forall j :: 0 <= j < |r| ==> FirstOfItsCode(rows, r[j])
    decreases |rows|
  {
    if rows == [] then []
    else
      var init := rows[..|rows| - 1];
      var last := rows[|rows| - 1];
      var rest := FirstPerCode(init);
      FirstPerCodeStep(rows, init, last, rest);
      SubsequenceSnoc(rows, rest, init, last);
      if last.numeroLocal in Codes(rest) then rest else rest + [last]
  }

  /** Keeping or dropping a new last row keeps a subsequence one. */
  lemma SubsequenceSnoc(rows: seq<Local>, r: seq<Local>, s: seq<Local>, x: Local)
    requires rows != [] && s == rows[..|rows| - 1] && x == rows[|rows| - 1]
    requires Subsequence(r, s)
    ensures Subsequence(r, rows) && Subsequence(r + [x], rows)
  {
    assert (r + [x])[..|r|] == r;
  }

  lemma CodesSnoc(s: seq<Local>, x: Local)
    ensures Codes(s + [x]) == Codes(s) + {x.numeroLocal}
  {
    var t := s + [x];
    assert t[|s|] == x;
    forall c | c in Codes(t) ensures c in Codes(s) + {x.numeroLocal} {
      var i :| 0 <= i < |t| && t[i].numeroLocal == c;
      if i < |s| { assert t[i] == s[i]; }
    }
    forall c | c in Codes(s) ensures c in Codes(t) {
      var i :| 0 <= i < |s| && s[i].numeroLocal == c;
      assert t[i] == s[i];
    }
  }

  lemma DistinctSnoc(s: seq<Local>, x: Local)
    requires DistinctCodes(s) && x.numeroLocal !in Codes(s)
    ensures DistinctCodes(s + [x])
  {
    var t := s + [x];
    forall i, j | 0 <= i < j < |t| ensures t[i].numeroLocal != t[j].numeroLocal {
      assert t[i] == s[i];
      if j < |s| { assert t[j] == s[j]; } else { assert s[i].numeroLocal in Codes(s); }
    }
  }

  lemma FirstOfItsCodeExtends(init: seq<Local>, last: Local, x: Local)
    requires FirstOfItsCode(init, x)
    ensures FirstOfItsCode(init + [last], x)
  {
    var rows := init + [last];
    var i :| 0 <= i < |init| && init[i] == x && forall k :: 0 <= k < i ==> init[k].numeroLocal != x.numeroLocal;
    assert rows[i] == init[i];
    assert forall k :: 0 <= k < i ==> rows[k] == init[k];
  }

  lemma FirstOfItsCodeLast(init: seq<Local>, last: Local)
    requires last.numeroLocal !in Codes(init)
    ensures FirstOfItsCode(init + [last], last)
  {
    var rows := init + [last];
    assert rows[|init|] == last;
    forall k | 0 <= k < |init| ensures rows[k].numeroLocal != last.numeroLocal {
      assert rows[k] == init[k];
      assert init[k].numeroLocal in Codes(init);
    }
  }

  lemma FirstPerCodeStep(rows: seq<Local>, init: seq<Local>, last: Local, rest: seq<Local>)
    requires rows != [] && init == rows[..|rows| - 1] && last == rows[|rows| - 1]
    requires DistinctCodes(rest) && Codes(rest) == Codes(init)
    requires forall j :: 0 <= j < |rest| ==> FirstOfItsCode(init, rest[j])
    ensures var r := if last.numeroLocal in Codes(rest) then rest else rest + [last];
      && DistinctCodes(r)
      && Codes(r) == Codes(rows)
      && forall j :: 0 <= j < |r| ==> FirstOfItsCode(rows, r[j])
  {
    assert rows == init + [last];
    CodesSnoc(init, last);
    forall j | 0 <= j < |rest| ensures FirstOfItsCode(rows, rest[j]) {
      FirstOfItsCodeExtends(init, last, rest[j]);
    }
    if last.numeroLocal !in Codes(rest) {
      var r := rest + [last];
      CodesSnoc(rest, last);
      DistinctSnoc(rest, last);
      FirstOfItsCodeLast(init, last);
      forall j | 0 <= j < |r| ensures FirstOfItsCode(rows, r[j]) {
        if j < |rest| { assert r[j] == rest[j]; } else { assert r[j] == last; }
      }
    }
  }

  /**
   * Corrected seed: one row per code, the first one listed. Inserting it
   * into an empty table commits, and every code of the list gets a unit.
   */
  lemma CorrectedSeedingSucceeds()
    ensures var s := FirstPerCode(CargarDatosIniciales());
      && InsertAll(map[], s).Some?
      && InsertAll(map[], s).value.Keys == Codes(CargarDatosIniciales())
      && LocalesOk(InsertAll(map[], s).value)
  {
    var seed := CargarDatosIniciales();
    var s := FirstPerCode(seed);
    SeedRentsNonNegative();
    forall j | 0 <= j < |s| ensures s[j].montoAlquiler >= 0.0 {
      assert FirstOfItsCode(seed, s[j]);
      var i :| 0 <= i < |seed| && seed[i] == s[j] && forall k :: 0 <= k < i ==> seed[k].numeroLocal != s[j].numeroLocal;
      assert seed[i] in seed;
    }
    InsertAllSucceeds(map[], s);
    InsertAllContents(map[], s);
    InsertAllKeepsConstraints(map[], s);
  }
}
