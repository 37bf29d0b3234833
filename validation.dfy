/**
 * The two input validators of the payment form: `validar_mes_abonado`
 * (a regular expression, then `datetime.strptime(mes, "%Y-%m")`) and
 * `validar_monto` (`float(monto) > 0`, conversion failures giving False).
 * Digits are ASCII digits.
 */
module Validation {
  import opened Wrappers

  predicate IsDigit(c: char) {
    '0' <= c <= '9'
  }

  function DigitValue(c: char): (d: nat)
    requires IsDigit(c)
    ensures d <= 9
  {
    c as int - '0' as int
  }

  predicate AllDigits(s: string) {
    forall i :: 0 <= i < |s| ==> IsDigit(s[i])
  }

  /** The number a string of decimal digits denotes. */
  function DecimalValue(s: string): nat
    requires AllDigits(s)
    decreases |s|
  {
    if s == [] then 0 else DecimalValue(s[..|s| - 1]) * 10 + DigitValue(s[|s| - 1])
  }

  // ---------------------------------------------------------------------
  // Stage 1: re.match(r"^\d{4}-(0[1-9]|1[0-2])$", mes)

  predicate MonthGroup(a: char, b: char) {
    (a == '0' && '1' <= b <= '9') || (a == '1' && '0' <= b <= '2')
  }

  predicate PatternBody(s: string)
    requires |s| == 7
  {
    AllDigits(s[..4]) && s[4] == '-' && MonthGroup(s[5], s[6])
  }

  /** Without MULTILINE, `$` matches at the end or just before a final newline. */
  predicate MonthPatternMatches(s: string)
    ensures MonthPatternMatches(s) ==> |s| >= 7 && AllDigits(s[..4]) && s[4] == '-'
    ensures MonthPatternMatches(s) ==> |s| == 7 || s[7..] == "\n"
  {
    (|s| == 7 && PatternBody(s)) || (|s| == 8 && PatternBody(s[..7]) && s[7] == '\n')
  }

  // ---------------------------------------------------------------------
  // Stage 2: datetime.strptime(mes, "%Y-%m")

  datatype YearMonth = YearMonth(year: nat, month: nat)

  /** datetime.MINYEAR: a year below it raises ValueError. */
  const MinYear: nat := 1

  /**
   * The `%m` directive, whose pattern is `1[0-2]|0[1-9]|[1-9]`: the first
   * alternative that matches wins. Gives the month and the characters used.
   */
  function MonthDirective(t: string): (r: Option<(nat, nat)>)
    ensures r.Some? ==> 1 <= r.value.0 <= 12 && 1 <= r.value.1 <= 2 && r.value.1 <= |t|
  {
    if |t| >= 2 && t[0] == '1' && '0' <= t[1] <= '2' then Some((10 + DigitValue(t[1]), 2))
    else if |t| >= 2 && t[0] == '0' && '1' <= t[1] <= '9' then Some((DigitValue(t[1]), 2))
    else if |t| >= 1 && '1' <= t[0] <= '9' then Some((DigitValue(t[0]), 1))
    else None
  }

  /**
   * `%Y` takes exactly four digits, `-` is literal, then `%m`; characters
   * left over ("unconverted data remains") or a year below MinYear make it
   * raise ValueError, modelled as None.
   */
  function StrptimeYearMonth(s: string): (r: Option<YearMonth>)
    ensures r.Some? ==> 6 <= |s| <= 7 && AllDigits(s[..4]) && s[4] == '-'
    ensures r.Some? ==> r.value.year == DecimalValue(s[..4]) >= MinYear && 1 <= r.value.month <= 12
  {
    if |s| < 5 || !AllDigits(s[..4]) || s[4] != '-' then None
    else
      match MonthDirective(s[5..])
      case None => None
      case Some((m, n)) =>
        if 5 + n != |s| then None
        else if DecimalValue(s[..4]) < MinYear then None
        else Some(YearMonth(DecimalValue(s[..4]), m))
  }

  // ---------------------------------------------------------------------
  // The validator and what it accepts

  /** Seven characters: a four-digit year from 0001, `-`, a two-digit month 01 to 12. */
  predicate CalendarMonth(s: string) {
    && |s| == 7
    && AllDigits(s[..4]) && s[4] == '-' && AllDigits(s[5..])
    && DecimalValue(s[..4]) >= 1
    && 1 <= DecimalValue(s[5..]) <= 12
  }

  /** validar_mes_abonado: both stages must accept; strptime's ValueError gives False. */
  function ValidarMesAbonado(mes: string): (ok: bool)
    ensures ok <==> CalendarMonth(mes)
    ensures ok ==> StrptimeYearMonth(mes) == Some(YearMonth(DecimalValue(mes[..4]), DecimalValue(mes[5..])))
  {
    MonthAccepted(mes);
    MonthPatternMatches(mes) && StrptimeYearMonth(mes).Some?
  }

  lemma TwoDigits(t: string)
    requires |t| == 2 && AllDigits(t)
    ensures DecimalValue(t) == 10 * DigitValue(t[0]) + DigitValue(t[1])
  {
    var head := t[..1];
    assert t[..|t| - 1] == head && head[..0] == [];
    assert DecimalValue(head) == DigitValue(t[0]);
  }

  lemma MonthAccepted(mes: string)
    ensures (MonthPatternMatches(mes) && StrptimeYearMonth(mes).Some?) <==> CalendarMonth(mes)
    ensures CalendarMonth(mes) ==>
      StrptimeYearMonth(mes) == Some(YearMonth(DecimalValue(mes[..4]), DecimalValue(mes[5..])))
  {
    if |mes| == 7 && AllDigits(mes[..4]) && mes[4] == '-' {
      var t := mes[5..];
      assert t[0] == mes[5] && t[1] == mes[6];
      if AllDigits(t) {
        TwoDigits(t);
      }
      if MonthGroup(mes[5], mes[6]) {
        assert AllDigits(t);
      }
    } else if |mes| == 8 && mes[7] == '\n' {
      assert StrptimeYearMonth(mes).None? by {
        var t := mes[5..];
        if |t| >= 2 && t[0] == '1' && '0' <= t[1] <= '2' {
        } else if |t| >= 2 && t[0] == '0' && '1' <= t[1] <= '9' {
        } else if |t| >= 1 && '1' <= t[0] <= '9' {
          assert t[1] == mes[6];
        }
      }
    }
  }

  /** The stage-1 pattern passes a year 0000 and a final newline; the validator does not. */
  lemma PatternAloneIsLooser()
    ensures MonthPatternMatches("0000-01") && !ValidarMesAbonado("0000-01")
    ensures MonthPatternMatches("2023-01\n") && !ValidarMesAbonado("2023-01\n")
  {
    assert "0000-01"[..4] == "0000";
    DecimalZeros();
    assert "2023-01\n"[..7] == "2023-01";
    assert "2023-01"[..4] == "2023";
  }

  lemma DecimalZeros()
    ensures AllDigits("0000") && DecimalValue("0000") == 0
  {
    assert "0000"[..3] == "000" && "000"[..2] == "00" && "00"[..1] == "0" && "0"[..0] == "";
  }

  lemma MonthExamples()
    ensures ValidarMesAbonado("2023-01") && ValidarMesAbonado("2024-12")
    ensures !ValidarMesAbonado("2023-13") && !ValidarMesAbonado("2023-00")
    ensures !ValidarMesAbonado("2023-1") && !ValidarMesAbonado("23-01")
  {
    assert "2023-01"[..4] == "2023" && "2023-01"[5..] == "01";
    assert "2024-12"[..4] == "2024" && "2024-12"[5..] == "12";
    assert "2023-13"[..4] == "2023" && "2023-13"[5..] == "13";
    assert "2023-00"[..4] == "2023" && "2023-00"[5..] == "00";
    TwoDigits("01"); TwoDigits("12"); TwoDigits("13"); TwoDigits("00");
    assert "2023"[..3] == "202" && "202"[..2] == "20" && "20"[..1] == "2" && "2"[..0] == "";
    assert "2024"[..3] == "202";
  }

  // ---------------------------------------------------------------------
  // validar_monto

  /**
   * What `monto` can be at the call: a value `float()` converts (a number,
   * or text that parses as one), something it raises ValueError on, or None
   * (TypeError).
   */
  datatype AmountArg = Numeric(value: real) | NonNumeric | NoneArg

  /** float(monto), with the two exceptions the validator catches as None. */
  function ToFloat(monto: AmountArg): (r: Option<real>)
    ensures r.Some? <==> monto.Numeric?
    ensures r.Some? ==> r.value == monto.value
  {
    match monto
    case Numeric(v) => Some(v)
    case NonNumeric => None
    case NoneArg => None
  }

  function ValidarMonto(monto: AmountArg): (ok: bool)
    ensures ok <==> monto.Numeric? && monto.value > 0.0
  {
    match ToFloat(monto)
    case Some(v) => v > 0.0
    case None => false
  }
}
