# Arvelo rent-payment ledger: a Dafny model

`arvelo.py` records the rent payments of a commercial building's units. The model covers its
core: the two input validators, the `locales`/`pagos` store and the constraints its schema
declares, the bootstrap seeding (`init_db` with `cargar_datos_iniciales`), payment
registration (`registrar_pago`), and the read queries that feed the form and the payment history.

Modules, one per concern:

- `Validation` (`validation.dfy`): `validar_mes_abonado` as its two stages. The first is the
  regular expression, including `$` matching before a final newline. The second is
  `strptime("%Y-%m")`, including its `%m` alternation, "unconverted data remains" and
  year 0 being out of range. `validar_monto` works over `AmountArg`, which stands for what
  `float()` is given.
- `TextOrder` (`text_order.dfy`): the BINARY collation order that SQLite uses for `ORDER BY`
  on TEXT, and the ascending listing of a set of strings.
- `Schema` (`schema.dfy`): the `Local` and `Pago` rows, and the constraints the `locales` and
  `pagos` tables declare. `InsertAll` is what `executemany` does inside one transaction:
  either every row is inserted, or the first violation rolls the whole batch back.
- `Seed` (`seed.dfy`): the 55 seed rows and the duplicate-key finding (below).
- `Ledger` (`ledger.dfy`): the class `Store`. Its fields are `locales` (a map keyed by
  `numero_local`), `pagos` (a sequence in insertion order) and `lastId` (the AUTOINCREMENT
  counter). `Valid()` gathers every table constraint. `InitDb` and `RegistrarPago` commit or
  leave the store unchanged, and `RegistrationCheck` says which check reports first.
- `Queries` (`queries.dfy`): `obtener_inquilinos`, `obtener_locales_por_inquilino` and
  `obtener_monto_alquiler_local` are pure functions over the `locales` map. The history of
  `mostrar_historial_pagos` has two steps. The conditions are built in the order the source
  appends them. Then the matching rows are selected and sorted by `fecha_pago`, latest first,
  and each row gets its unit's `planta` and `ramo_negocio` through the LEFT JOIN.

What the code does not do, and the model therefore leaves out as well:

- The code has no arrears computation, so none is modelled.
- `registrar_pago` returns True/False and reports one message; it does not return a payment id.
- The code never checks the status itself. The table's CHECK rejects a bad status, and the
  insert is then rolled back.
- The table checks `mes_abonado` only with `LIKE '____-__'`, not with the full month pattern.
- The history has no unit filter.
- The history is ordered by `fecha_pago` only, with no tie-break on id.

Values the source gets from outside are parameters. These are the form's inputs, and the seed
list that `init_db` takes from `cargar_datos_iniciales()`. Stopping the session (`st.stop()`)
after a failed bootstrap is the result `ok == false`.

## Model

| member | source | states |
|---|---|---|
| `Validation.MonthPatternMatches` | arvelo.py:37 | the regex stage; a string it passes has four digits, `-` at index 4, and is 7 characters long or 8 with a final newline |
| `Validation.MonthDirective` | arvelo.py:40 | strptime's `%m`: a month it reads is 1 to 12 and uses one or two characters of the input |
| `Validation.StrptimeYearMonth` | arvelo.py:40 | strptime("%Y-%m"); a result is given only for 6 or 7 characters with four digits and `-`, and holds that year (at least MINYEAR) and a month 1 to 12 |
| `Validation.ValidarMesAbonado` | arvelo.py:35-43 | accepts exactly the 7-character strings: four ASCII digits for a year of at least 0001, `-`, then a month 01 to 12; when it accepts, strptime yields that year and month |
| `Validation.MonthAccepted` | arvelo.py:37-43 | regex stage and strptime stage together accept exactly the calendar months above; strptime's result on them is their year and month |
| `Validation.PatternAloneIsLooser` | arvelo.py:37-43 | the regex passes "0000-01" and "2023-01\n"; the validator rejects both (year 0, unconverted newline) and returns False instead of raising |
| `Validation.MonthExamples` | arvelo.py:35-43 | accepts "2023-01" and "2024-12"; rejects "2023-13", "2023-00", "2023-1" and "23-01" |
| `Validation.ToFloat` | arvelo.py:47-50 | `float(monto)`: a value exactly for a numeric argument, and then that number; None stands for the ValueError or TypeError the validator catches |
| `Validation.ValidarMonto` | arvelo.py:45-50 | True exactly when the argument converts to a number greater than 0; a value float() rejects (ValueError) or None (TypeError) gives False |
| `TextOrder.LexLe` | arvelo.py:180 | SQLite's BINARY collation, used by the `ORDER BY` clauses at arvelo.py:180, 194 and 383: a prefix sorts before or equal to any extension, and at the first position where the strings differ the smaller character sorts first |
| `TextOrder.Ascending` | arvelo.py:180 | lists a set of strings once each, strictly ascending in collation order, nothing missing and nothing added |
| `Schema.LikeMonthShape` | arvelo.py:141 | definition of CHECK(mes_abonado LIKE '____-__'): seven characters, the fifth a hyphen (`_` matches any character) |
| `Schema.LocalOk` | arvelo.py:124-131 | definition of an acceptable `locales` row under its key: the key is its `numero_local` and CHECK(monto_alquiler >= 0) holds |
| `Schema.PagoOk` | arvelo.py:133-145 | definition of an acceptable `pagos` row: the month LIKE check, CHECK(monto > 0), the status CHECK, and the FOREIGN KEY into `locales` |
| `Schema.InsertAll` | arvelo.py:153-167 | definition of the `executemany` batch in one transaction: rows inserted in order, and the first taken key or negative rent rolls everything back (None). Its contract: a committed batch keeps every existing row unchanged |
| `Schema.PagosOkMonotone` | arvelo.py:145 | adding units never breaks a payment's foreign key |
| `Schema.InsertAllSucceeds` | arvelo.py:154-167 | the seeding batch commits exactly when its codes are pairwise distinct, none already in the table, and every rent is at least 0 |
| `Schema.InsertAllContents` | arvelo.py:155-159 | a committed batch keeps every existing unit and stores each inserted row under its code; the keys are the old keys plus the batch's codes |
| `Schema.InsertAllKeepsConstraints` | arvelo.py:124-131 | a committed batch leaves every unit stored under its own code with a rent of at least 0 |
| `Seed.CargarDatosIniciales` | arvelo.py:53-112 | the seed list has 55 rows |
| `Seed.SeedRepeatsCodes` | arvelo.py:84-106 | the list repeats 'LOCAL 2-4', 'LOCAL 2-5', 'LOCAL 34' and 'LOCAL 35', each pair on two different floors, so its codes are not distinct |
| `Seed.SeedRentsNonNegative` | arvelo.py:55-110 | every seed rent satisfies CHECK(monto_alquiler >= 0) |
| `Seed.SeedingEmptyTableAborts` | arvelo.py:153-167 | inserting the seed into an empty `locales` table is rolled back: no unit is stored |
| `Seed.FirstPerCode` | arvelo.py:55-112 | keeps the first row for each code: a subsequence of the list (order kept), with distinct codes, the same set of codes, and each kept row the first with its code |
| `Seed.CorrectedSeedingSucceeds` | arvelo.py:153-161 | the seed with one row per code commits into an empty table, storing a unit for every listed code and meeting the constraints |
| `Ledger.ValidMonthFitsCheck` | arvelo.py:141 | a month the validator accepts passes CHECK(mes_abonado LIKE '____-__') |
| `Ledger.RegistrationCheck` | arvelo.py:222-255 | reports the first failing check, in the source's order: a required field empty, bad month, amount not positive, unknown unit, then a status that the table's CHECK rejects; None exactly when all pass |
| `Ledger.Store.Valid` | arvelo.py:123-145 | definition of the tables' invariant: every unit and payment meets its constraints, payment ids ascend in table order and lie between 1 and the AUTOINCREMENT counter |
| `Ledger.Store.constructor` | arvelo.py:123-147 | a new database: both tables empty, every constraint holds |
| `Ledger.Store.InitDb` | arvelo.py:115-172 | with units present it changes nothing and succeeds; with none, it stores exactly what the batch commits, or rolls back to an empty table and stops; payments untouched, constraints kept |
| `Ledger.Store.RegistrarPago` | arvelo.py:217-260 | returns True exactly when no check fails. Then it appends one row holding the arguments, with an id one past the counter and larger than every existing id. Otherwise the table is unchanged. Units are never changed and constraints are kept |
| `Ledger.BootstrapFreshDatabase` | arvelo.py:115-172 | a fresh database bootstrapped with cargar_datos_iniciales() stops with no unit stored |
| `Ledger.BootstrapWithCorrectedSeed` | arvelo.py:153-161 | with the corrected seed the same bootstrap commits one unit per listed code |
| `Queries.ObtenerInquilinos` | arvelo.py:176-184 | `""` followed by every tenant name of the units, each once, strictly ascending, and nothing else |
| `Queries.ObtenerLocalesPorInquilino` | arvelo.py:187-200 | the empty tenant gives `[]`; otherwise exactly that tenant's units, strictly ascending by code, each with its stored rent |
| `Queries.ObtenerMontoAlquilerLocal` | arvelo.py:202-214 | 0.0 for an empty or unknown code, the stored rent otherwise |
| `Queries.SuggestedRentIsListedRent` | arvelo.py:281-301 | the rent suggested for a unit picked from the tenant's list (non-empty code) equals the rent listed with it |
| `Queries.SuggestedRentNonNegative` | arvelo.py:202-214 | under the table's rent CHECK the suggested rent is never negative |
| `Queries.HistoryConditions` | arvelo.py:369-381 | the conditions appended to `WHERE 1=1`: a tenant condition exactly when the tenant filter is not "Todos", a month condition exactly when the month filter is non-empty and a valid month, a status condition exactly when the status filter is not "Todos"; at most three |
| `Queries.Holds` | arvelo.py:371-381 | definition of what one appended `AND p.inquilino = ?`, `AND p.mes_abonado = ?` or `AND p.estado = ?` demands of a payment: that column equals the bound parameter |
| `Queries.HoldsAll` | arvelo.py:365-381 | definition of `WHERE 1=1` followed by the appended conditions: a payment passes exactly when every condition holds of it |
| `Queries.ConditionsMeanFilters` | arvelo.py:369-381 | the conditions appended to the query hold of a payment exactly when it matches tenant (unless "Todos"), month (when non-empty and valid) and status (unless "Todos") |
| `Queries.Selected` | arvelo.py:365-381 | keeps each stored payment satisfying every condition exactly as often as it is stored, and no other |
| `Queries.FechaDescending` | arvelo.py:383 | definition of what `ORDER BY p.fecha_pago DESC` demands of the result: for every earlier row and later row, the later row's `fecha_pago` sorts before or equal to the earlier row's in collation order |
| `Queries.InsertByFecha` | arvelo.py:383 | inserting adds exactly the one payment to the rows |
| `Queries.InsertByFechaSorted` | arvelo.py:383 | inserting into rows ordered latest-date-first keeps them so ordered |
| `Queries.SortByFechaDesc` | arvelo.py:383 | a permutation of its input ordered by `fecha_pago` non-increasing |
| `Queries.LeftJoin` | arvelo.py:353-367 | LEFT JOIN of a payment with its unit: the payment itself, with the unit's `planta` and `ramo_negocio` exactly when its code is a stored unit, and none otherwise |
| `Queries.HistorialPagos` | arvelo.py:353-383 | every payment matching the active filters, as often as stored, and no other; ordered by `fecha_pago` non-increasing; each row carries its unit's planta and ramo_negocio, or none for a missing unit |
| `Queries.UnfilteredHistoryListsAll` | arvelo.py:369-383 | with no filter set the history is a reordering of the whole payment table |
| `Queries.InvalidMonthFilterIgnored` | arvelo.py:375-377 | a non-empty month filter that is not a valid month gives the same history as a blank one |
| `Queries.RegisteredPaymentListed` | arvelo.py:239-246 | a payment just appended appears in the history filtered by its own tenant, month and status |

## Left out

- The Streamlit interface is not modelled: forms, selectboxes, metrics, spinners, `sleep`, reruns, the cache decorators and cache clearing (arvelo.py:263-323, 326-420, 423-468). It is presentation only; `SuggestedRentIsListedRent` states the one fact the form relies on.
- The form's own pre-check (arvelo.py:310-313) only re-runs the validators, so it is not modelled.
- The history's total and average, and its `$` reformatting (arvelo.py:389-417), are formatting over floats and are not modelled.
- The SQLite connection is not modelled: the write-permission check, the PRAGMAs, WAL mode and the connection cache (arvelo.py:11-32). A transaction is modelled as commit-all or change-nothing.
- The query helpers' `except` branches are not modelled. They return `[""]`, `[]` or `0.0` when the database raises (arvelo.py:182-184, 198-200, 212-214), which is I/O failure.
- An unknown unit code is reported after `BEGIN`, and that handler never issues `ROLLBACK` (arvelo.py:232-236, 248-250). The transaction stays open, so the next `BEGIN` on the shared connection fails once. The model only states that the tables are unchanged and does not track the open transaction.
- A failed bootstrap also rolls back the `CREATE TABLE` statements. In the model the tables always exist, and only their contents are rolled back.
- Amounts and rents are `real`. The model leaves out float rounding, NaN and how `float()` parses text. `AmountArg.Numeric` stands for any argument `float()` converts, and `NonNumeric` for any it rejects.
- `\d` in the month pattern also matches non-ASCII digits, but the model accepts ASCII digits only.
- `fecha_pago` is the TEXT SQLite stores for the form's date. Its falsiness is modelled as the empty string, and its order as text order. The column's NUMERIC affinity, which leaves ISO dates as text, is not modelled.
- Queries.HistorialPagos: SQLite leaves the order of equal dates unspecified. The model's sort keeps table order for them, but its contract promises only the date order and the multiset of rows.
- Index creation (arvelo.py:150-151) has no behavioural effect and is not modelled.
- The FOREIGN KEY's `ON DELETE CASCADE` is not modelled, because nothing in the core deletes a unit.
- AUTOINCREMENT's 64-bit limit is not modelled.

## Findings

| source | as written | input that shows it | evidently intended | confidence | as-written member | corrected member |
|---|---|---|---|---|---|---|
| arvelo.py:97-106 | the seed list repeats four primary keys: 'LOCAL 2-4', 'LOCAL 2-5', 'LOCAL 34' and 'LOCAL 35'. Under `numero_local TEXT PRIMARY KEY` (arvelo.py:125), the batch insert (arvelo.py:155-159) fails, is rolled back and stops the application (arvelo.py:163-167) | starting with an empty database: the 48th row, 'LOCAL 2-4' again (arvelo.py:103), violates the key | bootstrapping an empty database stores one unit per listed code | high that seeding aborts; which of two same-code rows was meant is not knowable, and the correction keeps the first; not executed | `Seed.SeedingEmptyTableAborts` | `Seed.CorrectedSeedingSucceeds` |
