# Clinic scheduling core, modelled in Dafny

This project models the scheduling core of a clinic back end.

- Doctors publish time-window templates (`disponibilidad_horaria`).
- Templates are copied into bookable slots (`agenda_detalle`) under one schedule per doctor and day (`agenda_cabecera`).
- Appointments (`cita_detalle`, grouped under a `cita_cabecera`) consume and release slot capacity.
- Whether an appointment status holds a unit of capacity is decided by the fixed flag `estado_cita.ocupa_cupo`.

A separate, self-contained part models the consulting-office validators:

- Paraguayan phone normalisation;
- the phone and e-mail patterns;
- the ordered field checks;
- the case-insensitive duplicate check.

The store is one object, `Rows.Database`:

- every table is a `map` from serial id to row;
- every serial counter starts at 1;
- the status table is two constants: `estadoExiste: int -> bool` (the `estado_cita` rows) and `ocupaCupo: int -> bool` (their `ocupa_cupo` flag), and only a status with a row occupies.

The DAO methods are Dafny methods over that object. Each one:

- has a frame that names the tables it changes;
- is proved equal to value-level functions;
- keeps the invariants of its table.

The central invariant is `Libro.LibroCuadra`. It says that on every live slot the remaining count is non-negative and equals the maximum minus the number of appointments on that slot whose status occupies capacity. Every `CitaDao` operation, and every slot and schedule operation, preserves it. The slot creations (`GuardarDetalle`, `GuardarDetallesMultiples`, `AddDetalles`) preserve it only for templates with capacity >= 0, because the DAO accepts a negative one. The single exception is the administrative capacity override, which is proved to break it.

Modules, one per source file:

| module | file | source |
|---|---|---|
| `Rows` | rows.dfy | the tables, as rows and the store |
| `Libro` | ledger.dfy | the capacity ledger of `CitaDao.py` on values |
| `CitaDao` | cita_dao.dfy | `app/dao/referenciales_agendamiento/cita/CitaDao.py` |
| `AgendaDetalleDao` | agenda_detalle_dao.dfy | `app/dao/referenciales_agendamiento/agenda/AgendaDetalleDao.py` |
| `AgendaCabeceraDao` | agenda_cabecera_dao.dfy | `app/dao/referenciales_agendamiento/agenda/AgendaCabeceraDao.py` |
| `DisponibilidadHorariaDao` | disponibilidad_dao.dfy | `app/dao/referenciales_agendamiento/disponibilidad_horaria/DisponibilidadHorariaDao.py` |
| `AgendaApi` | agenda_api.dfy | `app/rutas/modulo_agendamiento/agenda/agenda_api.py` |
| `Texto` | texto.dfy | the Python string operations used by the office validators |
| `Validadores` | validadores.dfy | the phone and e-mail validators shared by `ConsultorioDao.py` and `consultorio_api.py` |
| `ConsultorioDao` | consultorio_dao.dfy | `app/dao/referenciales_agendamiento/consultorio/ConsultorioDao.py` |
| `ConsultorioApi` | consultorio_api.dfy | `app/rutas/modulo_agendamiento/consultorio/consultorio_api.py` |

Where the code is weaker than one would expect, the model follows the code:

- **Zero capacity.** Creating an appointment on a slot with no units left is refused whatever the status. One would expect a refusal only for an occupying status.
- **Deleting a missing appointment.** It returns `False` and releases nothing. One would expect an idempotent success.
- **Release has no ceiling.** It can push the remaining count above the maximum (`Libro.SumarSinTope`).
- **Deleting a schedule.** It releases no capacity. The foreign-key cascade drops the schedule's slots. Under the model's assumption about the appointment-to-slot key (see "## Left out"), appointments on those slots are left in place, and the ledger still holds because it ranges over live slots.
- **Template checks.** The template DAO checks neither `cupos >= 1` nor `inicio < fin`; it checks overlap only. Every refusal is `False`, not a distinct conflict outcome.

## Model

| member | source | states |
|---|---|---|
| Libro.Restar | app/dao/referenciales_agendamiento/cita/CitaDao.py:41-49 | consume: a slot with more than 0 left loses exactly one unit; its status becomes Agotado exactly when the count reaches 0 and is otherwise kept; nothing else in the slot or in other slots changes; with 0 left (or no slot) the table is unchanged |
| Libro.Sumar | app/dao/referenciales_agendamiento/cita/CitaDao.py:82-86 | release: an existing slot gains one unit and becomes Disponible, with no ceiling; a missing slot leaves the table unchanged |
| Libro.CuposAcotados | app/dao/referenciales_agendamiento/cita/CitaDao.py:36-113 | under the ledger every live slot has 0 <= remaining <= maximum, and remaining == maximum iff no occupying appointment is on it |
| Libro.VacioCuadra | app/dao/referenciales_agendamiento/cita/CitaDao.py:36-113 | the empty store (empty tables, every serial at 1) keeps the ledger for any status policy, so the ledger holds from the start |
| Libro.OcupandoInsertar | app/dao/referenciales_agendamiento/cita/CitaDao.py:504-531 | inserting an appointment adds exactly its own mark to the occupying count of each slot |
| Libro.OcupandoReemplazar | app/dao/referenciales_agendamiento/cita/CitaDao.py:601-637 | rewriting an appointment changes each slot's occupying count by the new mark minus the old one |
| Libro.OcupandoQuitar | app/dao/referenciales_agendamiento/cita/CitaDao.py:331-349 | removing a set of appointments lowers each slot's occupying count by exactly the occupying ones removed from it |
| Libro.GuardarCuadra | app/dao/referenciales_agendamiento/cita/CitaDao.py:496-531 | a create that passed the probe keeps the ledger: the new row occupies a unit exactly where one is consumed |
| Libro.Decidir | app/dao/referenciales_agendamiento/cita/CitaDao.py:586-637 | update decision table: the target slot is probed exactly when a unit will be consumed there; the old slot is released only if the old status occupied; a unit is consumed only if the new status occupies; same slot with equal flags moves nothing |
| Libro.DecidirEquilibra | app/dao/referenciales_agendamiento/cita/CitaDao.py:616-637 | on every slot, the units the plan consumes minus those it releases equal the change in that slot's occupancy, for all eight (old flag, new flag, moved) cases |
| Libro.ActualizarCuadra | app/dao/referenciales_agendamiento/cita/CitaDao.py:586-637 | an update that passed its probe keeps the ledger |
| Libro.EliminarCuadra | app/dao/referenciales_agendamiento/cita/CitaDao.py:662-682 | deleting an appointment and releasing its unit iff it occupied keeps the ledger |
| Libro.LiberarTodos | app/dao/referenciales_agendamiento/cita/CitaDao.py:338-341 | the slot table after the release loop over a set of appointments: each slot gains one unit per occupying appointment on it, and no slot is added or removed; `LiberarUnoMas` and `LiberarNada` give it as a fold |
| Libro.LiberarUnoMas | app/dao/referenciales_agendamiento/cita/CitaDao.py:331-343 | one more appointment processed by the cascade loop adds exactly its release to the released table |
| Libro.CascadaCuadra | app/dao/referenciales_agendamiento/cita/CitaDao.py:331-349 | releasing one unit per occupying appointment of a set, then removing that set, keeps the ledger |
| Libro.NuevaFilaCuadra | app/dao/referenciales_agendamiento/agenda/AgendaDetalleDao.py:137-168 | a fresh slot with remaining == maximum >= 0 keeps the ledger, because no occupying appointment points at an id not yet handed out |
| Libro.RestarSumarRestaura | app/dao/referenciales_agendamiento/cita/CitaDao.py:522-531 | consume followed by release restores the slot's remaining count; only its status becomes Disponible |
| Libro.SumarSinTope | app/dao/referenciales_agendamiento/cita/CitaDao.py:77-113 | release on a full slot pushes the remaining count above the maximum |
| CitaDao.VerificarCuposDisponibles | app/dao/referenciales_agendamiento/cita/CitaDao.py:115-139 | the probe reads the slot's remaining count, and 0 for a slot that does not exist |
| CitaDao.RestarCupoAgendaDetalle | app/dao/referenciales_agendamiento/cita/CitaDao.py:36-75 | the slot table becomes `Restar` of the old one; the result is true iff a unit was left |
| CitaDao.SumarCupoAgendaDetalle | app/dao/referenciales_agendamiento/cita/CitaDao.py:77-113 | the slot table becomes `Sumar` of the old one; the result is false only for a missing slot |
| CitaDao.GuardarCitaCabecera | app/dao/referenciales_agendamiento/cita/CitaDao.py:274-299 | inserts the header under the next serial and returns it; a taken key fails with nothing changed; the ledger is kept |
| CitaDao.GuardarCitaDetalle | app/dao/referenciales_agendamiento/cita/CitaDao.py:475-545 | remaining <= 0 gives SIN_CUPOS with no write, whatever the status; a missing header fails with nothing changed; otherwise the row is inserted and one unit is consumed iff the status occupies; the ledger is kept |
| CitaDao.Encontrada | app/dao/referenciales_agendamiento/cita/CitaDao.py:432-473 | `getDetalleById` finds an appointment only when its row exists and its status has an `estado_cita` row (the INNER JOIN at line 446) |
| CitaDao.UpdateCitaDetalle | app/dao/referenciales_agendamiento/cita/CitaDao.py:547-650 | an appointment not found by `getDetalleById` (unknown id, or a status with no `estado_cita` row) gives False and no change; a failed probe gives SIN_CUPOS and no change; otherwise the row is rewritten (same header) and the slots follow the decision table; the ledger is kept |
| CitaDao.DeleteCitaDetalle | app/dao/referenciales_agendamiento/cita/CitaDao.py:652-694 | true iff `getDetalleById` finds the appointment (it exists and its status has an `estado_cita` row); otherwise nothing changes; otherwise one unit goes back to its slot iff its status occupied, and the row is removed; the ledger is kept |
| CitaDao.CascadaConserva | app/dao/referenciales_agendamiento/cita/CitaDao.py:324-356 | the header cascade keeps the whole ledger; a missing header has no appointments, so nothing is released |
| CitaDao.LiberarCupos | app/dao/referenciales_agendamiento/cita/CitaDao.py:331-343 | the release loop over the header's appointments leaves the slot table equal to `LiberarTodos`: one unit back on its own slot for each occupying appointment, nothing for the others |
| CitaDao.DeleteCitaCabecera | app/dao/referenciales_agendamiento/cita/CitaDao.py:324-356 | releases one unit per occupying appointment of the header, each on its own slot, with non-occupying ones untouched; then deletes the header and, by cascade, its appointments; true iff the header existed; the ledger is kept |
| AgendaDetalleDao.ExisteDetalle | app/dao/referenciales_agendamiento/agenda/AgendaDetalleDao.py:107-125 | the (schedule, template) probe: some slot of the schedule already copies the template; `MaterializarUnico` proves that a create guarded by it never duplicates a pair |
| AgendaDetalleDao.NuevoDetalle | app/dao/referenciales_agendamiento/agenda/AgendaDetalleDao.py:137-166 | a new slot copies the template's day, shift and times, starts with remaining == maximum == the template's capacity, and is Disponible |
| AgendaDetalleDao.Materializar | app/dao/referenciales_agendamiento/agenda/AgendaDetalleDao.py:127-177 | nothing is created iff the (schedule, template) pair already exists, the schedule is missing, or the next key is taken; otherwise exactly the new slot is added under the next serial |
| AgendaDetalleDao.MaterializarUnico | app/dao/referenciales_agendamiento/agenda/AgendaDetalleDao.py:133-135 | no template is materialised twice into one schedule, and afterwards the pair exists |
| AgendaDetalleDao.VacioUnDetallePorPar | app/dao/referenciales_agendamiento/agenda/AgendaDetalleDao.py:107-125 | the empty slot table holds no (schedule, template) pair twice |
| AgendaDetalleDao.MaterializarCuadra | app/dao/referenciales_agendamiento/agenda/AgendaDetalleDao.py:127-177 | a new slot from a template with capacity >= 0 keeps the ledger |
| AgendaDetalleDao.GuardarDetalle | app/dao/referenciales_agendamiento/agenda/AgendaDetalleDao.py:127-177 | the tables become those of `Materializar` and the id is returned; pair uniqueness is kept, and so is the ledger when the capacity is >= 0 |
| AgendaDetalleDao.Publicar | app/dao/referenciales_agendamiento/agenda/AgendaDetalleDao.py:179-195 | the batch loop as a fold over the items in input order, where no item stops the others; `PublicarCuenta`, `PublicarConserva`, `PublicarCompleta` and `PublicarMonotona` state what it promises |
| AgendaDetalleDao.PublicarCuenta | app/dao/referenciales_agendamiento/agenda/AgendaDetalleDao.py:179-195 | in a batch every item ends up exactly once, either as a created id or as an error |
| AgendaDetalleDao.PublicarConserva | app/dao/referenciales_agendamiento/agenda/AgendaDetalleDao.py:179-195 | a batch keeps pair uniqueness, creates fresh, distinct, increasing ids, and leaves earlier slots untouched |
| AgendaDetalleDao.PublicarCompleta | app/dao/referenciales_agendamiento/agenda/AgendaDetalleDao.py:179-195 | after a batch into an existing schedule, every template given is materialised in it (partial success: failures do not stop the rest) |
| AgendaDetalleDao.PublicarMonotona | app/dao/referenciales_agendamiento/agenda/AgendaDetalleDao.py:179-195 | existing slots survive a batch and the serial never goes back |
| AgendaDetalleDao.GuardarDetallesMultiples | app/dao/referenciales_agendamiento/agenda/AgendaDetalleDao.py:179-195 | the loop's result is the fold `Publicar` over the templates in order; False (None) iff no id was created; keeps uniqueness and the ledger |
| AgendaDetalleDao.DeleteDetalle | app/dao/referenciales_agendamiento/agenda/AgendaDetalleDao.py:197-214 | removes only the given slot, reports whether it existed, and keeps the ledger |
| AgendaDetalleDao.FijarCupos | app/dao/referenciales_agendamiento/agenda/AgendaDetalleDao.py:216-226 | the override sets the remaining count, Agotado iff it is 0 and Disponible otherwise; the maximum and the other columns are kept |
| AgendaDetalleDao.ActualizarCuposDisponibles | app/dao/referenciales_agendamiento/agenda/AgendaDetalleDao.py:216-241 | overwrites exactly the given slot with `FijarCupos`; false and no change for a missing slot |
| AgendaDetalleDao.FijarCuposRompe | app/dao/referenciales_agendamiento/agenda/AgendaDetalleDao.py:216-241 | any override value other than the current count breaks the ledger |
| AgendaDetalleDao.CambiarEstadoDetalle | app/dao/referenciales_agendamiento/agenda/AgendaDetalleDao.py:243-259 | sets only the status of the given slot, reports whether it existed, and keeps the ledger |
| AgendaCabeceraDao.ExisteCabecera | app/dao/referenciales_agendamiento/agenda/AgendaCabeceraDao.py:98-125 | the one-schedule-per-day probe: some schedule of the doctor on the date other than `excluir` when that is truthy |
| AgendaCabeceraDao.ExisteCabeceraExcluye | app/dao/referenciales_agendamiento/agenda/AgendaCabeceraDao.py:110-112 | the exclusion leaves out exactly the edited row and only for a truthy id; the id 0 excludes nothing |
| AgendaCabeceraDao.SinOtraConserva | app/dao/referenciales_agendamiento/agenda/AgendaCabeceraDao.py:98-125 | storing a schedule when no other row has its (doctor, date) keeps one schedule per doctor per day |
| AgendaCabeceraDao.VaciaUnaPorDia | app/dao/referenciales_agendamiento/agenda/AgendaCabeceraDao.py:98-125 | the empty schedule table holds one schedule per doctor per day and a valid serial |
| AgendaCabeceraDao.ReguardarPropio | app/dao/referenciales_agendamiento/agenda/AgendaCabeceraDao.py:156-183 | re-saving a schedule under its own doctor and date never conflicts with itself |
| AgendaCabeceraDao.GuardarCabecera | app/dao/referenciales_agendamiento/agenda/AgendaCabeceraDao.py:127-154 | a second schedule for the doctor on the date is refused with no change; otherwise the row is inserted under the next serial; one schedule per day is kept |
| AgendaCabeceraDao.UpdateCabecera | app/dao/referenciales_agendamiento/agenda/AgendaCabeceraDao.py:156-183 | true iff the row exists and no other row has the (doctor, date); the uniqueness check leaves out the edited row; one schedule per day is kept |
| AgendaCabeceraDao.DeleteCabecera | app/dao/referenciales_agendamiento/agenda/AgendaCabeceraDao.py:185-205 | removes the schedule and, by cascade, exactly its slots; touches no appointment and releases nothing; keeps uniqueness and the ledger |
| AgendaCabeceraDao.CambiarEstado | app/dao/referenciales_agendamiento/agenda/AgendaCabeceraDao.py:207-222 | sets only the schedule's status and reports whether it existed |
| DisponibilidadHorariaDao.Solapan | app/dao/referenciales_agendamiento/disponibilidad_horaria/DisponibilidadHorariaDao.py:94 | the SQL overlap test `NOT (fin <= inicio' OR inicio >= fin')` as written; `SolapanSiComparten` gives its meaning |
| DisponibilidadHorariaDao.ExisteDisponibilidad | app/dao/referenciales_agendamiento/disponibilidad_horaria/DisponibilidadHorariaDao.py:88-112 | the overlap probe: a template of the same doctor and date that overlaps the window, other than `excluir` when that is truthy |
| DisponibilidadHorariaDao.ExisteDisponibilidadExcluye | app/dao/referenciales_agendamiento/disponibilidad_horaria/DisponibilidadHorariaDao.py:97-99 | the exclusion leaves out exactly the edited template and only for a truthy id; the id 0 excludes nothing |
| DisponibilidadHorariaDao.SolapanSiComparten | app/dao/referenciales_agendamiento/disponibilidad_horaria/DisponibilidadHorariaDao.py:88-95 | for non-empty windows the SQL test `NOT (fin <= inicio' OR inicio >= fin')` holds iff some minute lies in both half-open windows |
| DisponibilidadHorariaDao.SolapanSimetrico | app/dao/referenciales_agendamiento/disponibilidad_horaria/DisponibilidadHorariaDao.py:88-95 | the overlap test is symmetric, and windows that only touch do not overlap |
| DisponibilidadHorariaDao.SinConflictoConserva | app/dao/referenciales_agendamiento/disponibilidad_horaria/DisponibilidadHorariaDao.py:88-112 | a window that passes the check with its own id excluded can be stored without creating an overlap |
| DisponibilidadHorariaDao.VaciaSinSolapes | app/dao/referenciales_agendamiento/disponibilidad_horaria/DisponibilidadHorariaDao.py:88-112 | the empty template table has no overlapping windows and a valid serial |
| DisponibilidadHorariaDao.SinConflictoReemplazo | app/dao/referenciales_agendamiento/disponibilidad_horaria/DisponibilidadHorariaDao.py:114-139 | a window that conflicts with no stored row can be stored under any id |
| DisponibilidadHorariaDao.GuardarDisponibilidad | app/dao/referenciales_agendamiento/disponibilidad_horaria/DisponibilidadHorariaDao.py:114-139 | an overlapping window is refused with no change; otherwise it is inserted under the next serial; no-overlap and the serial invariant are kept |
| DisponibilidadHorariaDao.UpdateDisponibilidad | app/dao/referenciales_agendamiento/disponibilidad_horaria/DisponibilidadHorariaDao.py:141-166 | true iff the row exists and no other row overlaps (the edited row is excluded); no-overlap is kept |
| DisponibilidadHorariaDao.ReguardarSinCambios | app/dao/referenciales_agendamiento/disponibilidad_horaria/DisponibilidadHorariaDao.py:141-166 | re-saving a template unchanged never conflicts with itself |
| DisponibilidadHorariaDao.DeleteDisponibilidad | app/dao/referenciales_agendamiento/disponibilidad_horaria/DisponibilidadHorariaDao.py:168-185 | removes only the given template and reports whether it existed |
| DisponibilidadHorariaDao.Primero | app/dao/referenciales_agendamiento/disponibilidad_horaria/DisponibilidadHorariaDao.py:187-230 | a non-empty set of templates has one starting no later than all others |
| DisponibilidadHorariaDao.OrdenarPorInicio | app/dao/referenciales_agendamiento/disponibilidad_horaria/DisponibilidadHorariaDao.py:187-230 | ORDER BY start time: a listing of exactly the given ids, as long as the set |
| DisponibilidadHorariaDao.OrdenadoPorInicio | app/dao/referenciales_agendamiento/disponibilidad_horaria/DisponibilidadHorariaDao.py:187-230 | that listing holds each id once and is sorted by start time |
| DisponibilidadHorariaDao.GetDisponibilidadesPorMedicoFecha | app/dao/referenciales_agendamiento/disponibilidad_horaria/DisponibilidadHorariaDao.py:187-230 | exactly the doctor's templates on the date, each once, sorted by start time |
| AgendaApi.Consultar | app/rutas/modulo_agendamiento/agenda/agenda_api.py:219-224 | pairs each requested id, in order, with the template found for it, or with none |
| AgendaApi.Responder | app/rutas/modulo_agendamiento/agenda/agenda_api.py:234-249 | 201 with the created ids, their count and the errors (null when none) when something was created, otherwise 400 with every error; `RespuestaCuenta` states what it promises |
| AgendaApi.RespuestaCuenta | app/rutas/modulo_agendamiento/agenda/agenda_api.py:234-249 | success iff something was created; the count equals the created ids; errors are null iff none; every requested id is reported once |
| AgendaApi.PublicarIds | app/rutas/modulo_agendamiento/agenda/agenda_api.py:217-232 | the loop over the requested ids, each looked up and published in order, is the fold `Publicar`; uniqueness and the ledger are kept |
| AgendaApi.AddDetalles | app/rutas/modulo_agendamiento/agenda/agenda_api.py:197-253 | a missing, non-list or empty id list gives 400 and a missing schedule gives 404, both with no change; otherwise the loop is the fold `Publicar` and the response is built from it; uniqueness and the ledger are kept |
| AgendaApi.ActualizarCupos | app/rutas/modulo_agendamiento/agenda/agenda_api.py:272-293 | a missing, non-numeric or negative value gives 400 and any other conversion error 500, both with no change; otherwise the override is applied, 404 for a missing slot |
| Validadores.NormalizarTelefono | app/dao/referenciales_agendamiento/consultorio/ConsultorioDao.py:10-35 | empty input gives None; otherwise the result starts with "595" and holds no space or '-' |
| Validadores.SoloCuentaLimpio | app/dao/referenciales_agendamiento/consultorio/ConsultorioDao.py:21-22 | the result depends on the input only through its stripped, space- and dash-free form |
| ConsultorioDao.EjemploLocal | app/dao/referenciales_agendamiento/consultorio/ConsultorioDao.py:13-14 | "0981234567" normalises to "595981234567" |
| ConsultorioDao.EjemploSinCero | app/dao/referenciales_agendamiento/consultorio/ConsultorioDao.py:15 | "981234567" normalises to "595981234567" |
| ConsultorioDao.EjemploInternacional | app/dao/referenciales_agendamiento/consultorio/ConsultorioDao.py:16 | "+595981234567" normalises to "595981234567" |
| ConsultorioDao.EjemploConEspacios | app/rutas/modulo_agendamiento/consultorio/consultorio_api.py:18-42 | the API normaliser, whose code is the DAO's, turns "098 123 4567" into "595981234567" |
| Validadores.NormalizarIdempotente | app/dao/referenciales_agendamiento/consultorio/ConsultorioDao.py:21-35 | normalising a normalised number changes nothing, provided it does not end in whitespace |
| Validadores.NormalizarNoIdempotente | app/dao/referenciales_agendamiento/consultorio/ConsultorioDao.py:21-35 | without that proviso it fails: for digits d and a whitespace character w other than a space, "0" + d + w + "-" normalises to "595" + d + w, which normalises again to "595" + d; "0981\n-" is one such input |
| Validadores.EsTelefonoParaguayoValido | app/dao/referenciales_agendamiento/consultorio/ConsultorioDao.py:37-44 | a falsy phone is invalid, otherwise the pattern `^595\d{8,9}$` with Python's trailing-newline allowance; `ValidoSiPatron` characterises it |
| Validadores.LocalValido | app/dao/referenciales_agendamiento/consultorio/ConsultorioDao.py:29-44 | "0" followed by 8 or 9 digits normalises to "595" and those digits, which is a valid phone |
| Validadores.ValidoSiPatron | app/dao/referenciales_agendamiento/consultorio/ConsultorioDao.py:37-44 | without a trailing newline, a phone is valid iff it is "595" followed by exactly 8 or 9 digits |
| ConsultorioDao.NuevaLineaFinalAceptada | app/dao/referenciales_agendamiento/consultorio/ConsultorioDao.py:44 | Python's `$` lets one trailing newline through: "595981234567\n" is valid |
| Validadores.EsCorreoValido | app/dao/referenciales_agendamiento/consultorio/ConsultorioDao.py:46-52 | a falsy address is invalid, otherwise the pattern `^[\w.-]+@[\w.-]+\.\w+$` with the trailing-newline allowance, shared with `validar_correo` in consultorio_api.py:13-15 |
| Validadores.CorreoUnaArroba | app/dao/referenciales_agendamiento/consultorio/ConsultorioDao.py:46-52 | a valid e-mail contains exactly one '@' |
| ConsultorioDao.EjemploCorreo | app/rutas/modulo_agendamiento/consultorio/consultorio_api.py:13-15 | the e-mail pattern, shared by `validar_correo`, accepts "info@consultorio.com" |
| ConsultorioDao.ValidarCampos | app/dao/referenciales_agendamiento/consultorio/ConsultorioDao.py:180-194 | no failure iff the stripped name has >= 3 characters, the stripped address >= 5, the e-mail is valid and the normalised phone is valid; the first failing field in the order name, address, e-mail, phone is reported, each iff the earlier checks passed and its own failed |
| ConsultorioDao.Fila | app/dao/referenciales_agendamiento/consultorio/ConsultorioDao.py:192-209 | the stored row holds the stripped name, address and e-mail and the normalised phone |
| ConsultorioDao.ExisteDuplicado | app/dao/referenciales_agendamiento/consultorio/ConsultorioDao.py:54-91 | the duplicate probe: another office whose name or e-mail is equal ignoring case, other than `excluir` when that is truthy |
| ConsultorioDao.ExisteDuplicadoExcluye | app/dao/referenciales_agendamiento/consultorio/ConsultorioDao.py:54-91 | the exclusion leaves out exactly the edited office and only for a truthy code; the code 0 excludes nothing |
| ConsultorioDao.SinChoqueConserva | app/dao/referenciales_agendamiento/consultorio/ConsultorioDao.py:54-91 | storing an office whose name and e-mail clash, ignoring case, with no other office keeps names and e-mails unique |
| ConsultorioDao.SinDuplicadoConserva | app/dao/referenciales_agendamiento/consultorio/ConsultorioDao.py:196-209 | a row that passed the duplicate check (with at most its own code excluded) keeps uniqueness when the checked name and e-mail are the stored, stripped ones |
| ConsultorioDao.VacioSinDuplicados | app/dao/referenciales_agendamiento/consultorio/ConsultorioDao.py:54-91 | the empty office table has no duplicate name or e-mail and a valid serial |
| ConsultorioDao.DuplicadoConEspacios | app/dao/referenciales_agendamiento/consultorio/ConsultorioDao.py:196-209 | the check compares the name as given but stores it stripped: " Sede" passes the check against a stored "Sede" and then collides with it |
| ConsultorioDao.GuardarConsultorio | app/dao/referenciales_agendamiento/consultorio/ConsultorioDao.py:164-220 | the first failing check raises with no change; a duplicate raises with no change; otherwise the stripped and normalised row is inserted under the next serial; uniqueness is kept for stripped input |
| ConsultorioDao.UpdateConsultorio | app/dao/referenciales_agendamiento/consultorio/ConsultorioDao.py:222-282 | the same checks, with the edited office excluded from the duplicate check; False for a missing code; otherwise the row is overwritten; uniqueness is kept for stripped input |
| ConsultorioDao.DeleteConsultorio | app/dao/referenciales_agendamiento/consultorio/ConsultorioDao.py:284-308 | removes only the given office, reports whether it existed, and keeps uniqueness |
| ConsultorioApi.ValidarTelefono | app/rutas/modulo_agendamiento/consultorio/consultorio_api.py:45-50 | `None` raises TypeError; otherwise true iff the phone matches the pattern, and agrees with the DAO's validator on non-empty strings |
| ConsultorioApi.ValidarDatosConsultorio | app/rutas/modulo_agendamiento/consultorio/consultorio_api.py:53-77 | as written: raises exactly when the phone is empty and the earlier checks pass; otherwise (True, None) iff the DAO's checks all pass, and the failing field is the DAO's first failing field |
| ConsultorioApi.TelefonoVacioLanza | app/rutas/modulo_agendamiento/consultorio/consultorio_api.py:72-74 | with a good name, address and e-mail, an empty phone raises |
| ConsultorioApi.EjemploTelefonoVacio | app/rutas/modulo_agendamiento/consultorio/consultorio_api.py:72-74 | the request ("Sede", "Calle 1", "", "info@consultorio.com") raises TypeError |
| ConsultorioApi.ValidarDatosConsultorioCorregido | app/rutas/modulo_agendamiento/consultorio/consultorio_api.py:53-77 | the corrected check never raises |
| ConsultorioApi.CorregidoComoDao | app/rutas/modulo_agendamiento/consultorio/consultorio_api.py:53-77 | the corrected check returns (True, None) iff the DAO raises nothing, and otherwise names the same first failing field as the DAO |
| ConsultorioApi.CorregidoSoloCambiaVacio | app/rutas/modulo_agendamiento/consultorio/consultorio_api.py:53-77 | on every non-empty phone the as-written and corrected checks agree |
| ConsultorioApi.DobleNormalizacion | app/rutas/modulo_agendamiento/consultorio/consultorio_api.py:145-153 | the endpoint normalises the phone and the DAO normalises it again; a phone the API accepted stays valid, and loses at most one trailing newline |

## Left out

- Connections, cursors, commits, rollbacks and logging are left out. Each DAO call is one atomic step on the store.
- Several changes run on separate connections, each with its own commit. Examples: the capacity calls inside update and create, and the appointment UPDATE. A failure between them is not modelled.
- Concurrency is left out, including the check-then-consume race between two bookings. Each operation runs alone.
- Storage faults are left out (the exception paths that log and return `False` or re-raise). The only failed inserts modelled are a taken serial key and the two foreign keys the source names.
- The modelled foreign keys are `agenda_detalle` to `agenda_cabecera` ON DELETE CASCADE and `cita_detalle` to `cita_cabecera` ON DELETE CASCADE. Other constraints of the schema are not part of this model.
- `AgendaCabeceraDao.DeleteCabecera` and `AgendaDetalleDao.DeleteDetalle` assume no foreign key from `cita_detalle.id_agenda_detalle` to `agenda_detalle`. The schema is not part of this model. With a RESTRICT key both deletes would fail on a slot that has appointments, roll back and return `False`. With a CASCADE key those appointments would be deleted too. The model captures neither behaviour.
- `getEstadosQueOcupanCupo` is modelled as the constant `Database.ocupaCupo`, and the rows of `estado_cita` as the constant `Database.estadoExiste`. Its query and its error path (an empty list) are left out.
- `NOW()` timestamps, message texts and HTTP status codes are left out. The status codes appear only as the names of result constructors.
- `Rows.Excluye`: `excluir_id` follows Python truthiness, so `None` and `0` exclude nothing.
- String inputs are `seq<char>`. Python's `None` and `""` are both the empty string, except for the phone passed to `validar_telefono`, which is an `Option`.
- `str.strip`, `\d`, `\w` and SQL `UPPER` are modelled on ASCII. Unicode whitespace, letters and case mapping are not modelled.
- `int()` on the request body is abstracted into the `AgendaApi.Valor` datatype. Only the outcomes the endpoint distinguishes are kept.
- `AgendaDetalleDao.CambiarEstadoDetalle`: the source accepts any string as the status. The model takes the three-valued `EstadoDetalle`.
- `DisponibilidadHorariaDao.OrdenarPorInicio`: ties in `ORDER BY dispo_hora_inicio` are left in an unspecified order. The JOINs with the doctor, day and shift tables are left out.
- `DisponibilidadHorariaDao.GetDisponibilidadesPorMedicoFecha` is a ghost function. It specifies the query's result but cannot be executed.
- Read-only queries outside the core are not part of this model. These are the `get…` listings and by-id lookups. `getDisponibilidadById` and `getCabeceraById` appear only as map lookups.
- `Validadores.NormalizarIdempotente`: normalisation is idempotent only when the result does not end in whitespace. `NormalizarNoIdempotente` shows an input that breaks it.
- `ConsultorioDao.GuardarConsultorio`: uniqueness is guaranteed only when the name and e-mail are already stripped. `DuplicadoConEspacios` shows why.
- `ConsultorioDao.UpdateConsultorio`: uniqueness is guaranteed only when the name and e-mail are already stripped. `DuplicadoConEspacios` shows why.
- `AgendaDetalleDao.GuardarDetalle`: the ledger is kept only for templates with capacity >= 0. The DAO does not reject a negative capacity.
- `AgendaDetalleDao.GuardarDetallesMultiples`: the ledger is kept only when every template has capacity >= 0.
- `AgendaApi.AddDetalles`: the ledger is kept only when every template has capacity >= 0.
- `AgendaDetalleDao.ActualizarCuposDisponibles` does not keep the ledger, and `FijarCuposRompe` proves that it cannot.

## Findings

| source | as written | input that shows it | evidently intended | confidence | as-written member | corrected member |
|---|---|---|---|---|---|---|
| app/rutas/modulo_agendamiento/consultorio/consultorio_api.py:73-74 | an empty phone normalises to `None`, and `validar_telefono(None)` calls `re.match` on `None`, which raises `TypeError` instead of reporting an invalid phone | `validar_datos_consultorio("Sede", "Calle 1", "", "info@consultorio.com")` | report the phone as invalid, like the DAO's `_esTelefonoParaguayoValido`, which returns `False` for a falsy value | not executed; the endpoints reject an empty phone before calling it, so the fault is latent | ConsultorioApi.EjemploTelefonoVacio | ConsultorioApi.CorregidoComoDao |
