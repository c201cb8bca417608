# KyC web service: enrollment finance and payment verification, in Dafny

This project models the core of the KyC web service, a FastAPI/MongoDB
back end that enrolls students in university courses, prices each
enrollment, records payment vouchers and lets an administrator verify them.
The model covers:

- the enrollment record and its running ledger (total to pay, total paid,
  pending balance) with the balance invariant and the next-payment
  suggestion;
- the course's two price lists (internal and external students) and the
  installment formula;
- the reusable discount (date window, course scope, allow-list, amount);
- the payment voucher and its verification (approve, reject);
- the services that create and update enrollments, payments, discounts and
  courses, approve a payment and credit the ledger, and build a course's
  payment-progress report;
- the request validators of courses and enrollments;
- the access decisions of the API layer.

Money is an exact `real` compared with the source's one-cent tolerance
(`Common.Tolerance`). Identifiers are opaque naturals and timestamps are
opaque integers passed in as parameters. Records whose fields the source
updates in place (`Enrollment`, `Payment`) are classes. Courses, discounts
and students are values that a service replaces in the `Store.Database`
maps when it saves them. Every partial update (`setattr` for every field
the request set) is a loop over the set fields in declaration order. The
loop is proved equal to a "set fields win, the others stay" merge
(`Fusion*`). A query over a whole collection takes the collection in
storage order as a parameter that holds exactly the stored documents. The token decoder and the account lookups
of the API layer are parameters too.

Where a service calls a model method that does not exist or passes the
wrong arguments, the model follows the evident target. Each case is listed
under "Left out".

## Model

| member | source | states |
|---|---|---|
| Enums.EstadoPagoValue | models/enums.py:193-195 | each payment state's stored value reads back as that state, so distinct states have distinct values |
| Enums.ParseEstadoPagoSoloValores | models/enums.py:171-195 | a string reads back as a payment state only when it is that state's stored value; no other string is a payment state |
| Enums.EstadoInscripcionValue | models/enums.py:139-143 | each enrollment state's stored value reads back as that state |
| Enums.ParseEstadoInscripcionSoloValores | models/enums.py:113-143 | only the five stored values read back as enrollment states, each as its own |
| Enums.TipoEstudianteValue | models/enums.py:259-260 | each student type's stored value reads back as that type |
| Enums.ParseTipoEstudianteSoloValores | models/enums.py:228-260 | only "interno" and "externo" read back as student types, each as its own |
| Enums.UserRoleValue | models/enums.py:271-272 | each role's stored value reads back as that role |
| Enums.ParseUserRoleSoloValores | models/enums.py:263-272 | only "admin" and "superadmin" read back as roles, each as its own |
| Enums.PaymentSuccessors | models/enums.py:187-191 | the documented payment workflow: PENDIENTE to APROBADO or RECHAZADO, RECHAZADO back to PENDIENTE, nothing after APROBADO |
| Enums.EnrollmentSuccessors | models/enums.py:133-138 | the documented enrollment flow: PENDIENTE_PAGO to ACTIVO, ACTIVO to COMPLETADO, SUSPENDIDO or CANCELADO |
| Enums.ApprovedIsTerminal | models/enums.py:187-191 | approval is final in the documented flow, and RECHAZADO never leads straight to APROBADO |
| CourseModel.Course.GetCostoTotal | models/course.py:216-226 | the internal total for an internal student, the external one otherwise; positive on a valid course |
| CourseModel.Course.GetMatricula | models/course.py:238-240 | the fee from the same price list; never negative on a valid course |
| CourseModel.Course.CalcularMontoCuota | models/course.py:228-236 | fee plus `cantidadCuotas` installments is the total; defined because there is at least one installment |
| CourseModel.DocumentedInstallmentExample | models/course.py:76-82 | 5000 total, 500 fee and 5 installments give installments of 900 |
| DiscountModel.Discount.EsValidoEnFecha | models/discount.py:168-190 | an inactive discount is never valid; an active one is valid at a date iff the date is inside the window, both ends inclusive, missing ends open |
| DiscountModel.Discount.AplicaACurso | models/discount.py:192-209 | no course scope applies to every course; otherwise exactly to its course |
| DiscountModel.Discount.CalcularDescuento | models/discount.py:211-225 | the discount lies in [0, monto] on a valid discount, what remains is monto scaled by the remaining percentage, and a 0 percentage takes nothing |
| DiscountModel.ValidarFechas | models/discount.py:146-162 | an end strictly before the start is refused; equal dates or a missing bound are accepted and the end is kept |
| DiscountModel.PermanentDiscountIsAlwaysValid | models/discount.py:184-190 | an active discount without dates is valid at every date |
| DiscountModel.WindowContainsItsEnds | models/discount.py:146-190 | a stored active discount is valid on its first and on its last day |
| DiscountModel.DocumentedDiscountExample | models/discount.py:99-104 | 20 percent of 5000 is 1000 |
| EnrollmentModel.SaldoEsperado | models/enrollment.py:157-161 | the expected balance is never negative, is total minus paid when not overpaid and 0 when overpaid |
| EnrollmentModel.ValidarSaldo | models/enrollment.py:153-170 | a balance is accepted, unchanged, iff it is within a cent of the clamped remainder; an overpaid enrollment must carry a balance of at most a cent |
| EnrollmentModel.Validar | models/enrollment.py:61-170 | construction passes exactly when the field bounds hold (positive cost, non-negative fee, at least one installment, discounts in [0,100], non-negative ledger, missing discount and paid total taken as 0) and the balance rule accepts the balance |
| EnrollmentModel.Enrollment.constructor | models/enrollment.py:61-147 | a constructed enrollment is valid, holds the given fields, and defaults the applied course discount and the total paid to 0 and the state to PENDIENTE_PAGO |
| EnrollmentModel.Enrollment.CalcularMontoCuota | models/enrollment.py:176-187 | fee plus `cantidadCuotas` installments is the total to pay; 0 when there are no installments |
| EnrollmentModel.Enrollment.ActualizarSaldo | models/enrollment.py:189-198 | the total paid grows by exactly the amount, the balance becomes the clamped remainder so the invariant holds afterwards, a non-negative amount keeps a valid enrollment valid and never raises the balance, and nothing but the ledger and the update time changes, every other field keeping its value |
| EnrollmentModel.Enrollment.EstaCompletamentePagado | models/enrollment.py:200-202 | fully paid iff the balance is at most a cent; under the invariant it holds once the paid total reaches the total, and only within two cents of it |
| EnrollmentModel.Enrollment.MatriculaPendiente | models/enrollment.py:224-227 | the fee branch is taken exactly when more than a cent of the fee is still owed, and then nothing counts towards the installments |
| EnrollmentModel.Enrollment.PagadoACuotas | models/enrollment.py:236 | the amount paid beyond the fee: paid minus fee once the fee is covered, 0 before; never negative |
| EnrollmentModel.Enrollment.SiguientePago | models/enrollment.py:205-266 | "Pago Completado" exactly when fully paid; the fee while more than a cent of it is owed; otherwise an installment number at most `cantidadCuotas` and at least 1 on a valid enrollment; the fallback is unreachable on a valid enrollment; the only failure is the division by zero when total and fee coincide |
| EnrollmentModel.SiguienteCuotaCubreLoPagado | models/enrollment.py:236-259 | when the total exceeds the fee, installment k is suggested exactly when k - 1 installments are covered by what was paid beyond the fee (and k not, below the last), asking for one installment, or the balance for the last |
| EnrollmentModel.CuotasPagadasBracket | models/enrollment.py:243 | the truncated count of whole installments covered brackets the amount paid |
| EnrollmentSchema.ValidarEnrollmentCreate | schemas/enrollment.py:51-56 | the creation request passes iff its optional personal discount lies in [0,100] |
| EnrollmentSchema.ValidarEnrollmentUpdate | schemas/enrollment.py:128-151 | as written: bounds on every set field; a supplied balance fails on None arithmetic unless both totals are supplied, and otherwise passes iff within a cent of total minus paid, with no clamp |
| EnrollmentSchema.ValidarEnrollmentUpdateCorregido | schemas/enrollment.py:145-151 | passes iff the bounds hold and, when balance and both totals are supplied, the balance is within a cent of total minus paid |
| EnrollmentSchema.CorregidoExtiendeAlOriginal | schemas/enrollment.py:145-151 | the corrected validation accepts all the written one does, and differs only on a balance supplied without both totals |
| EnrollmentSchema.DocumentedUpdateExampleRejected | schemas/enrollment.py:154-161 | the documented update (completed, 2850 paid, balance 0) fails as written on None arithmetic and passes the corrected validation |
| EnrollmentSchema.SobrepagoRechazadoEnActualizacion | schemas/enrollment.py:149-150 | an update recording an overpayment of more than a cent is refused whatever non-negative balance it carries, although the record accepts balance 0 for it |
| EnrollmentSchema.SinSobrepagoCoincidenLosValidadores | schemas/enrollment.py:149-150 | without overpayment the update's balance rule and the record's agree |
| EnrollmentSchema.DocumentedFiguresAreCoherent | schemas/enrollment.py:154-161 | 3000 at 5 percent is 2850, and 500 paid leaves 2350, accepted by both validators |
| PaymentModel.ValidarPayment | models/payment.py:62-115 | a payment is built iff concept non-empty, installment number absent or at least 1, voucher amount and paid amount positive, applied discount absent or non-negative |
| PaymentModel.Aprobacion | models/payment.py:165-176 | approval records APROBADO, the administrator and the time, and clears the rejection reason |
| PaymentModel.Rechazo | models/payment.py:178-190 | rejection records RECHAZADO, the administrator, the time and the reason |
| PaymentModel.VerificacionSinGuarda | models/payment.py:165-190 | approving or rejecting twice leaves what once left, up to the time; approval succeeds also from RECHAZADO, against the documented flow |
| PaymentModel.Payment.constructor | models/payment.py:132-159 | a new payment is valid, holds the submitted data, and is PENDIENTE with no verification date, verifier or reason |
| PaymentModel.Payment.AprobarPago | models/payment.py:165-176 | the verification becomes `Aprobacion(admin, now)`; amount, concept, installment, voucher data and references stay |
| PaymentModel.Payment.RechazarPago | models/payment.py:178-190 | the verification becomes `Rechazo(admin, motivo, now)`; the declared data stays |
| Store.Database.constructor | services/enrollment_service.py:26-68 | the collections start empty |
| EnrollmentService.PrecioInscripcion | services/enrollment_service.py:36-43 | the price list of the declared type, less a non-zero personal discount; within [0, base] for a valid course and discount |
| EnrollmentService.PrecioComoDescuento | services/enrollment_service.py:41-43 | the personal discount is taken off as a stored discount of that percentage computes it, and the course discount plays no part |
| EnrollmentService.DatosInscripcion | services/enrollment_service.py:46-49 | the new record's total is the price, nothing is paid and the whole price is pending |
| EnrollmentService.DatosInscripcionValidos | services/enrollment_service.py:46-51 | a valid course and a valid request always give a record that passes the enrollment's validation |
| EnrollmentService.CreateEnrollment | services/enrollment_service.py:26-68 | a missing course fails with not-found and changes nothing; otherwise the valid enrollment is stored, its id appended to the course's list and the course's id to the existing student's list, and nothing else changes |
| EnrollmentService.AplicarItemsEsFusion | services/enrollment_service.py:75-81 | applying the set fields one by one is the merge of the update into the record |
| EnrollmentService.AplicarCampos | services/enrollment_service.py:80-81 | the `setattr` loop on the record applies the set fields one after another, in order, and writes no other field |
| EnrollmentService.UpdateEnrollment | services/enrollment_service.py:70-84 | exactly the fields present in the update change; the price snapshot and the rest stay |
| EnrollmentService.ActualizacionValidaConservaSaldo | services/enrollment_service.py:70-84 | an update passing validation that sets the three ledger fields without overpayment leaves the balance invariant true |
| PaymentService.CreatePayment | services/payment_service.py:24-37 | a missing enrollment fails with not-found; otherwise the payment is stored as submitted and pending, and no enrollment changes |
| PaymentService.AplicarItemsPagoEsFusion | services/payment_service.py:47-50 | applying the set fields one by one is the merge of the update |
| PaymentService.AplicarCamposPago | services/payment_service.py:49-50 | the `setattr` loop on the payment applies the set fields one after another, in order, and writes no other field |
| PaymentService.UpdatePayment | services/payment_service.py:39-53 | exactly the fields present change, no ledger is touched, and an update within the request's bounds keeps a valid payment valid |
| PaymentService.FusionPagoConservaCotas | services/payment_service.py:39-53 | a merge within the request's bounds keeps the payment's bounds |
| PaymentService.DeletePayment | services/payment_service.py:55-60 | the payment is removed and returned when it exists; nothing else changes |
| PaymentService.AceptadoNoEsUnEstado | services/payment_service.py:70-71 | "aceptado" is the stored value of no payment state |
| PaymentService.ApprovePaymentLogicAsWritten | services/payment_service.py:62-83 | as written: a missing payment fails with not-found; any existing payment is approved and then its amount credited to its enrollment, when it exists; of that enrollment only the total paid, the balance and the update time change, and a valid payment keeps a valid enrollment valid |
| PaymentService.DobleAprobacionComoEscrita | services/payment_service.py:62-83 | as written, approving the same payment twice credits its amount twice |
| PaymentService.ApprovePaymentLogic | services/payment_service.py:62-83 | with the intended guard: an approved payment is returned untouched; any other is approved, then its enrollment's total paid grows by its amount and the balance is recomputed; every other field of the enrollment (parties, price and discount snapshot, total, date, state) stays, and a valid payment keeps a valid enrollment valid |
| PaymentService.DobleAprobacionCorregida | services/payment_service.py:62-83 | with the intended guard a payment is credited at most once |
| DiscountService.WithStudent | services/discount_service.py:66-69 | the student is listed afterwards; a listed student leaves the list unchanged; otherwise it is appended at the end, members and order kept, no duplicate introduced |
| DiscountService.FirstIndex | services/discount_service.py:79-80 | the first position holding the student |
| DiscountService.RemoveFirst | services/discount_service.py:79-80 | `list.remove`: one occurrence fewer of the student, none of anything else; a non-member leaves the list unchanged |
| DiscountService.RemoveFirstCutsFirstOccurrence | services/discount_service.py:79-80 | what remains is the list with its first occurrence cut out, others in order |
| DiscountService.NoDuplicatesCut | services/discount_service.py:79-80 | cutting one element keeps a list free of duplicates |
| DiscountService.RemoveFirstOnSetLike | services/discount_service.py:79-80 | on a duplicate-free list the student is absent afterwards and the list stays duplicate-free |
| DiscountService.AddStudentToDiscount | services/discount_service.py:61-70 | a missing discount gives None and changes nothing; otherwise the stored allow-list becomes `WithStudent` of it |
| DiscountService.RemoveStudentFromDiscount | services/discount_service.py:73-82 | a missing discount gives None and changes nothing; otherwise the stored allow-list loses the student's first occurrence |
| DiscountService.DiscountsByStudent | services/discount_service.py:53-58 | exactly the active discounts whose allow-list contains the student |
| DiscountService.DiscountsByStudentDelAlmacen | services/discount_service.py:53-58 | over the stored discount collection, a stored discount is found iff it is active and lists the student, and nothing unstored is found |
| DiscountService.AddedStudentFindsDiscount | services/discount_service.py:53-69 | after adding a student to an active discount, the query for that student finds it |
| DiscountService.AplicarItemsDescuentoEsFusion | services/discount_service.py:36-39 | applying the set fields one by one is the merge of the update |
| DiscountService.AplicarCamposDescuento | services/discount_service.py:38-39 | the `setattr` loop applies the set fields one after another, in order |
| DiscountService.UpdateDiscount | services/discount_service.py:31-42 | the merged discount is saved under its id and no other collection changes |
| DiscountService.UpdateKeepsBoundsNotDates | services/discount_service.py:31-42 | an update within the request's bounds keeps name and percentage bounds, but can store a window that ends before it starts |
| CourseService.AvancePago | services/course_service.py:79-83 | paid over due times 100 when something is due, 100 when nothing is, within [0,100] unless overpaid, at least 100 when fully paid |
| CourseService.OrNone | services/course_service.py:90-92 | an empty contact string becomes None, any other is kept |
| CourseService.DelCurso | services/course_service.py:58 | the enrollments of the course, each one of them, nothing else, never more than the collection holds |
| CourseService.DelCursoConcatena | services/course_service.py:58 | the query keeps storage order and multiplicity: over a concatenation it is the concatenation of the answers, and one enrollment is kept exactly when it belongs to the course |
| CourseService.Entrada | services/course_service.py:86-105 | an entry carries the student's id and the enrollment's id and ledger unchanged, its progress, the name or "Sin nombre" for an empty one, and the contact data with empty strings as None |
| CourseService.Reporte | services/course_service.py:72-107 | never more entries than enrollments, and none when no student is found |
| CourseService.GetCourseStudents | services/course_service.py:52-109 | over the stored enrollment collection: the report over the course's enrollments in storage order, skipping enrollments whose student is missing; empty when no stored enrollment belongs to the course; every stored enrollment of the course with a stored student has its entry |
| CourseService.ReporteDelAlmacen | services/course_service.py:58-107 | over a sequence holding exactly the stored enrollments: the course report is empty when no stored enrollment belongs to the course, and holds the entry of every stored enrollment of the course whose student is stored |
| CourseService.ReporteConcatena | services/course_service.py:72-107 | the report of a concatenation is the concatenation of the reports, so entries follow enrollment order |
| CourseService.ReporteUnaEntradaPorInscripcion | services/course_service.py:72-107 | exactly as many entries as enrollments when every student is found |
| CourseService.ReporteCopiaElLedger | services/course_service.py:72-107 | every entry is the entry of one of the enrollments, and every enrollment with a found student has its entry |
| CourseService.AplicarItemsCursoEsFusion | services/course_service.py:39-40 | applying the set fields one by one is the merge of the update |
| CourseService.AplicarCamposCurso | services/course_service.py:39-40 | the `setattr` loop applies the set fields one after another, in order |
| CourseService.UpdateCourse | services/course_service.py:29-43 | the merged course is saved under its id and no other collection changes |
| CourseService.ActualizacionConservaCurso | services/course_service.py:29-43 | an update within its bounds keeps a valid course valid, keeps its id, discount and unset prices, and the installment formula still rebuilds the total |
| CourseSchema.CuotaEsperada | schemas/course.py:72-78 | fee plus `cantidad` installments of the expected amount is the total |
| CourseSchema.ValidarMontoCuota | schemas/course.py:68-102 | without the total or the installment count the value is accepted unchecked; otherwise accepted iff within a cent of (total minus fee, when present) over the count; accepted values are returned unchanged |
| CourseSchema.ValidarCourseCreate | schemas/course.py:42-102 | as written: the request passes iff the field bounds hold, whatever the installment amounts |
| CourseSchema.ValidarCourseCreateCorregido | schemas/course.py:68-102 | passes iff the field bounds hold and both installment amounts agree with their price list within a cent |
| CourseSchema.CorregidoGarantizaCoherencia | schemas/course.py:68-102 | what the corrected validation accepts the written one accepts too, and it describes a valid course whose computed installments are the requested ones within a cent |
| CourseSchema.CuotaIncoherenteAceptada | schemas/course.py:48-58 | an internal installment of 1 on 3000 total, 500 fee, 5 installments passes as written and fails the corrected validation |
| CourseSchema.DocumentedCourseAccepted | schemas/course.py:106-124 | the documented request (3000/500/500 and 5000/900/500 over 5) is coherent |
| Access.GetCurrentUser | api/dependencies.py:22-101 | development mode returns the superadmin mock; otherwise authenticated iff a token is given, decodes, and names an active account of its declared kind, which is returned; every refusal is a 401 |
| Access.SinCuentaActivaNoHayAcceso | api/dependencies.py:53-101 | no token, an undecodable token, a missing or inactive account, or an unknown kind is refused |
| Access.RequireSuperadmin | api/dependencies.py:104-124 | passes exactly an administrator account with the SUPERADMIN role, returned as is; otherwise 403 |
| Access.RequireAdmin | api/dependencies.py:127-147 | passes exactly an administrator account with the ADMIN or SUPERADMIN role, returned as is; otherwise 403 |
| Access.SuperadminEsAdmin | api/dependencies.py:118-141 | whoever passes `require_superadmin` passes `require_admin`; with only two roles, `require_admin` passes every administrator account and no student |
| Access.CheckStudentAccess | api/dependencies.py:161-197 | any administrator account passes; a student passes iff the resource is theirs; otherwise 403 |
| Access.ModoDesarrolloAbreTodo | api/dependencies.py:40-50 | in development mode every check passes whatever the credentials |
| Access.EstudianteSoloLoSuyo | api/dependencies.py:112-192 | an authenticated student is active, is refused by both role checks and reaches exactly their own resources |

## Left out

- Persistence, HTTP and I/O: the MongoDB/Beanie calls become reads and writes of the `Store.Database` maps. The HTTP routers are not modelled, and neither are the JWT, bcrypt or Cloudinary code and the configuration.
- Timestamps (`datetime.utcnow`, `updated_at`, `fecha_subida`, `fecha_verificacion`) are opaque parameters.
- `round(x, 2)` in `siguiente_pago` and in the report's progress is left out; the model keeps the exact value.
- Floating point: money is an exact `real`, so rounding error in the tolerance comparisons is not modelled.
- Plain CRUD reads (`get_*`, `get_courses`, `get_discounts`), `create_course`, `create_discount`, `delete_course`, `delete_discount` and `delete_enrollment` are not part of this model.
- The `dict` branch of the update services, which sets arbitrary keys, is left out; updates are the typed request schemas.
- An explicit null sent for a non-nullable field of an update request is not modelled; each such field is either unset or set to a value.
- Update fields that the record does not declare are left out; `setattr` on them would raise. This covers `monto_cuota_*`, `descuento_general` and `requisitos` of `CourseUpdate`, and `formulario_inscripcion_url` and `tipo_pago` of the enrollment request, which pricing ignores, and `imagen_voucher_url` and `fecha_pagada` of `PaymentUpdate` (schemas/payment.py:161,163), which `Payment` does not declare, so `update_payment` would raise on them.
- The course's descriptive fields (`nombre_programa`, `tipo_curso`, `modalidad`, `observacion`, `fecha_inicio`, `fecha_fin`) are declared in models/course.py:101-192, and `update_course` writes them when the update sets them. They are left out because `CourseModel.Course` omits them; no price or enrollment rule reads them.
- CourseSchema.ValidarCourseCreate: the descriptive fields of `CourseCreate` are not modelled, and neither is the 1..300 length bound on `nombre_programa` (schemas/course.py:43) nor the type of course and modality.
- EnrollmentService.CreateEnrollment: `create_enrollment` does not pass `costo_total`, `costo_matricula` and `cantidad_cuotas`, which the enrollment requires; the model fills them from the course's price list for the declared type.
- PaymentService.ApprovePaymentLogic: the service calls `aprobar_pago()` without the administrator and `registrar_pago`, which the enrollment does not define. The model passes the administrator as a parameter and credits the ledger with `ActualizarSaldo`.
- PaymentService.CreatePayment: the creation request lacks several payment fields, so `PaymentModel.PaymentInput` carries every field the payment declares.
- CourseService.GetCourseStudents: the service reads `student.carnet`, which the student does not declare, and builds `CourseEnrolledStudent`, which schemas/course.py does not define. The import of that name at services/course_service.py:12 makes the whole module fail to import, so as written neither `update_course` nor `get_course_students` can run. The model keeps the fields the service passes and omits the identity card.
- CourseService.GetCourseStudents: the one-query student lookup restricted to the enrollments' students is modelled as a lookup in the whole student collection, which finds the same students.
- Access.GetCurrentUser: the token's `sub` is taken as an already parsed id; a malformed id, which raises from the ObjectId parser rather than giving a 401, is not modelled. `get_current_active_user` is the identity and is not modelled separately.
- Pydantic error reporting: a validation failure is one `Fail`/`Failure` value. The model does not reproduce the list of errors, nor the difference between a `ValueError` (422) and a `TypeError` raised inside a validator.
- Enrollment state changes on approval and the course-level discount in pricing are not in the core's code and are not modelled.

## Findings

| source | as written | input that shows it | evidently intended | confidence | as-written member | corrected member |
|---|---|---|---|---|---|---|
| services/payment_service.py:70-71 | the early return compares the state with "aceptado", which no payment state equals | approve the same pending payment twice | an already approved payment is returned untouched, so it is credited once | not executed | PaymentService.DobleAprobacionComoEscrita | PaymentService.DobleAprobacionCorregida |
| schemas/course.py:48-58 | the installment validators run before `matricula_*` and `cantidad_cuotas` are validated, so they never find the count and accept any amount | internal 3000 total, installment 1, fee 500, 5 installments | each installment is checked against (total minus fee) over the count | not executed | CourseSchema.CuotaIncoherenteAceptada | CourseSchema.ValidarCourseCreateCorregido |
| schemas/enrollment.py:145-151 | an unset total is present among the earlier values as None, and the subtraction raises | the documented update: state completed, 2850 paid, balance 0 | the balance is checked only when both totals are supplied | not executed | EnrollmentSchema.DocumentedUpdateExampleRejected | EnrollmentSchema.ValidarEnrollmentUpdateCorregido |
