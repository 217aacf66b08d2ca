# School fee ledger — a Dafny model

This project models the fee and payment ledger of a school administration
server (`index.js`), the request schemas in front of it (`validators.js`) and
the fee cache of its browser page (`public/script.js`), and proves properties
of that model.

The model covers:
- **Payment processor.** The invoice store maps a fee id to its invoice. The
  payment ledger is append-only. A payment is refused when the fee is unknown
  or when it would overpay the fee. Otherwise exactly one payment row goes in,
  with a `#RC` receipt number, and the fee's status is re-derived
  (`paid` / `partial` / `pending`).
- **Balance calculator.** `GET /api/fees` and `GET /api/students/:id/fees`
  group payments by fee, compute `total_paid` and `balance`, filter and order
  the rows.
- **Enrollment hook.** `POST /api/students` adds the student and a `pending`
  invoice priced by the class tier table, together or not at all.
- **Direct invoice creation.** `POST /api/fees`.
- **Cascade deletes.** `DELETE /api/students/:id` and `DELETE /api/students`.
- **Keyed stores.** The attendance upsert and the COALESCE update of
  announcements.
- **Guards.** The `Bearer` header split and the role check.
- **Schemas.** Each Joi schema is an ordered list of checks. Validation
  reports the first failing message, a declarative validity predicate says
  what passes, and defaults are filled in.
- **Browser cache.** `normalizeFee`, the status tabs, the collected total, the
  row's pay button, the checks before a payment is posted, and the in-place
  cache updates after a payment and after a student is deleted.

Conventions:
- Money is integer cents. The schemas fix amounts to two decimals, so
  999,999.99 is `99999999` and the smallest payment is `1`.
- Dates are integers, and only their order matters.
- The clock (`Date.now()`, `new Date()`, `now()`), `uuidv4()` and the verified
  token's claims are parameters.
- Each request is one atomic, serialised step. A refused request leaves every
  table as it was.

The ledger invariant `Ledger.Consistent` holds in every committed state:
- every payment references an existing fee, carries that fee's student and is
  at least one cent;
- no fee is paid beyond its amount;
- a fee that has payments carries the status its total derives.

A fee *without* payments may carry any status. The code lets
`POST /api/fees` create a `paid` or `overdue` invoice (index.js:337-343), and
the listing returns the stored status unchanged. The model follows the code
on three points:
- a fee amount of 0 is accepted (validators.js:110);
- a fee's status is not always derived from its payments;
- the cascade deletes remove payments.

Files (one module each):

| file | module | what |
|---|---|---|
| common.dfy | Common | `Option`/`Result`, `includes`, `split`/join |
| ids.dfy | Ids | `prefix + Date.now().toString().slice(-8)` |
| validators.dfy | Validators | the Joi schemas |
| ledger.dfy | Ledger | fees, payments, balance, status, the processor `Pay`, cascade, fee tiers |
| keyed.dfy | Keyed | attendance upsert, announcement update |
| listing.dfy | Listing | grouping, ordering, selection and enrichment of the listings |
| school_db.dfy | SchoolDb | the handlers as methods of `Db`, `AttendanceBook`, `NoticeBoard` |
| auth.dfy | Auth | `authenticate`'s header split, `authorize` |
| client.dfy | ClientCache | the page's fee cache (`FeeCache`) and its rules |

## Model

| member | source | states |
|---|---|---|
| Common.ContainsIff | index.js:230-234 | `includes` holds exactly when some window of the string spells the label |
| Common.Split | index.js:133 | `split(' ')` gives at least one piece and no piece contains the separator |
| Common.JoinSplit | index.js:133 | joining the pieces of a split with the separator gives back the header |
| Common.SplitJoin | index.js:133 | splitting a join of separator-free pieces gives back the pieces |
| Ids.Decimal | index.js:215 | `toString()` of a non-negative number is a non-empty run of digits |
| Ids.DecimalRoundTrip | index.js:215 | reading the decimal rendering back gives the number |
| Ids.ValueBound | index.js:215 | k digits denote a number below 10^k |
| Ids.ValueOfConcat | index.js:215 | the value of a digit string is its head shifted by the tail's width plus the tail |
| Ids.Last8 | index.js:215 | `slice(-8)` keeps the last eight characters, or the whole of a shorter string |
| Ids.StampId | index.js:215 | a stamped id is the prefix followed by one to eight digits |
| Ids.StampIdValue | index.js:367 | the digits of a stamped id denote the timestamp modulo 10^8 |
| Ids.StampIdWidth | index.js:239 | once the clock has eight digits the id is the prefix plus exactly eight digits |
| Auth.BearerToken | index.js:128-137 | a missing or empty header is 401 "missing"; a token handed on contains no space |
| Auth.BearerTokenIff | index.js:133-137 | a non-empty header yields token t exactly when it reads `Bearer ` then a space-free t |
| Auth.MalformedHeader | index.js:133-137 | any other non-empty header is refused as badly formatted |
| Auth.Authorize | index.js:151-177 | no verified user is 401; under a non-empty list a user whose role is missing or not listed is 403; an empty list admits every verified user |
| Auth.LedgerWritersAdmit | index.js:207 | creating students, fees and payments admits exactly admin and accountant |
| Auth.DeletesAdminOnly | index.js:585 | deleting students admits exactly admin |
| Auth.WritersCanRead | index.js:267 | whoever may write the ledger may read the fee listing |
| Auth.RegisteredRolesCanReadLedger | validators.js:26-30 | every role a registration accepts may read the fee listing |
| Validators.FirstError | validators.js:4-31 | the reported message is that of the first failing check; none exactly when all pass |
| Validators.AllOkConcat | validators.js:179-209 | a list of checks passes exactly when both halves pass |
| Validators.PaymentChecksOk | validators.js:127-150 | the payment checks pass exactly for a fee id and an amount of 0.01-999,999.99, bounded text and no future date |
| Validators.ValidatePayment | validators.js:127-150 | accepted exactly when valid; the request carries the amount within [MinPayment, MaxAmount]; a refusal reports the first failing message |
| Validators.FeeChecksOk | validators.js:97-124 | the fee checks pass exactly for a student id, an amount of 0-999,999.99 and a status of paid, pending or overdue |
| Validators.ValidateFee | validators.js:97-124 | accepted exactly when valid; the status defaults to pending and is never partial |
| Validators.StudentChecksOk | validators.js:51-94 | the student checks pass exactly for a 1-300 character name, bounded fields and a known status |
| Validators.ValidateStudent | validators.js:51-94 | accepted exactly when valid; the status defaults to Active |
| Validators.RegisterChecksOk | validators.js:4-31 | the registration checks pass exactly for a 2-200 character name, an email, a 6-100 character password and a known role |
| Validators.ValidateRegistration | validators.js:4-31 | accepted exactly when valid; the role is known and the school defaults to empty |
| Validators.LoginChecksOk | validators.js:34-48 | the login checks pass exactly for an email, a password and an optional known role |
| Validators.ValidateLogin | validators.js:34-48 | accepted exactly when valid; a role, when given, is a known one |
| Validators.AllocationChecksOk | validators.js:154-175 | the allocation checks pass exactly for teacher, class, subject and a YYYY/YYYY year |
| Validators.ValidateAllocation | validators.js:154-175 | accepted exactly when valid; the year is well formed and defaults to 2024/2025 |
| Validators.ClassChecksOk | validators.js:271-299 | the class checks pass exactly for a 2-50 character name, grade 1-12, capacity 1-100 |
| Validators.ValidateClass | validators.js:271-299 | accepted exactly when valid; capacity defaults to 30 and the year to 2024/2025 |
| Validators.AttendanceItemChecksOk | validators.js:180-206 | one record's checks pass exactly for student, class, known status and no future date |
| Validators.ItemsChecksOk | validators.js:179-209 | the batch's item checks pass exactly when every record is valid |
| Validators.AttendanceChecksOk | validators.js:178-210 | the batch checks pass exactly for at least one record, each valid |
| Validators.ValidateAttendance | validators.js:178-210 | accepted exactly when valid; the batch is returned unchanged and is non-empty |
| Validators.AnnouncementChecksOk | validators.js:213-247 | the announcement checks pass exactly for title 3-200, content 10-5000, known enums and an end date not before the start |
| Validators.ValidateAnnouncement | validators.js:213-247 | accepted exactly when valid; category, audience, priority and is_active take their defaults |
| Validators.QueryChecksOk | validators.js:330-348 | the query checks pass exactly for bounded search text, a fee status, limit 1-1000 and offset at least 0 |
| Validators.ValidateQuery | validators.js:330-348 | accepted exactly when valid; limit defaults to 100 and offset to 0 |
| Ledger.ParseStatus | index.js:317 | a stored status text reads back only as the status that writes it |
| Ledger.ParseStatusName | index.js:403-408 | every written status reads back as itself |
| Ledger.PaymentsOf | index.js:379-382 | a fee's payments are exactly the ledger's payments naming it |
| Ledger.SumAppend | index.js:380 | the sum of two runs of payments is the sum of their sums |
| Ledger.PaymentsOfAppend | index.js:379-382 | selecting one fee's payments distributes over appending |
| Ledger.TotalPaidAppend | index.js:397-400 | appending a payment raises its own fee's total by its amount and no other fee's |
| Ledger.SumAtLeastCount | validators.js:132 | payments of at least a cent each add up to at least their number |
| Ledger.DeriveStatus | index.js:403-408 | paid iff the new total reaches the amount, partial iff 0 < total < amount, never overdue |
| Ledger.BalanceNonNegative | index.js:387-394 | in consistent books no balance is negative |
| Ledger.StatusOfPaidFee | index.js:402-413 | a fee with payments is never pending or overdue, is paid iff settled and partial iff a balance remains |
| Ledger.NoPaymentsOfUnknownFee | index.js:379-383 | a fee no payment names has total paid 0 (`COALESCE(SUM, 0)`) |
| Ledger.AddFeeKeepsConsistent | index.js:340-343 | inserting an invoice under a new id keeps the books consistent |
| Ledger.NewPayment | index.js:375-400 | the inserted row names the fee, copies its student, carries the amount and the `#RC` receipt number |
| Ledger.Pay | index.js:354-426 | unknown fee is 404 and an overpayment is refused with the balance left, both changing nothing; otherwise one payment is appended, the derived status written, and total + balance = amount with balance at least 0 |
| Ledger.AcceptKeepsRefs | index.js:397-400 | after an accepted payment every payment still references its fee and student |
| Ledger.AcceptKeepsCaps | index.js:387-394 | after an accepted payment no fee is overpaid |
| Ledger.AcceptKeepsStatuses | index.js:402-413 | after an accepted payment every fee with payments carries its derived status |
| Ledger.AcceptKeepsKeys | index.js:410-413 | an accepted payment keeps fees under their ids with their amounts |
| Ledger.AcceptKeepsConsistent | index.js:363-415 | accepting a payment that fits keeps the books consistent |
| Ledger.PayKeepsConsistent | index.js:354-434 | the processor keeps the books consistent, whatever the request |
| Ledger.PayLeavesOtherFees | index.js:397-413 | a payment changes no other fee and no other fee's total |
| Ledger.PayAll | index.js:369 | the processor run over a sequence of requests answers each one |
| Ledger.FirstFitBound | index.js:387-394 | admitting amounts while they fit never lowers the total nor passes the cap |
| Ledger.PayOneStep | index.js:383-400 | one payment raises its fee's total by its amount exactly when it fits, else leaves it |
| Ledger.PayAllTotal | index.js:369-400 | serialised payments against one fee move its total by first fit |
| Ledger.PayAllKeepsConsistent | index.js:354-434 | any run of validated payments keeps the books consistent |
| Ledger.SerialisedPayments | index.js:369-394 | payments serialised by the row lock accept exactly those that still fit; the total never exceeds the amount |
| Ledger.PaymentsNotOf | index.js:591 | the surviving payments are exactly those of other students |
| Ledger.FeesNotOf | index.js:592 | the surviving fees are exactly those of other students, unchanged |
| Ledger.PaymentsOfSurvivor | index.js:591-592 | a surviving fee keeps exactly its payments |
| Ledger.RemoveStudentsKeepsConsistent | index.js:589-602 | deleting students' fees and payments keeps the books consistent |
| Ledger.EnrollmentFee | index.js:228-237 | the fee is one of 450, 1200, 1500, 2000, and 450 for a blank or absent class |
| Ledger.TierLookup | index.js:229-237 | the tier table gives 450 or the price of a label the class contains |
| Ledger.EnrollmentFeeIsTierTable | index.js:228-237 | the `if` chain is the tier table read top to bottom (Grade 7, Grade 6, Grade 8, Grade 9) |
| Keyed.Upsert | index.js:810-818 | a new key gets the entry; an existing one keeps its class and takes status, remarks and marker; other rows unchanged |
| Keyed.UpsertAllKeys | index.js:806-821 | after a batch there is one row per old key and per batch key, each under its own key |
| Keyed.UpsertAllUntouched | index.js:806-821 | rows whose key the batch does not name are unchanged |
| Keyed.LastWriteWins | index.js:806-821 | the last entry for a key decides its status and remarks |
| Keyed.StepRows | index.js:820 | one returned row per entry |
| Keyed.UpsertAllSnoc | index.js:806-821 | one more entry is one more upsert and one more returned row |
| Keyed.StepRowsAt | index.js:810-820 | the i-th returned row sits under the i-th entry's key with its status and remarks |
| Keyed.ClassKept | index.js:813-814 | an existing row keeps its class however often it is overwritten |
| Keyed.ClassFromFirstEntry | index.js:811-816 | a new key takes its class from the first entry naming it |
| Keyed.ApplyPatch | index.js:934-947 | title, content, category, target_audience, priority, start_date and is_active each take the patch value, or keep the old one when the patch leaves it null; end_date is always overwritten |
| Keyed.EmptyPatchClearsEndDate | index.js:942 | an update naming no field clears end_date and changes nothing else |
| Keyed.PatchIdempotent | index.js:934-947 | sending the same update twice equals sending it once |
| Keyed.PatchesCompose | index.js:934-947 | two updates equal one with the later non-null fields and the later end date |
| Listing.InsertByDate | index.js:296 | inserting into a date-ordered list keeps it ordered and adds exactly the payment |
| Listing.SortByDate | index.js:296 | `ORDER BY payment_date ASC` is a date-ordered permutation |
| Listing.PaymentsOfCount | index.js:297-300 | each fee's group counts each of its payments as often as the ledger |
| Listing.PaymentsOfPerm | index.js:296-300 | rearranging the ledger rearranges each fee's payments |
| Listing.SumPerm | index.js:305 | a sum of payments does not depend on their order |
| Listing.PaymentsOfSorted | index.js:296-300 | a fee's payments taken from a date-ordered ledger are date-ordered |
| Listing.PaymentsIn | index.js:296 | `fee_id = ANY($1)` keeps exactly the payments of the listed fees |
| Listing.PaymentsOfIn | index.js:295-296 | restricting to the listed fees keeps every payment of each of them |
| Listing.FetchedPaymentsOf | index.js:294-305 | a listed fee's fetched payments are its ledger payments, date-ordered, summing to its total paid |
| Listing.GroupStep | index.js:297-300 | pushing the next payment onto its fee's group keeps the grouping invariant |
| Listing.GroupDone | index.js:294-301 | after all pushes a fee has a group exactly when it has payments, and the group is its payments |
| Listing.GroupByFee | index.js:294-301 | the `forEach` grouping: a fee has a list exactly when it has payments, holding exactly them in order |
| Listing.MayPrecedeTrans | index.js:278 | the `DESC` order (NULLs first) is transitive |
| Listing.InsertByKey | index.js:278 | inserting into an ordered selection keeps it ordered and adds exactly the row |
| Listing.StatusFilter | index.js:269-276 | an absent or empty status query lists every fee; otherwise exactly that status |
| Listing.InsertRow | index.js:270-281 | inserting one more selected row keeps exactly one row per selected id |
| Listing.SelectStep | index.js:270-281 | taking one more id keeps the selection's progress invariant |
| Listing.SelectDone | index.js:270-281 | a finished selection holds every selected row exactly once |
| Listing.SelectFees | index.js:270-281 | `SELECT … WHERE … ORDER BY …`: every matching row exactly once, in order |
| Listing.StudentOf | index.js:285-311 | a fee's student is attached exactly when its id is non-empty and the student exists |
| Listing.Enrich | index.js:303-322 | a view's `total_paid` is its payments' sum and `total_paid + balance = amount` |
| Listing.EnrichAll | index.js:303-323 | one view per selected row, in the same order |
| Listing.ViewMatchesBooks | index.js:294-323 | a listed fee shows its own payments date-ordered, the ledger's total, the rest as balance, the stored status |
| Listing.ListedFeeAgreesWithTotals | index.js:303-317 | in consistent books a listed balance is at least 0 and a paid fee with payments shows balance 0 |
| Listing.ListedViewsOrder | index.js:278 | the listing is ordered by due date, latest first, undated rows ahead |
| Listing.ListedViewsCover | index.js:270-323 | every selected fee is shown |
| Listing.ListedViewRow | index.js:303-323 | one shown row carries its student, its payments and totals agreeing with the books |
| Listing.ListedViewsRows | index.js:303-323 | every shown row is a selected stored fee agreeing with the books |
| Listing.Summarise | index.js:441-447 | a summary row's total is the fee's ledger total and total + balance = amount |
| Listing.SummariseAll | index.js:441-451 | one summary row per selected fee, in the same order |
| Listing.SummaryOrder | index.js:450 | the summary is newest fee first |
| Listing.SummaryCover | index.js:448 | a fee is summarised exactly when it belongs to the student |
| Listing.SummaryAgreesWithBooks | index.js:441-451 | each summary row is a stored fee of the student with the ledger's totals and a balance at least 0 |
| Listing.SummaryAgreesWithListing | index.js:303-306 | the listing and (with the summary's sums at index.js:444-445) the per-student summary report the same totals for a fee |
| SchoolDb.GradesNotOf | index.js:593 | the surviving grades are exactly those of other students |
| SchoolDb.IdSet | index.js:647-651 | `ANY($1)` tests membership in the listed ids |
| SchoolDb.StudentIdFor | index.js:215 | the given id, else `ST` plus up to eight digits |
| SchoolDb.FeeIdFor | index.js:338 | (also the enrollment invoice at index.js:239) the given id, else `INV` plus up to eight digits |
| SchoolDb.PayStepUnknownFee | index.js:369-373 | the processor on an unknown fee is a step of the transaction |
| SchoolDb.PayStepOverpayment | index.js:386-394 | the processor on an overpayment is a step of the transaction |
| SchoolDb.PayStepAccepted | index.js:396-426 | the processor on a payment that fits is a step of the transaction |
| SchoolDb.PayTakesStep | index.js:363-426 | whatever the request, the processor's outcome is a step of the transaction |
| SchoolDb.PaymentStepFunctional | index.js:363-426 | the transaction admits one answer and one pair of new tables per request |
| SchoolDb.PaymentStepIsPay | index.js:363-426 | the transaction relation is exactly the processor `Pay` |
| SchoolDb.AcceptedStep | index.js:396-426 | appending the payment and writing the derived status is the step and keeps the books consistent |
| SchoolDb.Db.RecordPayment | index.js:354-434 | a body failing `paymentSchema` is 400 with its first message and changes nothing; otherwise the transaction step; students and grades never change |
| SchoolDb.Db.ApplyPayment | index.js:363-426 | the transaction on a validated request takes the step and keeps the invariant |
| SchoolDb.Db.Accept | index.js:396-426 | the accepting half appends one payment and writes the derived status |
| SchoolDb.Db.CreateStudent | index.js:207-264 | a body failing `studentSchema` is 400 and changes nothing; otherwise the student and its tier-priced pending invoice go in together, or a clash on either id changes nothing and answers "Student ID already exists" |
| SchoolDb.Db.InsertStudent | index.js:215-260 | the insert transaction adds both rows or neither |
| SchoolDb.Db.CreateFee | index.js:332-351 | a body failing `feeSchema` is 400; otherwise the invoice goes in under the given or `INV` id with status defaulting to pending; an id in use changes nothing |
| SchoolDb.Db.DeleteStudent | index.js:585-614 | an absent student is 404 and changes nothing; otherwise exactly the student's payments, fees, grades and record go, others untouched |
| SchoolDb.Db.DeleteStudents | index.js:637-665 | a missing or empty list is 400 and changes nothing; otherwise the listed students' rows go and the count is how many existed |
| SchoolDb.Db.ListFees | index.js:267-330 | one view per fee with the queried status, latest due date first, each agreeing with the books |
| SchoolDb.Db.StudentFees | index.js:437-458 | exactly the student's fees, newest first, with ledger totals and balances at least 0 |
| SchoolDb.AttendanceBook.Mark | index.js:792-837 | an empty or missing batch is 400 and changes nothing; otherwise the entries are upserted in order and each returned row carries its entry's key, status and marker |
| SchoolDb.NoticeBoard.Update | index.js:929-959 | an unknown id is 404 and changes nothing; otherwise the COALESCE update replaces that row alone |
| ClientCache.OrElse | public/script.js:1474-1486 | JavaScript's or-fallback on a string: the value unless it is missing or empty |
| ClientCache.NormalizeFee | public/script.js:1472-1488 | total paid defaults to 0; a missing or empty status becomes pending, and a present one is kept; payments default to empty; the student label is the name, else the student id, else ""; the server's balance is kept, else amount - total paid |
| ClientCache.PaymentsJson | index.js:321 | one page entry per payment of the response, the i-th entry rendering the i-th payment in server order |
| ClientCache.ShownFeeMirrors | public/script.js:1472-1488 | normalising a fee listed by index.js:303-323 gives a row with the stored amount and status and the ledger's total and balance |
| ClientCache.Where | public/script.js:1936-1941 | `filter` keeps exactly the fees that pass |
| ClientCache.PicksKeep | public/script.js:1936-1941 | a passing fee at the end is kept at the next position |
| ClientCache.PicksSkip | public/script.js:1936-1941 | a failing fee at the end is dropped |
| ClientCache.WhereKeepsOrder | public/script.js:1936-1941 | filtering is an order-preserving subsequence holding exactly the passing positions |
| ClientCache.FilterFees | public/script.js:1932-1942 | a tab shows exactly the fees whose status it accepts |
| ClientCache.AllTabShowsEverything | public/script.js:1935-1936 | the `all` tab shows the whole cache in order |
| ClientCache.TabsPartitionStatuses | public/script.js:1937-1940 | each written status appears under exactly one of pending, paid, overdue; partial under pending |
| ClientCache.TotalCollectedConcat | public/script.js:1609-1612 | the collected total of two runs is the sum of their totals |
| ClientCache.TotalCollectedUpdate | public/script.js:1609-1612 | replacing one cached fee (as at public/script.js:2150) moves the total by the change in its total paid |
| ClientCache.RowAgreesWithBooks | public/script.js:1678-1694 | for a row mirroring consistent books, the status class is the stored status, the button is disabled iff settled, and offers "Pay Balance" iff part paid |
| ClientCache.AmountCheck | public/script.js:2098-2119 | an amount passes exactly when present, positive and within the form balance |
| ClientCache.CheckPaymentForm | public/script.js:2111-2131 | each field's error is set independently: amount, missing method, missing date |
| ClientCache.AmountCheckMatchesServer | public/script.js:2099-2119 | for a mirrored row the page accepts an amount exactly when it is at least a cent and the server's guard (index.js:383-394) would accept it |
| ClientCache.FirstIndex | public/script.js:2148 | `find`/`findIndex` over fees (and students at public/script.js:3550): the first element with the id, or -1 exactly when none has it |
| ClientCache.Find | public/script.js:2148 | the front-to-back scan returns `FirstIndex`: the first matching position, or -1 |
| ClientCache.ReviewPayment | public/script.js:2089-2135 | a fee missing from the cache is reported; otherwise the form is checked against the first fee with the id |
| ClientCache.Refreshed | public/script.js:2149-2160 | the response's total, or old total + amount when it is missing or 0; the response's balance, or 0; the response's status, or (when missing or empty) paid iff the balance is exactly 0, else partial; the entry appended; id, amount and student kept |
| ClientCache.RefreshKeepsMirror | public/script.js:2147-2160 | refreshing a mirrored row from an accepted payment's response (index.js:417-426) mirrors the books after the payment |
| ClientCache.WithoutStudent | public/script.js:3554 | the kept fees are exactly those of other students |
| ClientCache.FeeCache.ApplyPaymentResult | public/script.js:2147-2160 | after a success only the first fee with the id is refreshed; a failure or a missing fee changes nothing |
| ClientCache.FeeCache.DeleteStudent | public/script.js:3549-3554 | after a success, if the student is cached, exactly the first match is spliced out and no fee of the student remains; otherwise nothing changes |

## Left out

- Concurrency: the `FOR UPDATE` row lock and the pool-level `BEGIN`/`COMMIT`
  of the deletes. Each request is one atomic, serialised step, and
  `Ledger.PayAll` is the serial order.
- Floating point: `parseFloat` sums, `toFixed` and `formatCurrency`. Money is
  integer cents.
- Identifier uniqueness. Timestamp ids can collide within one millisecond,
  so the timestamp is a parameter and only the id's format is proved.
  `uuidv4()` is a parameter.
- The due date of the enrollment invoice (`Date.setMonth`) is a parameter.
- Joi's coercions: trimming, lower-casing, email syntax, ISO date parsing and
  `precision(2)` rounding. Absent and `null` fields are both `None`. Dates
  are already-parsed integers.
- Unknown keys and wrongly typed JSON values. `Joi.object` refuses a key its
  schema does not name, and a field of the wrong JSON type, with a 400. The
  input records of `Validators` hold only the schema's keys, each at its own
  type, so such bodies cannot be written down. "Accepted exactly when valid"
  is about bodies made of the schema's keys only.
- Joi's exact wording for the `Joi.ref('start_date')` failure is approximated
  by a fixed message.
- bcrypt hashing, `jwt.sign` and `jwt.verify`. The verified claims are an
  input to `Auth.Authorize`. Registration, login and the other routes that
  only call these or run SQL are not modelled.
- SQL-only reports and views: financial summary, performance, attendance
  report and attendance summary.
- Database failures other than a duplicate id (the 500 answers). Foreign-key
  constraints are not modelled.
- The `created_at` and `updated_at` database defaults: `now` is a parameter.
  The attendance row's `updated_at` is not modelled.
- `SchoolDb.Db.CreateStudent`: a clash on the generated invoice id also
  answers "Student ID already exists", as the catch tests only the error
  code.
- `SchoolDb.Db.CreateFee`: an id already in use answers "Error creating fee",
  not a message naming the clash.
- `Listing.SelectFees`: rows with equal sort keys come out in an order the
  model leaves unspecified, as PostgreSQL does.
- `ClientCache.NormalizeFee`: a `null` balance in the response counts as
  missing. JavaScript would keep the `null`, since it tests only for
  `undefined`.
- `ClientCache.FeeCache.ApplyPaymentResult`: the new payment entry is passed
  in. The page builds it from the form's amount, method, date and trimmed
  notes.
- `ClientCache.CachedStudent` carries only a student's id and name. The page's
  other student fields are carried along and never read by this code.
- DOM rendering, charts, toasts, modals, timers, exports and printing. The
  page's `fetch` calls become the `succeeded` flag and the response value.
