/**
 * The tables the handlers of `index.js` write, as objects whose methods are
 * the handlers' transactions: recording a payment, enrolling a student (with
 * the automatic invoice), creating an invoice, the two cascade deletes and
 * the two fee listings on `Db`; marking attendance on `AttendanceBook`;
 * updating an announcement on `NoticeBoard`. Each request runs as one atomic, serialised step; a
 * refused request leaves every table as it was.
 */
module SchoolDb {
  import opened Common
  import opened Ledger
  import opened Keyed
  import opened Listing
  import Ids
  import Validators

  /** A row of `grades`; only its student matters to the ledger core. */
  datatype Grade = Grade(id: string, studentId: string, subject: string)

  /** An error response: the HTTP class and the message the handler sends. */
  datatype WriteError = BadRequest(message: string) | NotFound(message: string) | ServerError(message: string)

  /** `DELETE FROM grades WHERE student_id = ANY($1)`: the survivors, in order. */
  function GradesNotOf(gs: seq<Grade>, students: set<string>): (r: seq<Grade>)
    ensures forall g :: g in r <==> g in gs && g.studentId !in students
    decreases |gs|
  {
    if gs == [] then []
    else (if gs[0].studentId in students then [] else [gs[0]]) + GradesNotOf(gs[1..], students)
  }

  /** The ids listed in a bulk request, as a set (`ANY($1)`). */
  function IdSet(ids: seq<string>): (s: set<string>)
    ensures forall x :: x in s <==> x in ids
  {
    set x | x in ids
  }

  /** `id || 'ST' + Date.now().toString().slice(-8)`: the given id, else one made from the clock. */
  function StudentIdFor(given: Option<string>, stamp: nat): (id: string)
    ensures given.Some? ==> id == given.value
    ensures given.None? ==> 2 < |id| <= 10 && id[..2] == "ST" && Ids.AllDigits(id[2..])
  {
    if given.Some? then given.value else Ids.StampId("ST", stamp)
  }

  /** `id || 'INV' + Date.now().toString().slice(-8)`. */
  function FeeIdFor(given: Option<string>, stamp: nat): (id: string)
    ensures given.Some? ==> id == given.value
    ensures given.None? ==> 3 < |id| <= 11 && id[..3] == "INV" && Ids.AllDigits(id[3..])
  {
    if given.Some? then given.value else Ids.StampId("INV", stamp)
  }

  /**
   * The payment transaction as a relation between the tables before
   * (`fees`, `payments`), the answer `r` and the tables after (`fees'`,
   * `payments'`): an unknown fee is a 404 and an overpayment is refused with
   * the balance left, both changing nothing; otherwise exactly one payment is
   * appended and the fee's status becomes the one derived from the new total.
   */
  ghost predicate PaymentStep(fees: map<string, Fee>, payments: seq<Payment>, req: PaymentRequest, ctx: PaymentContext,
                              r: Result<Receipt, PaymentError>, fees': map<string, Fee>, payments': seq<Payment>)
  {
    if req.feeId !in fees then
      r == Err(FeeNotFound) && fees' == fees && payments' == payments
    else
      var fee := fees[req.feeId];
      var paid := TotalPaid(payments, req.feeId);
      if paid + req.amount > fee.amount then
        r == Err(ExceedsBalance(fee.amount - paid)) && fees' == fees && payments' == payments
      else
        var status := DeriveStatus(paid + req.amount, fee.amount);
        && payments' == payments + [NewPayment(fee, req, ctx)]
        && fees' == fees[req.feeId := fee.(status := status, updatedAt := ctx.now)]
        && r.Ok?
        && r.value == Receipt(ctx.paymentId, Ids.StampId("#RC", ctx.stamp), paid + req.amount,
                              fee.amount - (paid + req.amount), status)
  }

  /** `Pay` takes the step on an unknown fee. */
  lemma PayStepUnknownFee(fees: map<string, Fee>, payments: seq<Payment>, req: PaymentRequest, ctx: PaymentContext)
    requires req.feeId !in fees
    ensures var out := Pay(Books(fees, payments), req, ctx);
            PaymentStep(fees, payments, req, ctx, out.0, out.1.fees, out.1.payments)
  {
  }

  /** `Pay` takes the step on an overpayment. */
  lemma PayStepOverpayment(fees: map<string, Fee>, payments: seq<Payment>, req: PaymentRequest, ctx: PaymentContext)
    requires req.feeId in fees && TotalPaid(payments, req.feeId) + req.amount > fees[req.feeId].amount
    ensures var out := Pay(Books(fees, payments), req, ctx);
            PaymentStep(fees, payments, req, ctx, out.0, out.1.fees, out.1.payments)
  {
  }

  /** `Pay` takes the step on a payment that fits. */
  lemma PayStepAccepted(fees: map<string, Fee>, payments: seq<Payment>, req: PaymentRequest, ctx: PaymentContext)
    requires req.feeId in fees && TotalPaid(payments, req.feeId) + req.amount <= fees[req.feeId].amount
    ensures var out := Pay(Books(fees, payments), req, ctx);
            PaymentStep(fees, payments, req, ctx, out.0, out.1.fees, out.1.payments)
  {
    var out := Pay(Books(fees, payments), req, ctx);
    var fee := fees[req.feeId];
    var newTotal := TotalPaid(payments, req.feeId) + req.amount;
    assert out.0.value == Receipt(ctx.paymentId, Ids.StampId("#RC", ctx.stamp), newTotal, fee.amount - newTotal,
                                  DeriveStatus(newTotal, fee.amount));
  }

  /** Whatever the request, the processor's outcome and new books are a step of the transaction. */
  lemma PayTakesStep(fees: map<string, Fee>, payments: seq<Payment>, req: PaymentRequest, ctx: PaymentContext)
    ensures var out := Pay(Books(fees, payments), req, ctx);
            PaymentStep(fees, payments, req, ctx, out.0, out.1.fees, out.1.payments)
  {
    if req.feeId !in fees {
      PayStepUnknownFee(fees, payments, req, ctx);
    } else if TotalPaid(payments, req.feeId) + req.amount > fees[req.feeId].amount {
      PayStepOverpayment(fees, payments, req, ctx);
    } else {
      PayStepAccepted(fees, payments, req, ctx);
    }
  }

  /** The transaction is deterministic: one request admits one answer and one pair of new tables. */
  lemma PaymentStepFunctional(fees: map<string, Fee>, payments: seq<Payment>, req: PaymentRequest, ctx: PaymentContext,
                              r1: Result<Receipt, PaymentError>, fees1: map<string, Fee>, payments1: seq<Payment>,
                              r2: Result<Receipt, PaymentError>, fees2: map<string, Fee>, payments2: seq<Payment>)
    requires PaymentStep(fees, payments, req, ctx, r1, fees1, payments1)
    requires PaymentStep(fees, payments, req, ctx, r2, fees2, payments2)
    ensures r1 == r2 && fees1 == fees2 && payments1 == payments2
  {
  }

  /**
   * The transaction relation is the processor `Pay`: an answer and new tables
   * are a step exactly when they are `Pay`'s.
   */
  lemma PaymentStepIsPay(fees: map<string, Fee>, payments: seq<Payment>, req: PaymentRequest, ctx: PaymentContext,
                         r: Result<Receipt, PaymentError>, fees': map<string, Fee>, payments': seq<Payment>)
    ensures var out := Pay(Books(fees, payments), req, ctx);
            PaymentStep(fees, payments, req, ctx, r, fees', payments')
            <==> r == out.0 && fees' == out.1.fees && payments' == out.1.payments
  {
    var out := Pay(Books(fees, payments), req, ctx);
    PayTakesStep(fees, payments, req, ctx);
    if PaymentStep(fees, payments, req, ctx, r, fees', payments') {
      PaymentStepFunctional(fees, payments, req, ctx, r, fees', payments', out.0, out.1.fees, out.1.payments);
    }
  }

  /**
   * An accepted payment, stated on the tables themselves: appending the new
   * payment and writing the derived status is the step, and it keeps the
   * books consistent.
   */
  lemma AcceptedStep(fees: map<string, Fee>, payments: seq<Payment>, req: PaymentRequest, ctx: PaymentContext,
                     r: Result<Receipt, PaymentError>, fees': map<string, Fee>, payments': seq<Payment>)
    requires Consistent(Books(fees, payments)) && req.amount >= MinPayment
    requires req.feeId in fees && TotalPaid(payments, req.feeId) + req.amount <= fees[req.feeId].amount
    requires var fee := fees[req.feeId];
             var newTotal := TotalPaid(payments, req.feeId) + req.amount;
             var status := DeriveStatus(newTotal, fee.amount);
             && fees' == fees[req.feeId := fee.(status := status, updatedAt := ctx.now)]
             && payments' == payments + [NewPayment(fee, req, ctx)]
             && r.Ok? && r.value == Receipt(ctx.paymentId, Ids.StampId("#RC", ctx.stamp), newTotal, fee.amount - newTotal, status)
    ensures Consistent(Books(fees', payments'))
    ensures PaymentStep(fees, payments, req, ctx, r, fees', payments')
  {
    AcceptKeepsConsistent(Books(fees, payments), req, ctx, Books(fees', payments'));
  }

  /**
   * The insert of `POST /api/students`: the student goes in under the given id
   * or `ST` plus the last eight digits of `studentStamp`, its invoice under `INV`
   * plus the last eight digits of `feeStamp`. A clash on either id (code 23505)
   * rolls both back with "Student ID already exists".
   */
  ghost predicate StudentInsert(students: map<string, Student>, fees: map<string, Fee>, req: Validators.StudentRequest,
                                studentStamp: nat, feeStamp: nat, dueDate: Date, now: Date,
                                r: Result<Student, WriteError>, students': map<string, Student>, fees': map<string, Fee>)
  {
    var studentId := StudentIdFor(req.id, studentStamp);
    var feeId := Ids.StampId("INV", feeStamp);
    if studentId in students || feeId in fees then
      r == Err(BadRequest("Student ID already exists")) && students' == students && fees' == fees
    else
      && r.Ok?
      && r.value == Student(studentId, req.name, req.email, req.phone, req.dob, req.klass,
                            req.parentName, req.parentPhone, req.address, req.status)
      && students' == students[studentId := r.value]
      && fees' == fees[feeId := Fee(feeId, studentId, req.klass, EnrollmentFee(req.klass), Some(dueDate), Pending,
                                    Some("Term Fee"), now, now)]
  }

  /**
   * The student, invoice, payment and grade tables: students sit under their
   * own ids and the invoices and payments form consistent books.
   */
  class Db {
    var students: map<string, Student>
    var fees: map<string, Fee>
    var payments: seq<Payment>
    var grades: seq<Grade>

    predicate Valid()
      reads this
    {
      && (forall k {:trigger students[k]} :: k in students ==> students[k].id == k)
      && Consistent(Books(fees, payments))
    }

    /** An empty database. */
    constructor ()
      ensures Valid()
      ensures students == map[] && fees == map[] && payments == [] && grades == []
    {
      students := map[];
      fees := map[];
      payments := [];
      grades := [];
    }

    /** The invoice store and payment ledger as one value. */
    function BooksNow(): Books
      reads this
    {
      Books(fees, payments)
    }

    /**
     * `POST /api/payments`: validate the body, then run the payment
     * transaction. A body that fails validation is answered with the first
     * failing message and changes nothing; otherwise the transaction takes
     * the step `PaymentStep` describes, which is the processor `Pay`.
     */
    method RecordPayment(input: Validators.PaymentInput, ctx: PaymentContext)
      returns (r: Result<Receipt, PaymentError>)
      requires Valid()
      modifies this
      ensures Valid()
      ensures students == old(students) && grades == old(grades)
      ensures Validators.ValidatePayment(input, ctx.now).Err? ==>
                r == Err(Invalid(Validators.ValidatePayment(input, ctx.now).error))
                && fees == old(fees) && payments == old(payments)
      ensures Validators.ValidatePayment(input, ctx.now).Ok? ==>
                PaymentStep(old(fees), old(payments), Validators.ValidatePayment(input, ctx.now).value, ctx,
                            r, fees, payments)
    {
      var v := Validators.ValidatePayment(input, ctx.now);
      if v.Err? {
        return Err(Invalid(v.error));
      }
      r := ApplyPayment(v.value, ctx);
    }

    /**
     * The payment transaction on a validated request: look the fee up, sum
     * what is paid, refuse an overpayment, append the payment and write the
     * derived status; students and grades do not change.
     */
    method ApplyPayment(req: PaymentRequest, ctx: PaymentContext) returns (r: Result<Receipt, PaymentError>)
      requires Valid() && req.amount >= MinPayment
      modifies this
      ensures Valid()
      ensures students == old(students) && grades == old(grades)
      ensures PaymentStep(old(fees), old(payments), req, ctx, r, fees, payments)
    {
      if req.feeId !in fees {
        return Err(FeeNotFound);
      }
      var fee := fees[req.feeId];
      var paid := TotalPaid(payments, req.feeId);
      var newTotal := paid + req.amount;
      if newTotal > fee.amount {
        return Err(ExceedsBalance(fee.amount - paid));
      }
      r := Accept(req, ctx);
    }

    /**
     * The accepting half of the transaction: insert the payment, carrying the
     * fee's student and the `#RC` receipt number, and write the status the new
     * total derives; the receipt reports the new total and the balance left.
     */
    method Accept(req: PaymentRequest, ctx: PaymentContext) returns (r: Result<Receipt, PaymentError>)
      requires Valid() && req.amount >= MinPayment
      requires req.feeId in fees && TotalPaid(payments, req.feeId) + req.amount <= fees[req.feeId].amount
      modifies this
      ensures Valid()
      ensures students == old(students) && grades == old(grades)
      ensures PaymentStep(old(fees), old(payments), req, ctx, r, fees, payments)
    {
      var fees0, payments0 := fees, payments;
      var fee := fees0[req.feeId];
      var newTotal := TotalPaid(payments0, req.feeId) + req.amount;
      var status := DeriveStatus(newTotal, fee.amount);
      var fees1 := fees0[req.feeId := fee.(status := status, updatedAt := ctx.now)];
      var payments1 := payments0 + [NewPayment(fee, req, ctx)];
      r := Ok(Receipt(ctx.paymentId, Ids.StampId("#RC", ctx.stamp), newTotal, fee.amount - newTotal, status));
      AcceptedStep(fees0, payments0, req, ctx, r, fees1, payments1);
      fees, payments := fees1, payments1;
    }

    /**
     * `POST /api/students`: validate the body, then insert the student and its
     * first invoice as `StudentInsert` describes. A body that fails validation
     * is answered with the first failing message and changes nothing.
     */
    method CreateStudent(input: Validators.StudentInput, today: Date, studentStamp: nat, feeStamp: nat,
                         dueDate: Date, now: Date)
      returns (r: Result<Student, WriteError>)
      requires Valid()
      modifies this
      ensures Valid()
      ensures payments == old(payments) && grades == old(grades)
      ensures var v := Validators.ValidateStudent(input, today);
              && (v.Err? ==> r == Err(BadRequest(v.error)) && students == old(students) && fees == old(fees))
              && (v.Ok? ==> StudentInsert(old(students), old(fees), v.value, studentStamp, feeStamp, dueDate, now,
                                          r, students, fees))
    {
      var v := Validators.ValidateStudent(input, today);
      if v.Err? {
        return Err(BadRequest(v.error));
      }
      r := InsertStudent(v.value, studentStamp, feeStamp, dueDate, now);
    }

    /**
     * The insert transaction of `POST /api/students` on a validated body: the
     * student and its `pending` "Term Fee" invoice, priced by the class tier,
     * go in together or not at all.
     */
    method InsertStudent(req: Validators.StudentRequest, studentStamp: nat, feeStamp: nat, dueDate: Date, now: Date)
      returns (r: Result<Student, WriteError>)
      requires Valid()
      modifies this
      ensures Valid()
      ensures payments == old(payments) && grades == old(grades)
      ensures StudentInsert(old(students), old(fees), req, studentStamp, feeStamp, dueDate, now, r, students, fees)
    {
      var studentId := StudentIdFor(req.id, studentStamp);
      var student := Student(studentId, req.name, req.email, req.phone, req.dob, req.klass,
                             req.parentName, req.parentPhone, req.address, req.status);
      var feeId := Ids.StampId("INV", feeStamp);
      if studentId in students || feeId in fees {
        return Err(BadRequest("Student ID already exists"));
      }
      students := students[studentId := student];
      var fee := Fee(feeId, studentId, req.klass, EnrollmentFee(req.klass), Some(dueDate), Pending,
                     Some("Term Fee"), now, now);
      AddFeeKeepsConsistent(Books(fees, payments), fee);
      fees := fees[feeId := fee];
      r := Ok(student);
    }

    /**
     * `POST /api/fees`: validate the body and insert the invoice under the given
     * id or `INV` plus the last eight digits of `stamp`; the status defaults to
     * `pending` and there is no description. An id already in use makes the
     * insert fail with "Error creating fee".
     */
    method CreateFee(input: Validators.FeeInput, stamp: nat, now: Date) returns (r: Result<Fee, WriteError>)
      requires Valid()
      modifies this
      ensures Valid()
      ensures students == old(students) && payments == old(payments) && grades == old(grades)
      ensures Validators.ValidateFee(input).Err? ==> r == Err(BadRequest(Validators.ValidateFee(input).error))
      ensures r.Err? ==> fees == old(fees)
      ensures r.Ok? <==>
                var v := Validators.ValidateFee(input);
                v.Ok? && FeeIdFor(v.value.id, stamp) !in old(fees)
      ensures r.Ok? ==>
                var req := Validators.ValidateFee(input).value;
                && r.value.id == FeeIdFor(req.id, stamp)
                && r.value == Fee(r.value.id, req.studentId, req.klass, req.amount, req.dueDate, req.status, None, now, now)
                && fees == old(fees)[r.value.id := r.value]
    {
      var v := Validators.ValidateFee(input);
      if v.Err? {
        return Err(BadRequest(v.error));
      }
      var req := v.value;
      var feeId := FeeIdFor(req.id, stamp);
      if feeId in fees {
        return Err(ServerError("Error creating fee"));
      }
      var fee := Fee(feeId, req.studentId, req.klass, req.amount, req.dueDate, req.status, None, now, now);
      AddFeeKeepsConsistent(Books(fees, payments), fee);
      fees := fees[feeId := fee];
      r := Ok(fee);
    }

    /**
     * `DELETE /api/students/:id`: delete the student's payments, fees and
     * grades, then the student; when no student row was deleted, roll all of
     * it back and answer 404. Other students' rows are untouched.
     */
    method DeleteStudent(id: string) returns (r: Result<Student, WriteError>)
      requires Valid()
      modifies this
      ensures Valid()
      ensures id !in old(students) ==>
                && r == Err(NotFound("Student not found"))
                && students == old(students) && fees == old(fees)
                && payments == old(payments) && grades == old(grades)
      ensures id in old(students) ==>
                && r == Ok(old(students)[id])
                && students == old(students) - {id}
                && BooksNow() == RemoveStudents(old(BooksNow()), {id})
                && grades == GradesNotOf(old(grades), {id})
      ensures id in old(students) ==>
                && (forall k :: k in fees ==> fees[k].studentId != id)
                && (forall p :: p in payments ==> p.studentId != id)
                && (forall k :: k in old(fees) && old(fees)[k].studentId != id ==> k in fees && fees[k] == old(fees)[k])
                && (forall p :: p in old(payments) && p.studentId != id ==> p in payments)
    {
      var savedFees, savedPayments, savedGrades := fees, payments, grades;
      RemoveStudentsKeepsConsistent(Books(fees, payments), {id});
      payments := PaymentsNotOf(payments, {id});
      fees := FeesNotOf(fees, {id});
      grades := GradesNotOf(grades, {id});
      if id !in students {
        fees, payments, grades := savedFees, savedPayments, savedGrades;
        return Err(NotFound("Student not found"));
      }
      r := Ok(students[id]);
      students := students - {id};
    }

    /**
     * `DELETE /api/students`: refuse a missing or empty id list; otherwise
     * delete the listed students' payments, fees and grades and the students,
     * and report how many listed students existed.
     */
    method DeleteStudents(ids: Option<seq<string>>) returns (r: Result<nat, WriteError>)
      requires Valid()
      modifies this
      ensures Valid()
      ensures ids.None? || ids.value == [] ==>
                && r == Err(BadRequest("Please provide an array of student IDs"))
                && students == old(students) && fees == old(fees)
                && payments == old(payments) && grades == old(grades)
      ensures ids.Some? && ids.value != [] ==>
                var s := IdSet(ids.value);
                && r == Ok(|old(students).Keys * s|)
                && students.Keys == old(students).Keys - s
                && (forall k :: k in students ==> students[k] == old(students)[k])
                && BooksNow() == RemoveStudents(old(BooksNow()), s)
                && grades == GradesNotOf(old(grades), s)
    {
      if ids.None? || ids.value == [] {
        return Err(BadRequest("Please provide an array of student IDs"));
      }
      var s := IdSet(ids.value);
      RemoveStudentsKeepsConsistent(Books(fees, payments), s);
      payments := PaymentsNotOf(payments, s);
      fees := FeesNotOf(fees, s);
      grades := GradesNotOf(grades, s);
      var deleted := students.Keys * s;
      students := map k | k in students && k !in s :: students[k];
      r := Ok(|deleted|);
    }

    /**
     * `GET /api/fees`: the fees with the queried status (all of them when the
     * query is absent or empty), latest due date first, each with its
     * student, its payments oldest first, `total_paid` and `balance`.
     */
    method ListFees(statusQuery: Option<string>) returns (views: seq<FeeView>)
      requires Valid()
      ensures |views| == |Selected(fees, StatusFilter(statusQuery))|
      ensures forall i, j :: 0 <= i < j < |views| ==> MayPrecede(views[i].fee.dueDate, views[j].fee.dueDate)
      ensures forall k :: k in Selected(fees, StatusFilter(statusQuery)) ==>
                exists i :: 0 <= i < |views| && views[i].fee == fees[k]
      ensures forall i :: 0 <= i < |views| ==>
                ShowsBooks(Books(fees, payments), Selected(fees, StatusFilter(statusQuery)), students, views[i])
    {
      var rows := SelectFees(fees, StatusFilter(statusQuery), DueDateDesc);
      if rows == [] {
        return [];
      }
      var fetched := FetchedPayments(payments, IdsOf(rows));
      var groups := GroupByFee(fetched);
      views := EnrichAll(rows, students, groups);
      ListedViewsOrder(rows, students, groups);
      ListedViewsCover(fees, Selected(fees, StatusFilter(statusQuery)), rows, students, groups);
      ListedViewsRows(BooksNow(), Selected(fees, StatusFilter(statusQuery)), rows, students, groups);
    }

    /**
     * `GET /api/students/:id/fees`: the student's fees, newest first, each with
     * the sum of its payments and the balance left.
     */
    method StudentFees(id: string) returns (rows: seq<SummaryRow>)
      requires Valid()
      ensures forall i, j :: 0 <= i < j < |rows| ==> rows[i].fee.createdAt >= rows[j].fee.createdAt
      ensures forall k :: k in fees ==> (fees[k].studentId == id <==> exists i :: 0 <= i < |rows| && rows[i].fee == fees[k])
      ensures forall i :: 0 <= i < |rows| ==>
                && rows[i].fee.id in fees && fees[rows[i].fee.id] == rows[i].fee && rows[i].fee.studentId == id
                && rows[i].totalPaid == TotalPaid(payments, rows[i].fee.id)
                && 0 <= rows[i].balance == rows[i].fee.amount - rows[i].totalPaid
    {
      var selected := SelectFees(fees, OfStudent(id), CreatedAtDesc);
      rows := SummariseAll(selected, payments);
      SummaryOrder(selected, payments);
      SummaryCover(fees, id, selected, payments);
      SummaryAgreesWithBooks(BooksNow(), id, selected);
    }
  }

  /** The `attendance` table: one row per (student, date). */
  class AttendanceBook {
    var rows: map<AttendanceKey, AttendanceRecord>

    predicate Valid()
      reads this
    {
      KeyedByStudentDate(rows)
    }

    /** An empty table. */
    constructor ()
      ensures Valid() && rows == map[]
    {
      rows := map[];
    }

    /**
     * `POST /api/attendance`: refuse a missing or empty batch; otherwise upsert
     * the entries one by one, marked by `actor`, and return the row each step
     * left behind, in batch order.
     */
    method Mark(records: Option<seq<AttendanceEntry>>, today: Date, actor: string)
      returns (r: Result<seq<AttendanceRecord>, WriteError>)
      requires Valid()
      modifies this
      ensures Valid()
      ensures records.None? || records.value == [] ==>
                r == Err(BadRequest("Please provide attendance records")) && rows == old(rows)
      ensures records.Some? && records.value != [] ==>
                var es := records.value;
                && r == Ok(StepRows(old(rows), es, today, actor))
                && rows == UpsertAll(old(rows), es, today, actor)
                && rows.Keys == old(rows).Keys + BatchKeys(es, today)
                && (forall i :: 0 <= i < |es| ==>
                      (r.value[i].studentId, r.value[i].date) == EntryKey(es[i], today)
                      && r.value[i].status == es[i].status && r.value[i].markedBy == actor)
    {
      if records.None? || records.value == [] {
        return Err(BadRequest("Please provide attendance records"));
      }
      var es := records.value;
      var start := rows;
      var t := start;
      var out: seq<AttendanceRecord> := [];
      var n := 0;
      while n < |es|
        invariant 0 <= n <= |es|
        invariant t == UpsertAll(start, es[..n], today, actor)
        invariant out == StepRows(start, es[..n], today, actor)
      {
        UpsertAllSnoc(start, es, today, actor, n);
        t := Upsert(t, es[n], today, actor);
        out := out + [t[EntryKey(es[n], today)]];
        n := n + 1;
      }
      assert es[..n] == es;
      UpsertAllKeys(start, es, today, actor);
      forall i | 0 <= i < |es|
        ensures (out[i].studentId, out[i].date) == EntryKey(es[i], today)
        ensures out[i].status == es[i].status && out[i].markedBy == actor
      {
        StepRowsAt(start, es, today, actor, i);
      }
      rows := t;
      r := Ok(out);
    }
  }

  /** The `announcements` table, each row under its own id. */
  class NoticeBoard {
    var announcements: map<string, Announcement>

    predicate Valid()
      reads this
    {
      forall k {:trigger announcements[k]} :: k in announcements ==> announcements[k].id == k
    }

    /** An empty board. */
    constructor ()
      ensures Valid() && announcements == map[]
    {
      announcements := map[];
    }

    /**
     * `PUT /api/announcements/:id`: apply the COALESCE update to the row, or
     * answer 404 when there is none.
     */
    method Update(id: string, patch: AnnouncementPatch, now: Date)
      returns (r: Result<Announcement, WriteError>)
      requires Valid()
      modifies this
      ensures Valid()
      ensures id !in old(announcements) ==>
                r == Err(NotFound("Announcement not found")) && announcements == old(announcements)
      ensures id in old(announcements) ==>
                && r == Ok(ApplyPatch(old(announcements)[id], patch, now))
                && announcements == old(announcements)[id := r.value]
    {
      if id !in announcements {
        return Err(NotFound("Announcement not found"));
      }
      var a := ApplyPatch(announcements[id], patch, now);
      announcements := announcements[id := a];
      r := Ok(a);
    }
  }
}
