/**
 * The fee/payment ledger of `index.js`: the invoice store (fee id to fee), the
 * append-only payment ledger, the balance calculator, the status a payment
 * writes, the enrollment fee tiers and the payment processor as one atomic step.
 * Money is integer cents (the validators fix amounts to two decimals).
 */
module Ledger {
  import opened Common
  import Ids

  /** A calendar date or instant; only its order matters here. */
  type Date = int

  /** 999,999.99, the largest amount the validators accept. */
  const MaxAmount: int := 99999999
  /** 0.01, the smallest payment the validators accept. */
  const MinPayment: int := 1

  datatype Status = Pending | Partial | Paid | Overdue

  /** The text stored in `fees.status`. */
  function StatusName(s: Status): string {
    match s
    case Pending => "pending"
    case Partial => "partial"
    case Paid => "paid"
    case Overdue => "overdue"
  }

  /** Reading a stored status back; None for any other text. */
  function ParseStatus(name: string): (r: Option<Status>)
    ensures r.Some? ==> StatusName(r.value) == name
  {
    if name == "pending" then Some(Pending)
    else if name == "partial" then Some(Partial)
    else if name == "paid" then Some(Paid)
    else if name == "overdue" then Some(Overdue)
    else None
  }

  /** Every stored status reads back as itself. */
  lemma ParseStatusName(s: Status)
    ensures ParseStatus(StatusName(s)) == Some(s)
  {
  }

  /** A row of `students`; `status` is one of Active, Inactive, Pending. */
  datatype Student = Student(
    id: string, name: string, email: Option<string>, phone: Option<string>,
    dob: Option<Date>, klass: Option<string>, parentName: Option<string>,
    parentPhone: Option<string>, address: Option<string>, status: string)

  /** A row of `fees` (an invoice). */
  datatype Fee = Fee(
    id: string, studentId: string, klass: Option<string>, amount: int,
    dueDate: Option<Date>, status: Status, description: Option<string>,
    createdAt: Date, updatedAt: Date)

  /** A row of `payments`; `studentId` is copied from the fee when it is inserted. */
  datatype Payment = Payment(
    id: string, feeId: string, studentId: string, amount: int,
    paymentMethod: Option<string>, paymentDate: Date, notes: Option<string>,
    receiptNumber: string, issuedBy: string)

  /** The invoice store and the payment ledger together. */
  datatype Books = Books(fees: map<string, Fee>, payments: seq<Payment>)

  // ---------------------------------------------------------------------------
  // Balance calculator

  /** `COALESCE(SUM(amount), 0)`, and the `reduce` over a fee's payments. */
  function Sum(ps: seq<Payment>): int
    decreases |ps|
  {
    if ps == [] then 0 else ps[0].amount + Sum(ps[1..])
  }

  /** `WHERE fee_id = $1`, in ledger order. */
  function PaymentsOf(ledger: seq<Payment>, feeId: string): (r: seq<Payment>)
    ensures |r| <= |ledger|
    ensures forall p :: p in r <==> p in ledger && p.feeId == feeId
    decreases |ledger|
  {
    if ledger == [] then []
    else (if ledger[0].feeId == feeId then [ledger[0]] else []) + PaymentsOf(ledger[1..], feeId)
  }

  /** What has been paid against a fee so far. */
  function TotalPaid(ledger: seq<Payment>, feeId: string): int {
    Sum(PaymentsOf(ledger, feeId))
  }

  lemma {:induction false} SumAppend(a: seq<Payment>, b: seq<Payment>)
    ensures Sum(a + b) == Sum(a) + Sum(b)
    decreases |a|
  {
    if a != [] {
      assert (a + b)[1..] == a[1..] + b;
      SumAppend(a[1..], b);
    } else {
      assert a + b == b;
    }
  }

  lemma {:induction false} PaymentsOfAppend(a: seq<Payment>, b: seq<Payment>, feeId: string)
    ensures PaymentsOf(a + b, feeId) == PaymentsOf(a, feeId) + PaymentsOf(b, feeId)
    decreases |a|
  {
    if a != [] {
      assert (a + b)[1..] == a[1..] + b;
      PaymentsOfAppend(a[1..], b, feeId);
    } else {
      assert a + b == b;
    }
  }

  /** Appending one payment raises its own fee's total by its amount and no other fee's. */
  lemma TotalPaidAppend(ledger: seq<Payment>, p: Payment, feeId: string)
    ensures PaymentsOf(ledger + [p], feeId)
         == PaymentsOf(ledger, feeId) + (if p.feeId == feeId then [p] else [])
    ensures TotalPaid(ledger + [p], feeId)
         == TotalPaid(ledger, feeId) + (if p.feeId == feeId then p.amount else 0)
  {
    PaymentsOfAppend(ledger, [p], feeId);
    var own := if p.feeId == feeId then [p] else [];
    assert PaymentsOf([p], feeId) == own + PaymentsOf([p][1..], feeId);
    assert [p][1..] == [];
    SumAppend(PaymentsOf(ledger, feeId), own);
    assert Sum(own) == if p.feeId == feeId then p.amount else 0;
  }

  /** A sum of payments of at least one cent each is at least their number. */
  lemma {:induction false} SumAtLeastCount(ps: seq<Payment>)
    requires forall i :: 0 <= i < |ps| ==> ps[i].amount >= MinPayment
    ensures Sum(ps) >= |ps|
    decreases |ps|
  {
    if ps != [] {
      SumAtLeastCount(ps[1..]);
    }
  }

  // ---------------------------------------------------------------------------
  // Status written by the payment processor

  /** `paid` once the total reaches the amount, `partial` while some is paid, else `pending`. */
  function DeriveStatus(newTotal: int, amount: int): (s: Status)
    ensures s != Overdue
    ensures s == Paid <==> newTotal >= amount
    ensures s == Partial <==> 0 < newTotal < amount
    ensures s == Pending <==> newTotal <= 0 && newTotal < amount
  {
    if newTotal >= amount then Paid
    else if newTotal > 0 then Partial
    else Pending
  }

  // ---------------------------------------------------------------------------
  // Ledger invariant

  /** A payment names an existing fee, carries that fee's student and is at least one cent. */
  predicate PaymentRefOk(fees: map<string, Fee>, p: Payment) {
    p.feeId in fees && p.studentId == fees[p.feeId].studentId && p.amount >= MinPayment
  }

  /**
   * What every committed state satisfies: fees are keyed by id with a
   * non-negative amount; payments reference their fee; no fee is overpaid; and
   * a fee that has payments carries the status derived from its total. A fee
   * without payments may carry any status (direct creation accepts `paid` and
   * `overdue`).
   */
  predicate Consistent(b: Books) {
    && (forall k :: k in b.fees ==> b.fees[k].id == k && b.fees[k].amount >= 0)
    && (forall i :: 0 <= i < |b.payments| ==> PaymentRefOk(b.fees, b.payments[i]))
    && (forall k {:trigger TotalPaid(b.payments, k)} :: k in b.fees ==> TotalPaid(b.payments, k) <= b.fees[k].amount)
    && (forall k {:trigger PaymentsOf(b.payments, k)} :: k in b.fees && PaymentsOf(b.payments, k) != [] ==>
          b.fees[k].status == DeriveStatus(TotalPaid(b.payments, k), b.fees[k].amount))
  }

  /** In a consistent state no balance is negative. */
  lemma BalanceNonNegative(b: Books, feeId: string)
    requires Consistent(b) && feeId in b.fees
    ensures b.fees[feeId].amount - TotalPaid(b.payments, feeId) >= 0
  {
  }

  /**
   * In a consistent state a fee that has payments is never `pending` or
   * `overdue`, is `paid` exactly when it is settled (balance zero) and
   * `partial` exactly when some balance remains.
   */
  lemma {:induction false} StatusOfPaidFee(b: Books, feeId: string)
    requires Consistent(b) && feeId in b.fees && PaymentsOf(b.payments, feeId) != []
    ensures b.fees[feeId].status != Pending && b.fees[feeId].status != Overdue
    ensures b.fees[feeId].status == Paid <==> TotalPaid(b.payments, feeId) == b.fees[feeId].amount
    ensures b.fees[feeId].status == Partial <==> TotalPaid(b.payments, feeId) < b.fees[feeId].amount
  {
    var ps := PaymentsOf(b.payments, feeId);
    forall i | 0 <= i < |ps| ensures ps[i].amount >= MinPayment {
      assert ps[i] in b.payments;
      var j :| 0 <= j < |b.payments| && b.payments[j] == ps[i];
      assert PaymentRefOk(b.fees, b.payments[j]);
    }
    SumAtLeastCount(ps);
  }

  /** A fee id that no payment references has no payments and nothing paid. */
  lemma {:induction false} NoPaymentsOfUnknownFee(ledger: seq<Payment>, feeId: string)
    requires forall i :: 0 <= i < |ledger| ==> ledger[i].feeId != feeId
    ensures PaymentsOf(ledger, feeId) == []
    ensures TotalPaid(ledger, feeId) == 0
    decreases |ledger|
  {
    if ledger != [] {
      NoPaymentsOfUnknownFee(ledger[1..], feeId);
    }
  }

  /** Inserting a fee under a new id keeps the books consistent. */
  lemma AddFeeKeepsConsistent(b: Books, f: Fee)
    requires Consistent(b)
    requires f.id !in b.fees && f.amount >= 0
    ensures Consistent(Books(b.fees[f.id := f], b.payments))
  {
    var fees' := b.fees[f.id := f];
    forall i | 0 <= i < |b.payments| ensures PaymentRefOk(fees', b.payments[i]) {
      assert PaymentRefOk(b.fees, b.payments[i]);
    }
    forall i | 0 <= i < |b.payments| ensures b.payments[i].feeId != f.id {
      assert PaymentRefOk(b.fees, b.payments[i]);
    }
    NoPaymentsOfUnknownFee(b.payments, f.id);
  }

  // ---------------------------------------------------------------------------
  // Payment processor (index.js POST /api/payments, after validation)

  /** A payment request whose fields passed `paymentSchema`. */
  datatype PaymentRequest = PaymentRequest(
    feeId: string, amount: int, paymentMethod: Option<string>,
    paymentDate: Option<Date>, notes: Option<string>)

  /** What the handler takes from outside the request: uuid, actor, clock. */
  datatype PaymentContext = PaymentContext(paymentId: string, issuedBy: string, stamp: nat, now: Date)

  /** The success response: `paymentId`, `receiptNumber`, `total_paid`, `balance`, `status`. */
  datatype Receipt = Receipt(paymentId: string, receiptNumber: string, totalPaid: int, balance: int, status: Status)

  /** 400 from validation, 404 for an unknown fee, 400 with the remaining balance. */
  datatype PaymentError = Invalid(message: string) | FeeNotFound | ExceedsBalance(balance: int)

  /** The payment row the processor inserts for an accepted request. */
  function NewPayment(fee: Fee, req: PaymentRequest, ctx: PaymentContext): (p: Payment)
    ensures p.feeId == req.feeId && p.studentId == fee.studentId && p.amount == req.amount
    ensures p.receiptNumber == Ids.StampId("#RC", ctx.stamp)
  {
    Payment(ctx.paymentId, req.feeId, fee.studentId, req.amount, req.paymentMethod,
            req.paymentDate.GetOr(ctx.now), req.notes, Ids.StampId("#RC", ctx.stamp), ctx.issuedBy)
  }

  /**
   * One payment transaction: look the fee up, sum what is paid, refuse an
   * overpayment (reporting the remaining balance), otherwise append one payment
   * and write the derived status. A refused request leaves the books as they were.
   */
  function Pay(b: Books, req: PaymentRequest, ctx: PaymentContext): (out: (Result<Receipt, PaymentError>, Books))
    ensures req.feeId !in b.fees ==> out == (Err(FeeNotFound), b)
    ensures req.feeId in b.fees && TotalPaid(b.payments, req.feeId) + req.amount > b.fees[req.feeId].amount ==>
              out == (Err(ExceedsBalance(b.fees[req.feeId].amount - TotalPaid(b.payments, req.feeId))), b)
    ensures out.0.Ok? <==>
              req.feeId in b.fees && TotalPaid(b.payments, req.feeId) + req.amount <= b.fees[req.feeId].amount
    ensures out.0.Ok? ==>
              var fee := b.fees[req.feeId];
              var r := out.0.value;
              && out.1.payments == b.payments + [NewPayment(fee, req, ctx)]
              && out.1.fees == b.fees[req.feeId := fee.(status := r.status, updatedAt := ctx.now)]
              && r.totalPaid == TotalPaid(out.1.payments, req.feeId) == TotalPaid(b.payments, req.feeId) + req.amount
              && 0 <= r.balance && r.totalPaid + r.balance == fee.amount
              && r.status == DeriveStatus(r.totalPaid, fee.amount)
              && r.paymentId == ctx.paymentId && r.receiptNumber == Ids.StampId("#RC", ctx.stamp)
  {
    if req.feeId !in b.fees then (Err(FeeNotFound), b)
    else
      var fee := b.fees[req.feeId];
      var paid := TotalPaid(b.payments, req.feeId);
      var newTotal := paid + req.amount;
      if newTotal > fee.amount then (Err(ExceedsBalance(fee.amount - paid)), b)
      else
        var p := NewPayment(fee, req, ctx);
        var status := DeriveStatus(newTotal, fee.amount);
        TotalPaidAppend(b.payments, p, req.feeId);
        (Ok(Receipt(ctx.paymentId, Ids.StampId("#RC", ctx.stamp), newTotal, fee.amount - newTotal, status)),
         Books(b.fees[req.feeId := fee.(status := status, updatedAt := ctx.now)], b.payments + [p]))
  }

  /** `b'` is `b` after accepting `req`: one payment appended and the fee's status and time written. */
  ghost predicate AcceptedBooks(b: Books, req: PaymentRequest, ctx: PaymentContext, b': Books) {
    && req.feeId in b.fees
    && var fee := b.fees[req.feeId];
       var status := DeriveStatus(TotalPaid(b.payments, req.feeId) + req.amount, fee.amount);
       && b'.fees == b.fees[req.feeId := fee.(status := status, updatedAt := ctx.now)]
       && b'.payments == b.payments + [NewPayment(fee, req, ctx)]
  }

  lemma AcceptKeepsRefs(b: Books, req: PaymentRequest, ctx: PaymentContext, b': Books)
    requires Consistent(b) && req.amount >= MinPayment && AcceptedBooks(b, req, ctx, b')
    ensures forall i :: 0 <= i < |b'.payments| ==> PaymentRefOk(b'.fees, b'.payments[i])
  {
    forall i | 0 <= i < |b'.payments| ensures PaymentRefOk(b'.fees, b'.payments[i]) {
      if i < |b.payments| {
        assert b'.payments[i] == b.payments[i];
        assert PaymentRefOk(b.fees, b.payments[i]);
      }
    }
  }

  lemma AcceptKeepsCaps(b: Books, req: PaymentRequest, ctx: PaymentContext, b': Books)
    requires Consistent(b) && AcceptedBooks(b, req, ctx, b')
    requires TotalPaid(b.payments, req.feeId) + req.amount <= b.fees[req.feeId].amount
    ensures forall k :: k in b'.fees ==> TotalPaid(b'.payments, k) <= b'.fees[k].amount
  {
    forall k | k in b'.fees ensures TotalPaid(b'.payments, k) <= b'.fees[k].amount {
      TotalPaidAppend(b.payments, NewPayment(b.fees[req.feeId], req, ctx), k);
    }
  }

  lemma AcceptKeepsStatuses(b: Books, req: PaymentRequest, ctx: PaymentContext, b': Books)
    requires Consistent(b) && AcceptedBooks(b, req, ctx, b')
    ensures forall k :: k in b'.fees && PaymentsOf(b'.payments, k) != [] ==>
              b'.fees[k].status == DeriveStatus(TotalPaid(b'.payments, k), b'.fees[k].amount)
  {
    forall k | k in b'.fees && PaymentsOf(b'.payments, k) != []
      ensures b'.fees[k].status == DeriveStatus(TotalPaid(b'.payments, k), b'.fees[k].amount)
    {
      TotalPaidAppend(b.payments, NewPayment(b.fees[req.feeId], req, ctx), k);
    }
  }

  lemma AcceptKeepsKeys(b: Books, req: PaymentRequest, ctx: PaymentContext, b': Books)
    requires Consistent(b) && AcceptedBooks(b, req, ctx, b')
    ensures forall k :: k in b'.fees ==> b'.fees[k].id == k && b'.fees[k].amount >= 0
  {
  }

  /**
   * Accepting a payment that fits keeps the books consistent: the new row
   * references its fee, the fee stays within its amount, and the fee's
   * written status is the one its new total derives.
   */
  lemma AcceptKeepsConsistent(b: Books, req: PaymentRequest, ctx: PaymentContext, b': Books)
    requires Consistent(b) && req.amount >= MinPayment && AcceptedBooks(b, req, ctx, b')
    requires TotalPaid(b.payments, req.feeId) + req.amount <= b.fees[req.feeId].amount
    ensures Consistent(b')
  {
    AcceptKeepsKeys(b, req, ctx, b');
    AcceptKeepsRefs(b, req, ctx, b');
    AcceptKeepsCaps(b, req, ctx, b');
    AcceptKeepsStatuses(b, req, ctx, b');
  }

  /** The payment processor keeps the books consistent. */
  lemma PayKeepsConsistent(b: Books, req: PaymentRequest, ctx: PaymentContext)
    requires Consistent(b) && req.amount >= MinPayment
    ensures Consistent(Pay(b, req, ctx).1)
  {
    if req.feeId in b.fees && TotalPaid(b.payments, req.feeId) + req.amount <= b.fees[req.feeId].amount {
      AcceptKeepsConsistent(b, req, ctx, Pay(b, req, ctx).1);
    }
  }

  /** Every other fee's total is untouched by a payment. */
  lemma PayLeavesOtherFees(b: Books, req: PaymentRequest, ctx: PaymentContext, feeId: string)
    requires feeId != req.feeId
    ensures var b' := Pay(b, req, ctx).1;
            && (feeId in b'.fees <==> feeId in b.fees)
            && (feeId in b.fees ==> b'.fees[feeId] == b.fees[feeId])
            && TotalPaid(b'.payments, feeId) == TotalPaid(b.payments, feeId)
  {
    var out := Pay(b, req, ctx);
    if out.0.Ok? {
      TotalPaidAppend(b.payments, NewPayment(b.fees[req.feeId], req, ctx), feeId);
    }
  }

  // ---------------------------------------------------------------------------
  // Payments against one fee, serialised in arrival order

  /** Running the processor over requests in the order the row lock admits them. */
  function PayAll(b: Books, calls: seq<(PaymentRequest, PaymentContext)>): (out: (seq<Result<Receipt, PaymentError>>, Books))
    ensures |out.0| == |calls|
    decreases |calls|
  {
    if calls == [] then ([], b)
    else
      var first := Pay(b, calls[0].0, calls[0].1);
      var rest := PayAll(first.1, calls[1..]);
      ([first.0] + rest.0, rest.1)
  }

  /** The reference rule: admit each amount if it still fits under the cap. */
  function FirstFit(total: int, cap: int, amounts: seq<int>): (r: int)
    decreases |amounts|
  {
    if amounts == [] then total
    else FirstFit(if total + amounts[0] <= cap then total + amounts[0] else total, cap, amounts[1..])
  }

  /** First fit never lowers the total and never passes the cap. */
  lemma {:induction false} FirstFitBound(total: int, cap: int, amounts: seq<int>)
    requires total <= cap
    requires forall i :: 0 <= i < |amounts| ==> amounts[i] >= 0
    ensures total <= FirstFit(total, cap, amounts) <= cap
    decreases |amounts|
  {
    if amounts != [] {
      FirstFitBound(if total + amounts[0] <= cap then total + amounts[0] else total, cap, amounts[1..]);
    }
  }

  function Amounts(calls: seq<(PaymentRequest, PaymentContext)>): (r: seq<int>)
    ensures |r| == |calls| && forall i :: 0 <= i < |calls| ==> r[i] == calls[i].0.amount
  {
    seq(|calls|, i requires 0 <= i < |calls| => calls[i].0.amount)
  }

  /** One payment against a fee admits its amount exactly when it fits, and keeps the fee amount. */
  lemma PayOneStep(b: Books, req: PaymentRequest, ctx: PaymentContext)
    requires req.feeId in b.fees
    ensures var b' := Pay(b, req, ctx).1;
            var t0 := TotalPaid(b.payments, req.feeId);
            && req.feeId in b'.fees && b'.fees[req.feeId].amount == b.fees[req.feeId].amount
            && TotalPaid(b'.payments, req.feeId)
               == if t0 + req.amount <= b.fees[req.feeId].amount then t0 + req.amount else t0
  {
  }

  /** Payments against one fee move its total by first fit and leave its amount alone. */
  lemma {:induction false} PayAllTotal(b: Books, feeId: string, calls: seq<(PaymentRequest, PaymentContext)>)
    requires feeId in b.fees
    requires forall i :: 0 <= i < |calls| ==> calls[i].0.feeId == feeId
    ensures var b' := PayAll(b, calls).1;
            && feeId in b'.fees && b'.fees[feeId].amount == b.fees[feeId].amount
            && TotalPaid(b'.payments, feeId) == FirstFit(TotalPaid(b.payments, feeId), b.fees[feeId].amount, Amounts(calls))
    decreases |calls|
  {
    if calls != [] {
      var req, rest := calls[0].0, calls[1..];
      var first := Pay(b, req, calls[0].1).1;
      var cap, t0 := b.fees[feeId].amount, TotalPaid(b.payments, feeId);
      PayOneStep(b, req, calls[0].1);
      assert forall i :: 0 <= i < |rest| ==> rest[i] == calls[i + 1];
      PayAllTotal(first, feeId, rest);
      assert PayAll(b, calls).1 == PayAll(first, rest).1;
      var amounts := Amounts(calls);
      assert amounts[0] == req.amount && amounts[1..] == Amounts(rest);
      assert FirstFit(t0, cap, amounts)
          == FirstFit(if t0 + req.amount <= cap then t0 + req.amount else t0, cap, Amounts(rest));
    }
  }

  /** Any run of validated payments keeps the books consistent. */
  lemma {:induction false} PayAllKeepsConsistent(b: Books, calls: seq<(PaymentRequest, PaymentContext)>)
    requires Consistent(b)
    requires forall i :: 0 <= i < |calls| ==> calls[i].0.amount >= MinPayment
    ensures Consistent(PayAll(b, calls).1)
    decreases |calls|
  {
    if calls != [] {
      PayKeepsConsistent(b, calls[0].0, calls[0].1);
      PayAllKeepsConsistent(Pay(b, calls[0].0, calls[0].1).1, calls[1..]);
    }
  }

  /**
   * Payments against one fee, taken one at a time in the order the row lock
   * admits them, accept exactly the ones that still fit: the final total is
   * the first-fit total of the amounts, and it never exceeds the fee amount.
   */
  lemma SerialisedPayments(b: Books, feeId: string, calls: seq<(PaymentRequest, PaymentContext)>)
    requires Consistent(b) && feeId in b.fees
    requires forall i :: 0 <= i < |calls| ==> calls[i].0.feeId == feeId && calls[i].0.amount >= MinPayment
    ensures var b' := PayAll(b, calls).1;
            && Consistent(b')
            && TotalPaid(b'.payments, feeId) == FirstFit(TotalPaid(b.payments, feeId), b.fees[feeId].amount, Amounts(calls))
            && TotalPaid(b'.payments, feeId) <= b.fees[feeId].amount
  {
    PayAllTotal(b, feeId, calls);
    PayAllKeepsConsistent(b, calls);
    FirstFitBound(TotalPaid(b.payments, feeId), b.fees[feeId].amount, Amounts(calls));
  }

  // ---------------------------------------------------------------------------
  // Cascade delete (index.js DELETE /api/students and /api/students/:id)

  /** `DELETE FROM payments WHERE student_id = ANY($1)`: the survivors, in order. */
  function PaymentsNotOf(ledger: seq<Payment>, students: set<string>): (r: seq<Payment>)
    ensures forall p :: p in r <==> p in ledger && p.studentId !in students
    decreases |ledger|
  {
    if ledger == [] then []
    else (if ledger[0].studentId in students then [] else [ledger[0]]) + PaymentsNotOf(ledger[1..], students)
  }

  /** `DELETE FROM fees WHERE student_id = ANY($1)`. */
  function FeesNotOf(fees: map<string, Fee>, students: set<string>): (r: map<string, Fee>)
    ensures forall k :: k in r <==> k in fees && fees[k].studentId !in students
    ensures forall k :: k in r ==> r[k] == fees[k]
  {
    map k | k in fees && fees[k].studentId !in students :: fees[k]
  }

  /** Removing a set of students' fees and payments together. */
  function RemoveStudents(b: Books, students: set<string>): Books {
    Books(FeesNotOf(b.fees, students), PaymentsNotOf(b.payments, students))
  }

  /** A surviving fee keeps exactly its payments when its student is not removed. */
  lemma {:induction false} PaymentsOfSurvivor(fees: map<string, Fee>, ledger: seq<Payment>, students: set<string>, feeId: string)
    requires forall i :: 0 <= i < |ledger| ==> PaymentRefOk(fees, ledger[i])
    requires feeId in fees && fees[feeId].studentId !in students
    ensures PaymentsOf(PaymentsNotOf(ledger, students), feeId) == PaymentsOf(ledger, feeId)
    decreases |ledger|
  {
    if ledger != [] {
      assert PaymentRefOk(fees, ledger[0]);
      PaymentsOfSurvivor(fees, ledger[1..], students, feeId);
      PaymentsOfAppend(if ledger[0].studentId in students then [] else [ledger[0]],
                       PaymentsNotOf(ledger[1..], students), feeId);
    }
  }

  /** The cascade keeps the books consistent: no payment is left pointing at a removed fee. */
  lemma RemoveStudentsKeepsConsistent(b: Books, students: set<string>)
    requires Consistent(b)
    ensures Consistent(RemoveStudents(b, students))
  {
    var b' := RemoveStudents(b, students);
    assert forall k :: k in b'.fees ==> b'.fees[k].id == k && b'.fees[k].amount >= 0;
    forall i | 0 <= i < |b'.payments| ensures PaymentRefOk(b'.fees, b'.payments[i]) {
      assert b'.payments[i] in b.payments;
      var j :| 0 <= j < |b.payments| && b.payments[j] == b'.payments[i];
      assert PaymentRefOk(b.fees, b.payments[j]);
    }
    forall k | k in b'.fees
      ensures TotalPaid(b'.payments, k) <= b'.fees[k].amount
      ensures PaymentsOf(b'.payments, k) != [] ==>
                b'.fees[k].status == DeriveStatus(TotalPaid(b'.payments, k), b'.fees[k].amount)
    {
      PaymentsOfSurvivor(b.fees, b.payments, students, k);
    }
  }

  // ---------------------------------------------------------------------------
  // Enrollment fee tiers (index.js POST /api/students)

  /** 450.00, the fee for a blank or unrecognised class. */
  const DefaultFee: int := 45000

  /** The `if` chain of the enrollment hook, checked in source order. */
  function EnrollmentFee(klass: Option<string>): (amount: int)
    ensures amount in {DefaultFee, 120000, 150000, 200000}
    ensures klass.None? || klass.value == "" ==> amount == DefaultFee
  {
    if klass.None? || klass.value == "" then DefaultFee
    else
      var c := klass.value;
      if Contains(c, "Grade 7") || Contains(c, "Grade 6") then 120000
      else if Contains(c, "Grade 8") || Contains(c, "Grade 8") then 150000
      else if Contains(c, "Grade 9") then 200000
      else DefaultFee
  }

  /** The same rule as a lookup table: the first label the class contains decides. */
  const FeeTiers: seq<(string, int)> :=
    [("Grade 7", 120000), ("Grade 6", 120000), ("Grade 8", 150000), ("Grade 9", 200000)]

  function TierLookup(tiers: seq<(string, int)>, c: string): (amount: int)
    ensures amount == DefaultFee || exists i :: 0 <= i < |tiers| && tiers[i].1 == amount && Contains(c, tiers[i].0)
    decreases |tiers|
  {
    if tiers == [] then DefaultFee
    else if Contains(c, tiers[0].0) then tiers[0].1
    else TierLookup(tiers[1..], c)
  }

  /** The enrollment `if` chain is the tier table read top to bottom. */
  lemma EnrollmentFeeIsTierTable(klass: Option<string>)
    ensures EnrollmentFee(klass)
         == if klass.None? || klass.value == "" then DefaultFee else TierLookup(FeeTiers, klass.value)
  {
  }
}
