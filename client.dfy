/**
 * The fee cache of the browser page (`public/script.js`): the fee objects the
 * page keeps after `GET /api/fees`, the status tabs, the collected total, the
 * status class and pay button of a table row, the checks `handlePayment`
 * makes before posting, and the in-place updates after a payment and after a
 * student is deleted. Amounts are integer cents, as on the server; JavaScript's
 * `a || b` on a value that may be absent, zero or empty is written out.
 */
module ClientCache {
  import opened Common
  import opened Ledger
  import opened Listing

  // ---------------------------------------------------------------------------
  // Fee objects: the response and the page's normalised copy

  /** A payment entry as the page holds it. */
  datatype ClientPayment = ClientPayment(amount: int, paymentMethod: string, paymentDate: Option<Date>, notes: string)

  /** A fee object of the `GET /api/fees` response; every field may be missing. */
  datatype FeeJson = FeeJson(
    id: string, studentName: Option<string>, studentId: Option<string>, klass: Option<string>,
    amount: Option<int>, totalPaid: Option<int>, balance: Option<int>, dueDate: Option<Date>,
    status: Option<string>, payments: Option<seq<ClientPayment>>)

  /** The page's fee object after `normalizeFee`. */
  datatype CachedFee = CachedFee(
    id: string, student: string, studentId: string, klass: string, amount: int,
    totalPaid: int, balance: int, dueDate: Option<Date>, status: string, payments: seq<ClientPayment>)

  /** `v || fallback` on a string that may be missing: a missing or empty string is falsy. */
  function OrElse(v: Option<string>, fallback: string): (r: string)
    ensures v.Some? && v.value != "" ==> r == v.value
    ensures v.None? || v.value == "" ==> r == fallback
  {
    if v.Some? && v.value != "" then v.value else fallback
  }

  /**
   * `normalizeFee`: a missing total paid counts as 0, a missing status as
   * `pending`, a missing list of payments as empty; a balance the response
   * carries is kept, otherwise it is the amount less the total paid.
   */
  function NormalizeFee(f: FeeJson): (c: CachedFee)
    ensures c.id == f.id && c.amount == f.amount.GetOr(0) && c.totalPaid == f.totalPaid.GetOr(0)
    ensures f.balance.Some? ==> c.balance == f.balance.value
    ensures f.balance.None? ==> c.balance + c.totalPaid == c.amount
    ensures c.status != "" && c.studentId == OrElse(f.studentId, "")
    ensures c.student == OrElse(f.studentName, c.studentId)
    ensures f.status.Some? && f.status.value != "" ==> c.status == f.status.value
    ensures f.status.None? || f.status.value == "" ==> c.status == "pending"
    ensures c.payments == f.payments.GetOr([])
  {
    var totalPaid := f.totalPaid.GetOr(0);
    var amount := f.amount.GetOr(0);
    var balance := if f.balance.Some? then f.balance.value else amount - totalPaid;
    CachedFee(f.id, OrElse(f.studentName, OrElse(f.studentId, "")), OrElse(f.studentId, ""),
              OrElse(f.klass, ""), amount, totalPaid, balance, f.dueDate, OrElse(f.status, "pending"),
              f.payments.GetOr([]))
  }

  /** A payment row of the response, as the page holds it. */
  function PaymentJson(p: Payment): ClientPayment {
    ClientPayment(p.amount, p.paymentMethod.GetOr(""), Some(p.paymentDate), p.notes.GetOr(""))
  }

  /** The payment rows of the response, in the order the server sends them. */
  function PaymentsJson(ps: seq<Payment>): (r: seq<ClientPayment>)
    ensures |r| == |ps|
    ensures forall i :: 0 <= i < |ps| ==> r[i] == PaymentJson(ps[i])
    decreases |ps|
  {
    if ps == [] then [] else [PaymentJson(ps[0])] + PaymentsJson(ps[1..])
  }

  /** The object the server sends for one listed fee. */
  function ViewJson(v: FeeView): FeeJson {
    FeeJson(v.fee.id, if v.student.Some? then Some(v.student.value.name) else None, Some(v.fee.studentId),
            v.fee.klass, Some(v.fee.amount), Some(v.totalPaid), Some(v.balance), v.fee.dueDate,
            Some(StatusName(v.fee.status)), Some(PaymentsJson(v.payments)))
  }

  /** A cached fee shows the stored fee's amount, student and status and the ledger's totals. */
  predicate Mirrors(b: Books, c: CachedFee) {
    && c.id in b.fees
    && c.amount == b.fees[c.id].amount
    && c.studentId == b.fees[c.id].studentId
    && c.status == StatusName(b.fees[c.id].status)
    && c.totalPaid == TotalPaid(b.payments, c.id)
    && c.balance == c.amount - c.totalPaid
  }

  lemma StatusNameNotEmpty(s: Status)
    ensures StatusName(s) != ""
  {
  }

  /** Normalising a fee the listing shows gives a cached fee that mirrors the books. */
  lemma ShownFeeMirrors(b: Books, sel: set<string>, students: map<string, Student>, v: FeeView)
    requires ShowsBooks(b, sel, students, v)
    ensures Mirrors(b, NormalizeFee(ViewJson(v)))
  {
    StatusNameNotEmpty(v.fee.status);
  }

  // ---------------------------------------------------------------------------
  // Status tabs (`filterFees`) and `fees.filter`

  /** The tab rule: `all` shows every fee, `pending` also shows `partial` ones, any other tab its own status. */
  predicate Shows(tab: string, status: string) {
    if tab == "all" then true
    else if tab == "pending" then status == "pending" || status == "partial"
    else status == tab
  }

  /** `fees.filter(keep)`: the fees that pass, in cache order. */
  function Where(fees: seq<CachedFee>, keep: CachedFee -> bool): (r: seq<CachedFee>)
    ensures |r| <= |fees|
    ensures forall x :: x in r <==> x in fees && keep(x)
    decreases |fees|
  {
    if fees == [] then []
    else
      var init := Where(fees[..|fees| - 1], keep);
      var last := fees[|fees| - 1];
      assert fees == fees[..|fees| - 1] + [last];
      if keep(last) then init + [last] else init
  }

  /** The positions `fees.filter(keep)` keeps, in increasing order. */
  function KeptIndices(fees: seq<CachedFee>, keep: CachedFee -> bool): (idx: seq<int>)
    decreases |fees|
  {
    if fees == [] then []
    else
      var init := KeptIndices(fees[..|fees| - 1], keep);
      if keep(fees[|fees| - 1]) then init + [|fees| - 1] else init
  }

  /**
   * `r` lists the fees of `fees` at the positions `idx`, which increase, and a
   * position is among them exactly when its fee passes `keep`.
   */
  ghost predicate Picks(fees: seq<CachedFee>, keep: CachedFee -> bool, r: seq<CachedFee>, idx: seq<int>) {
    && |r| == |idx|
    && (forall k :: 0 <= k < |idx| ==> 0 <= idx[k] < |fees| && r[k] == fees[idx[k]])
    && (forall k, l :: 0 <= k < l < |idx| ==> idx[k] < idx[l])
    && (forall i :: 0 <= i < |fees| ==> (keep(fees[i]) <==> i in idx))
  }

  /** A passing fee at the end is picked at the next position. */
  lemma PicksKeep(fees: seq<CachedFee>, keep: CachedFee -> bool, r: seq<CachedFee>, idx: seq<int>, x: CachedFee)
    requires Picks(fees, keep, r, idx) && keep(x)
    ensures Picks(fees + [x], keep, r + [x], idx + [|fees|])
  {
    var fees', idx' := fees + [x], idx + [|fees|];
    forall i | 0 <= i < |fees'|
      ensures keep(fees'[i]) <==> i in idx'
    {
      if i < |fees| {
        assert fees'[i] == fees[i];
        assert i in idx' <==> i in idx;
      }
    }
  }

  /** A failing fee at the end is skipped. */
  lemma PicksSkip(fees: seq<CachedFee>, keep: CachedFee -> bool, r: seq<CachedFee>, idx: seq<int>, x: CachedFee)
    requires Picks(fees, keep, r, idx) && !keep(x)
    ensures Picks(fees + [x], keep, r, idx)
  {
    var fees' := fees + [x];
    forall i | 0 <= i < |fees'|
      ensures keep(fees'[i]) <==> i in idx
    {
      if i == |fees| {
        assert forall k :: 0 <= k < |idx| ==> idx[k] < |fees|;
      }
    }
  }

  /**
   * Filtering keeps exactly the fees that pass, each once, in the order they
   * had: the result lists the fees at the kept positions, which increase, and a
   * position is kept exactly when its fee passes.
   */
  lemma {:induction false} WhereKeepsOrder(fees: seq<CachedFee>, keep: CachedFee -> bool)
    ensures Picks(fees, keep, Where(fees, keep), KeptIndices(fees, keep))
    decreases |fees|
  {
    if fees != [] {
      var init, x := fees[..|fees| - 1], fees[|fees| - 1];
      WhereKeepsOrder(init, keep);
      assert fees == init + [x];
      if keep(x) {
        PicksKeep(init, keep, Where(init, keep), KeptIndices(init, keep), x);
      } else {
        PicksSkip(init, keep, Where(init, keep), KeptIndices(init, keep), x);
      }
    }
  }

  /** `filterFees(tab)`. */
  function FilterFees(fees: seq<CachedFee>, tab: string): (r: seq<CachedFee>)
    ensures forall x :: x in r <==> x in fees && Shows(tab, x.status)
  {
    Where(fees, (f: CachedFee) => Shows(tab, f.status))
  }

  /** The `all` tab shows the whole cache, in order. */
  lemma {:induction false} AllTabShowsEverything(fees: seq<CachedFee>)
    ensures FilterFees(fees, "all") == fees
    decreases |fees|
  {
    if fees != [] {
      AllTabShowsEverything(fees[..|fees| - 1]);
      assert fees == fees[..|fees| - 1] + [fees[|fees| - 1]];
    }
  }

  /**
   * Every status the server writes is shown by exactly one of the tabs
   * `pending`, `paid` and `overdue`; `partial` fees appear under `pending`.
   */
  lemma TabsPartitionStatuses(s: Status)
    ensures Shows("pending", StatusName(s)) <==> s == Pending || s == Partial
    ensures Shows("paid", StatusName(s)) <==> s == Paid
    ensures Shows("overdue", StatusName(s)) <==> s == Overdue
  {
  }

  // ---------------------------------------------------------------------------
  // Collected total (`calculateTotalFees`)

  /** `fees.reduce((sum, fee) => sum + (fee.totalPaid || 0), 0)`. */
  function TotalCollected(fees: seq<CachedFee>): int
    decreases |fees|
  {
    if fees == [] then 0 else TotalCollected(fees[..|fees| - 1]) + fees[|fees| - 1].totalPaid
  }

  /** The collected total of two runs of fees is the sum of their totals. */
  lemma {:induction false} TotalCollectedConcat(a: seq<CachedFee>, b: seq<CachedFee>)
    ensures TotalCollected(a + b) == TotalCollected(a) + TotalCollected(b)
    decreases |b|
  {
    if b == [] {
      assert a + b == a;
    } else {
      var b' := b[..|b| - 1];
      TotalCollectedConcat(a, b');
      assert (a + b)[..|a + b| - 1] == a + b';
    }
  }

  /** Replacing one cached fee moves the collected total by the change in that fee's total paid. */
  lemma TotalCollectedUpdate(fees: seq<CachedFee>, i: int, c: CachedFee)
    requires 0 <= i < |fees|
    ensures TotalCollected(fees[i := c]) == TotalCollected(fees) - fees[i].totalPaid + c.totalPaid
  {
    var left, right := fees[..i], fees[i + 1..];
    assert fees == left + [fees[i]] + right;
    assert fees[i := c] == left + [c] + right;
    TotalCollectedConcat(left + [fees[i]], right);
    TotalCollectedConcat(left + [c], right);
    TotalCollectedConcat(left, [fees[i]]);
    TotalCollectedConcat(left, [c]);
  }

  // ---------------------------------------------------------------------------
  // A row of the fee table

  /** The row's status class: `partial` while some but not all of the amount is owed. */
  function StatusClass(c: CachedFee): string {
    if 0 < c.balance < c.amount then "partial" else c.status
  }

  /** The pay button is disabled once nothing is owed. */
  predicate PayDisabled(c: CachedFee) {
    c.balance <= 0
  }

  /** The pay button's caption. */
  function PayCaption(c: CachedFee): string {
    if c.balance <= 0 then "Paid" else if c.totalPaid > 0 then "Pay Balance" else "Pay"
  }

  lemma NoPaymentsNothingPaid(ledger: seq<Payment>, feeId: string)
    requires PaymentsOf(ledger, feeId) == []
    ensures TotalPaid(ledger, feeId) == 0
  {
  }

  /**
   * For a row that mirrors consistent books, the status class is the stored
   * status, the button is disabled exactly when the fee is settled, and it
   * offers to pay the balance exactly when the fee is part paid.
   */
  lemma RowAgreesWithBooks(b: Books, c: CachedFee)
    requires Consistent(b) && Mirrors(b, c)
    ensures StatusClass(c) == StatusName(b.fees[c.id].status)
    ensures PayDisabled(c) <==> TotalPaid(b.payments, c.id) == b.fees[c.id].amount
    ensures PayCaption(c) == "Pay Balance" <==> 0 < TotalPaid(b.payments, c.id) < b.fees[c.id].amount
  {
    BalanceNonNegative(b, c.id);
    if PaymentsOf(b.payments, c.id) == [] {
      NoPaymentsNothingPaid(b.payments, c.id);
    } else {
      StatusOfPaidFee(b, c.id);
    }
  }

  // ---------------------------------------------------------------------------
  // The checks `handlePayment` makes before posting

  datatype AmountProblem = NoValidAmount | AboveBalance(balance: int)

  /** Which fields of the payment form are marked as wrong. */
  datatype FormCheck = FormCheck(amount: Option<AmountProblem>, methodMissing: bool, dateMissing: bool)

  /** `fee.balance || (fee.amount - (fee.totalPaid || 0))`: a zero balance falls back to the difference. */
  function FormBalance(c: CachedFee): int {
    if c.balance != 0 then c.balance else c.amount - c.totalPaid
  }

  /** A missing or non-positive amount is refused, then one above the balance. */
  function AmountCheck(c: CachedFee, amount: Option<int>): (r: Option<AmountProblem>)
    ensures r.None? <==> amount.Some? && 0 < amount.value <= FormBalance(c)
    ensures r == Some(NoValidAmount) <==> amount.None? || amount.value <= 0
  {
    if amount.None? || amount.value <= 0 then Some(NoValidAmount)
    else if amount.value > FormBalance(c) then Some(AboveBalance(FormBalance(c)))
    else None
  }

  /** All three checks run; the form is posted only when none fails. */
  function CheckPaymentForm(c: CachedFee, amount: Option<int>, paymentMethod: string, date: Option<Date>): (r: FormCheck)
    ensures r.amount == AmountCheck(c, amount) && r.methodMissing == (paymentMethod == "") && r.dateMissing == date.None?
  {
    FormCheck(AmountCheck(c, amount), paymentMethod == "", date.None?)
  }

  predicate Posts(r: FormCheck) {
    r.amount.None? && !r.methodMissing && !r.dateMissing
  }

  /**
   * While the cached fee mirrors the books, the page's amount check lets an
   * amount through exactly when it is at least a cent and the server's
   * transaction would accept it rather than refuse it as an overpayment.
   */
  lemma AmountCheckMatchesServer(b: Books, c: CachedFee, req: PaymentRequest, ctx: PaymentContext)
    requires Mirrors(b, c) && req.feeId == c.id
    ensures AmountCheck(c, Some(req.amount)).None? <==> req.amount >= MinPayment && Pay(b, req, ctx).0.Ok?
  {
  }

  // ---------------------------------------------------------------------------
  // The page's state

  /** A student object of the page; only its id matters here. */
  datatype CachedStudent = CachedStudent(id: string, name: string)

  /** The id `findIndex` compares a cached fee by. */
  function FeeId(f: CachedFee): string {
    f.id
  }

  /** The id `findIndex` compares a cached student by. */
  function StudentId(s: CachedStudent): string {
    s.id
  }

  /** The position `findIndex(x => key(x) === id)` returns: the first element with the id, or -1. */
  function FirstIndex<T>(xs: seq<T>, id: string, key: T -> string): (i: int)
    ensures -1 <= i < |xs|
    ensures i == -1 <==> forall j :: 0 <= j < |xs| ==> key(xs[j]) != id
    ensures i >= 0 ==> key(xs[i]) == id && forall j :: 0 <= j < i ==> key(xs[j]) != id
    decreases |xs|
  {
    if xs == [] then -1
    else if key(xs[0]) == id then 0
    else
      var i := FirstIndex(xs[1..], id, key);
      assert forall j :: 1 <= j < |xs| ==> xs[j] == xs[1..][j - 1];
      if i == -1 then -1 else i + 1
  }

  /** `findIndex(x => key(x) === id)`, scanning from the front. */
  method Find<T>(xs: seq<T>, id: string, key: T -> string) returns (i: int)
    ensures i == FirstIndex(xs, id, key)
  {
    i := 0;
    while i < |xs| && key(xs[i]) != id
      invariant 0 <= i <= |xs|
      invariant forall j :: 0 <= j < i ==> key(xs[j]) != id
    {
      i := i + 1;
    }
    if i == |xs| {
      i := -1;
    }
  }

  /** The outcome of `handlePayment` before it posts. */
  datatype PaymentReview = FeeRecordNotFound | Reviewed(fee: CachedFee, check: FormCheck)

  /**
   * `handlePayment` looks the fee up in the cache (`fees.find`) and reports a
   * missing one; otherwise it checks the form against the first cached fee with
   * the id.
   */
  function ReviewPayment(fees: seq<CachedFee>, feeId: string, amount: Option<int>, paymentMethod: string, date: Option<Date>): (r: PaymentReview)
    ensures r.FeeRecordNotFound? <==> forall j :: 0 <= j < |fees| ==> fees[j].id != feeId
    ensures r.Reviewed? ==> r.fee.id == feeId && r.fee in fees && r.check == CheckPaymentForm(r.fee, amount, paymentMethod, date)
  {
    var i := FirstIndex(fees, feeId, FeeId);
    if i == -1 then FeeRecordNotFound else Reviewed(fees[i], CheckPaymentForm(fees[i], amount, paymentMethod, date))
  }

  /** The fields of the payment response the page reads. */
  datatype PaymentResponse = PaymentResponse(totalPaid: Option<int>, balance: Option<int>, status: Option<string>)

  /** The response the server sends with a receipt. */
  function ResponseOf(r: Receipt): PaymentResponse {
    PaymentResponse(Some(r.totalPaid), Some(r.balance), Some(StatusName(r.status)))
  }

  /**
   * The cached fee after a successful payment: the response's total (or, when
   * it is missing or zero, the old total plus the amount), the response's
   * balance (missing counts as 0), the response's status (or, when it is
   * missing, `paid` if the balance is exactly 0 and `partial` otherwise), and
   * the new entry at the end of its payments.
   */
  function Refreshed(c: CachedFee, res: PaymentResponse, entry: ClientPayment): (c': CachedFee)
    ensures c'.id == c.id && c'.amount == c.amount && c'.studentId == c.studentId
    ensures c'.payments == c.payments + [entry]
    ensures res.totalPaid.Some? && res.totalPaid.value != 0 ==> c'.totalPaid == res.totalPaid.value
    ensures res.totalPaid.None? || res.totalPaid.value == 0 ==> c'.totalPaid == c.totalPaid + entry.amount
    ensures c'.balance == res.balance.GetOr(0)
    ensures res.status.Some? && res.status.value != "" ==> c'.status == res.status.value
    ensures res.status.None? || res.status.value == "" ==>
              c'.status == if res.balance == Some(0) then "paid" else "partial"
  {
    var total := if res.totalPaid.Some? && res.totalPaid.value != 0 then res.totalPaid.value
                 else c.totalPaid + entry.amount;
    var status := if res.status.Some? && res.status.value != "" then res.status.value
                  else if res.balance == Some(0) then "paid" else "partial";
    c.(totalPaid := total, balance := res.balance.GetOr(0), status := status, payments := c.payments + [entry])
  }

  /**
   * Refreshing a mirrored row from the receipt of an accepted payment leaves a
   * row that mirrors the books after the payment.
   */
  lemma RefreshKeepsMirror(b: Books, req: PaymentRequest, ctx: PaymentContext, c: CachedFee, entry: ClientPayment)
    requires Mirrors(b, c) && c.id == req.feeId && entry.amount == req.amount
    requires Pay(b, req, ctx).0.Ok?
    ensures Mirrors(Pay(b, req, ctx).1, Refreshed(c, ResponseOf(Pay(b, req, ctx).0.value), entry))
  {
    var out := Pay(b, req, ctx);
    var r, b' := out.0.value, out.1;
    var fee := b.fees[req.feeId];
    assert b'.fees[c.id] == fee.(status := r.status, updatedAt := ctx.now);
    StatusNameNotEmpty(r.status);
    var c' := Refreshed(c, ResponseOf(r), entry);
    assert c'.totalPaid == r.totalPaid == TotalPaid(b'.payments, c.id);
    assert c'.balance == r.balance == c'.amount - c'.totalPaid;
    assert c'.status == StatusName(b'.fees[c.id].status);
  }

  /** `fees.filter(f => f.studentId !== id)`. */
  function WithoutStudent(fees: seq<CachedFee>, id: string): (r: seq<CachedFee>)
    ensures forall x :: x in r <==> x in fees && x.studentId != id
  {
    Where(fees, (f: CachedFee) => f.studentId != id)
  }

  /** The page's cached students and fees. */
  class FeeCache {
    var students: seq<CachedStudent>
    var fees: seq<CachedFee>

    constructor (students0: seq<CachedStudent>, fees0: seq<CachedFee>)
      ensures students == students0 && fees == fees0
    {
      students := students0;
      fees := fees0;
    }

    /**
     * The success branch of `handlePayment`: the first cached fee with the id
     * takes the response's figures and the new payment entry; every other fee,
     * and the order, stay as they were. A failed request changes nothing.
     */
    method ApplyPaymentResult(feeId: string, entry: ClientPayment, succeeded: bool, res: PaymentResponse)
      modifies this
      ensures students == old(students) && |fees| == |old(fees)|
      ensures var i := FirstIndex(old(fees), feeId, FeeId);
              if succeeded && i != -1 then fees == old(fees)[i := Refreshed(old(fees)[i], res, entry)]
              else fees == old(fees)
    {
      if !succeeded {
        return;
      }
      var i := Find(fees, feeId, FeeId);
      if i != -1 {
        fees := fees[i := Refreshed(fees[i], res, entry)];
      }
    }

    /**
     * The success branch of `deleteStudent`: when the student is cached, the
     * first entry with the id is spliced out and every fee of the student is
     * dropped; otherwise, or when the request failed, nothing changes.
     */
    method DeleteStudent(studentId: string, succeeded: bool)
      modifies this
      ensures var i := FirstIndex(old(students), studentId, StudentId);
              if succeeded && i != -1 then
                && students == old(students)[..i] + old(students)[i + 1..]
                && fees == WithoutStudent(old(fees), studentId)
              else students == old(students) && fees == old(fees)
    {
      if !succeeded {
        return;
      }
      var i := Find(students, studentId, StudentId);
      if i != -1 {
        students := students[..i] + students[i + 1..];
        fees := WithoutStudent(fees, studentId);
      }
    }
  }
}
