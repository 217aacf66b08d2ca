/**
 * The balance calculator behind `GET /api/fees` and `GET /api/students/:id/fees`:
 * select fee rows (optionally by status or by student), order them, attach
 * each fee's student and payments, and compute `total_paid` and `balance`.
 * The SQL `ORDER BY` clauses are modelled by insertion into an ordered
 * sequence; the `forEach` grouping of payments is a loop.
 */
module Listing {
  import opened Common
  import opened Ledger

  // ---------------------------------------------------------------------------
  // Payments in ascending payment date (`ORDER BY payment_date ASC`)

  predicate ByDateAsc(ps: seq<Payment>) {
    forall i, j :: 0 <= i < j < |ps| ==> ps[i].paymentDate <= ps[j].paymentDate
  }

  /** A payment dated no later than every payment of a sorted list may head it. */
  lemma ConsByDate(x: Payment, ps: seq<Payment>)
    requires ByDateAsc(ps)
    requires forall y :: y in ps ==> x.paymentDate <= y.paymentDate
    ensures ByDateAsc([x] + ps)
  {
    forall i, j | 0 <= i < j < |[x] + ps|
      ensures ([x] + ps)[i].paymentDate <= ([x] + ps)[j].paymentDate
    {
      assert ([x] + ps)[j] == ps[j - 1];
      if i > 0 {
        assert ([x] + ps)[i] == ps[i - 1];
      } else {
        assert ps[j - 1] in ps;
      }
    }
  }

  /** In a sorted list the head is dated no later than any payment, and the tail is sorted. */
  lemma SortedSplit(ps: seq<Payment>)
    requires ByDateAsc(ps) && ps != []
    ensures ByDateAsc(ps[1..])
    ensures forall y :: y in ps ==> ps[0].paymentDate <= y.paymentDate
  {
    forall y | y in ps ensures ps[0].paymentDate <= y.paymentDate {
      var m :| 0 <= m < |ps| && ps[m] == y;
      assert m == 0 || ps[0].paymentDate <= ps[m].paymentDate;
    }
    forall i, j | 0 <= i < j < |ps[1..]| ensures ps[1..][i].paymentDate <= ps[1..][j].paymentDate {
      assert ps[1..][i] == ps[i + 1] && ps[1..][j] == ps[j + 1];
    }
  }

  /** Put `p` before the first payment dated no earlier than it. */
  function InsertByDate(p: Payment, ps: seq<Payment>): (r: seq<Payment>)
    requires ByDateAsc(ps)
    ensures forall x :: x in r <==> x == p || x in ps
    ensures multiset(r) == multiset(ps) + multiset{p}
    ensures ByDateAsc(r)
    decreases |ps|
  {
    if ps == [] then [p]
    else
      SortedSplit(ps);
      assert ps == [ps[0]] + ps[1..];
      if p.paymentDate <= ps[0].paymentDate then
        ConsByDate(p, ps);
        [p] + ps
      else
        var rest := InsertByDate(p, ps[1..]);
        ConsByDate(ps[0], rest);
        [ps[0]] + rest
  }

  /** The ledger rearranged by payment date, earlier dates first. */
  function SortByDate(ps: seq<Payment>): (r: seq<Payment>)
    ensures ByDateAsc(r)
    ensures multiset(r) == multiset(ps)
    decreases |ps|
  {
    if ps == [] then []
    else
      assert ps == [ps[0]] + ps[1..];
      InsertByDate(ps[0], SortByDate(ps[1..]))
  }

  /** Selecting one fee's payments counts each payment of that fee as often as the ledger does. */
  lemma {:induction false} PaymentsOfCount(ledger: seq<Payment>, feeId: string, p: Payment)
    ensures multiset(PaymentsOf(ledger, feeId))[p] == if p.feeId == feeId then multiset(ledger)[p] else 0
    decreases |ledger|
  {
    if ledger != [] {
      PaymentsOfCount(ledger[1..], feeId, p);
      assert ledger == [ledger[0]] + ledger[1..];
    }
  }

  /** Rearranging the ledger rearranges each fee's payments. */
  lemma PaymentsOfPerm(a: seq<Payment>, b: seq<Payment>, feeId: string)
    requires multiset(a) == multiset(b)
    ensures multiset(PaymentsOf(a, feeId)) == multiset(PaymentsOf(b, feeId))
  {
    forall p ensures multiset(PaymentsOf(a, feeId))[p] == multiset(PaymentsOf(b, feeId))[p] {
      PaymentsOfCount(a, feeId, p);
      PaymentsOfCount(b, feeId, p);
    }
  }

  /** Taking one payment out of a list removes one copy of it. */
  lemma RemoveAtCount(b: seq<Payment>, i: int)
    requires 0 <= i < |b|
    ensures multiset(b) == multiset(b[..i] + b[i + 1..]) + multiset{b[i]}
  {
    var left, right := b[..i], b[i + 1..];
    assert b == left + ([b[i]] + right);
    assert multiset(b) == multiset(left) + multiset([b[i]] + right);
  }

  /** Taking one payment out of a list removes its amount from the sum. */
  lemma RemoveAtSum(b: seq<Payment>, i: int)
    requires 0 <= i < |b|
    ensures Sum(b) == b[i].amount + Sum(b[..i] + b[i + 1..])
  {
    var left, right := b[..i], b[i + 1..];
    assert b == left + ([b[i]] + right);
    SumAppend(left, [b[i]] + right);
    SumAppend(left, right);
    assert ([b[i]] + right)[1..] == right;
  }

  lemma MultisetCancel(x: Payment, m: multiset<Payment>, n: multiset<Payment>)
    requires m + multiset{x} == n + multiset{x}
    ensures m == n
  {
    forall y ensures m[y] == n[y] {
      assert (m + multiset{x})[y] == (n + multiset{x})[y];
    }
  }

  /** A sum of payments does not depend on their order. */
  lemma {:induction false} SumPerm(a: seq<Payment>, b: seq<Payment>)
    requires multiset(a) == multiset(b)
    ensures Sum(a) == Sum(b)
    decreases |a|
  {
    if a == [] {
      assert |multiset(b)| == 0;
    } else {
      assert a[0] in multiset(b);
      var i :| 0 <= i < |b| && b[i] == a[0];
      var rest := b[..i] + b[i + 1..];
      RemoveAtCount(b, i);
      RemoveAtSum(b, i);
      assert a == [a[0]] + a[1..];
      assert multiset(a) == multiset(a[1..]) + multiset{a[0]};
      MultisetCancel(a[0], multiset(a[1..]), multiset(rest));
      SumPerm(a[1..], rest);
    }
  }

  /** Selecting one fee's payments keeps them in date order. */
  lemma {:induction false} PaymentsOfSorted(ledger: seq<Payment>, feeId: string)
    requires ByDateAsc(ledger)
    ensures ByDateAsc(PaymentsOf(ledger, feeId))
    decreases |ledger|
  {
    if ledger != [] {
      var rest := PaymentsOf(ledger[1..], feeId);
      PaymentsOfSorted(ledger[1..], feeId);
      forall j | 0 <= j < |rest| ensures ledger[0].paymentDate <= rest[j].paymentDate {
        assert rest[j] in ledger[1..];
        var m :| 0 <= m < |ledger[1..]| && ledger[1..][m] == rest[j];
        assert ledger[m + 1] == rest[j];
      }
    }
  }

  /** `SELECT * FROM payments WHERE fee_id = ANY($1)`, in ledger order. */
  function PaymentsIn(ledger: seq<Payment>, feeIds: set<string>): (r: seq<Payment>)
    ensures forall p :: p in r <==> p in ledger && p.feeId in feeIds
    decreases |ledger|
  {
    if ledger == [] then []
    else (if ledger[0].feeId in feeIds then [ledger[0]] else []) + PaymentsIn(ledger[1..], feeIds)
  }

  /** Restricting the ledger to a set of fees keeps every payment of those fees. */
  lemma {:induction false} PaymentsOfIn(ledger: seq<Payment>, feeIds: set<string>, feeId: string)
    requires feeId in feeIds
    ensures PaymentsOf(PaymentsIn(ledger, feeIds), feeId) == PaymentsOf(ledger, feeId)
    decreases |ledger|
  {
    if ledger != [] {
      PaymentsOfIn(ledger[1..], feeIds, feeId);
      PaymentsOfAppend(if ledger[0].feeId in feeIds then [ledger[0]] else [],
                       PaymentsIn(ledger[1..], feeIds), feeId);
    }
  }

  /** The payments fetched for the listed fees: each of them, ordered by date. */
  function FetchedPayments(ledger: seq<Payment>, feeIds: set<string>): seq<Payment> {
    SortByDate(PaymentsIn(ledger, feeIds))
  }

  /**
   * Of the fetched payments, one listed fee's are exactly its ledger payments,
   * rearranged by date, and they add up to what the ledger says it has paid.
   */
  lemma FetchedPaymentsOf(ledger: seq<Payment>, feeIds: set<string>, feeId: string)
    requires feeId in feeIds
    ensures ByDateAsc(PaymentsOf(FetchedPayments(ledger, feeIds), feeId))
    ensures multiset(PaymentsOf(FetchedPayments(ledger, feeIds), feeId)) == multiset(PaymentsOf(ledger, feeId))
    ensures Sum(PaymentsOf(FetchedPayments(ledger, feeIds), feeId)) == TotalPaid(ledger, feeId)
  {
    var fetched := FetchedPayments(ledger, feeIds);
    PaymentsOfSorted(fetched, feeId);
    PaymentsOfPerm(fetched, PaymentsIn(ledger, feeIds), feeId);
    PaymentsOfIn(ledger, feeIds, feeId);
    SumPerm(PaymentsOf(fetched, feeId), PaymentsOf(ledger, feeId));
  }

  /** The payments grouped under a fee id; a fee without payments gets the empty list. */
  function GroupOf(groups: map<string, seq<Payment>>, feeId: string): seq<Payment> {
    if feeId in groups then groups[feeId] else []
  }

  /** After the first `n` payments: each fee's group is its payments so far, and no group is empty. */
  ghost predicate GroupedUpTo(groups: map<string, seq<Payment>>, ps: seq<Payment>, n: int) {
    && 0 <= n <= |ps|
    && (forall k :: k in groups ==> groups[k] != [])
    && (forall k :: GroupOf(groups, k) == PaymentsOf(ps[..n], k))
  }

  /** Pushing a payment onto its fee's group extends that fee's group as appending extends the ledger. */
  lemma GroupOfPush(groups: map<string, seq<Payment>>, ledger: seq<Payment>, p: Payment, k: string)
    requires GroupOf(groups, k) == PaymentsOf(ledger, k)
    ensures GroupOf(groups[p.feeId := GroupOf(groups, p.feeId) + [p]], k) == PaymentsOf(ledger + [p], k)
  {
    TotalPaidAppend(ledger, p, k);
  }

  /** Pushing the next payment onto its fee's group keeps the groups up to date. */
  lemma GroupStep(groups: map<string, seq<Payment>>, ps: seq<Payment>, n: int)
    requires GroupedUpTo(groups, ps, n) && n < |ps|
    ensures GroupedUpTo(groups[ps[n].feeId := GroupOf(groups, ps[n].feeId) + [ps[n]]], ps, n + 1)
  {
    var p := ps[n];
    assert ps[..n + 1] == ps[..n] + [p];
    forall k ensures GroupOf(groups[p.feeId := GroupOf(groups, p.feeId) + [p]], k) == PaymentsOf(ps[..n] + [p], k) {
      GroupOfPush(groups, ps[..n], p, k);
    }
  }

  /** Grouping all payments: a fee has a group exactly when it has payments. */
  lemma GroupDone(groups: map<string, seq<Payment>>, ps: seq<Payment>)
    requires GroupedUpTo(groups, ps, |ps|)
    ensures forall k :: k in groups <==> PaymentsOf(ps, k) != []
    ensures forall k :: GroupOf(groups, k) == PaymentsOf(ps, k)
  {
    assert ps[..|ps|] == ps;
    forall k ensures k in groups <==> PaymentsOf(ps, k) != [] {
      assert GroupOf(groups, k) == PaymentsOf(ps, k);
    }
  }

  /**
   * The `forEach` that fills `paymentsMap`: each payment is pushed onto its
   * fee's list, creating the list on first use.
   */
  method GroupByFee(ps: seq<Payment>) returns (groups: map<string, seq<Payment>>)
    ensures forall k :: k in groups <==> PaymentsOf(ps, k) != []
    ensures forall k :: GroupOf(groups, k) == PaymentsOf(ps, k)
  {
    groups := map[];
    var n := 0;
    while n < |ps|
      invariant GroupedUpTo(groups, ps, n)
    {
      GroupStep(groups, ps, n);
      var p := ps[n];
      var list := GroupOf(groups, p.feeId);
      groups := groups[p.feeId := list + [p]];
      n := n + 1;
    }
    GroupDone(groups, ps);
  }

  // ---------------------------------------------------------------------------
  // Fee rows: selection and `ORDER BY … DESC`

  datatype OrderBy = DueDateDesc | CreatedAtDesc

  /** The column a listing orders by; a fee may have no due date. */
  function SortKey(f: Fee, order: OrderBy): Option<int> {
    match order
    case DueDateDesc => f.dueDate
    case CreatedAtDesc => Some(f.createdAt)
  }

  /** PostgreSQL's `DESC` order: NULLs first, then larger values first. */
  predicate MayPrecede(a: Option<int>, b: Option<int>) {
    a.None? || (b.Some? && a.value >= b.value)
  }

  predicate OrderedBy(rows: seq<Fee>, order: OrderBy) {
    forall i, j :: 0 <= i < j < |rows| ==> MayPrecede(SortKey(rows[i], order), SortKey(rows[j], order))
  }

  /** A row that may precede every row of an ordered list may head it. */
  lemma ConsByKey(x: Fee, rows: seq<Fee>, order: OrderBy)
    requires OrderedBy(rows, order)
    requires forall y :: y in rows ==> MayPrecede(SortKey(x, order), SortKey(y, order))
    ensures OrderedBy([x] + rows, order)
  {
    forall i, j | 0 <= i < j < |[x] + rows|
      ensures MayPrecede(SortKey(([x] + rows)[i], order), SortKey(([x] + rows)[j], order))
    {
      assert ([x] + rows)[j] == rows[j - 1];
      if i > 0 {
        assert ([x] + rows)[i] == rows[i - 1];
      } else {
        assert rows[j - 1] in rows;
      }
    }
  }

  /** In an ordered list the head may precede every row, and the tail is ordered. */
  lemma OrderedSplit(rows: seq<Fee>, order: OrderBy)
    requires OrderedBy(rows, order) && rows != []
    ensures OrderedBy(rows[1..], order)
    ensures forall y :: y in rows ==> MayPrecede(SortKey(rows[0], order), SortKey(y, order))
  {
    forall y | y in rows ensures MayPrecede(SortKey(rows[0], order), SortKey(y, order)) {
      var m :| 0 <= m < |rows| && rows[m] == y;
      assert m == 0 || MayPrecede(SortKey(rows[0], order), SortKey(rows[m], order));
    }
    forall i, j | 0 <= i < j < |rows[1..]|
      ensures MayPrecede(SortKey(rows[1..][i], order), SortKey(rows[1..][j], order))
    {
      assert rows[1..][i] == rows[i + 1] && rows[1..][j] == rows[j + 1];
    }
  }

  /** `MayPrecede` is transitive: it compares the `DESC` position of two keys. */
  lemma MayPrecedeTrans(a: Option<int>, b: Option<int>, c: Option<int>)
    requires MayPrecede(a, b) && MayPrecede(b, c)
    ensures MayPrecede(a, c)
  {
  }

  /** Put `f` before the first row it may precede. */
  function InsertByKey(f: Fee, rows: seq<Fee>, order: OrderBy): (r: seq<Fee>)
    requires OrderedBy(rows, order)
    ensures |r| == |rows| + 1
    ensures forall x :: x in r <==> x == f || x in rows
    ensures multiset(r) == multiset(rows) + multiset{f}
    ensures OrderedBy(r, order)
    decreases |rows|
  {
    if rows == [] then [f]
    else
      OrderedSplit(rows, order);
      assert rows == [rows[0]] + rows[1..];
      if MayPrecede(SortKey(f, order), SortKey(rows[0], order)) then
        forall y | y in rows ensures MayPrecede(SortKey(f, order), SortKey(y, order)) {
          MayPrecedeTrans(SortKey(f, order), SortKey(rows[0], order), SortKey(y, order));
        }
        ConsByKey(f, rows, order);
        [f] + rows
      else
        var rest := InsertByKey(f, rows[1..], order);
        ConsByKey(rows[0], rest, order);
        [rows[0]] + rest
  }

  /** The `WHERE` clause of a listing. */
  datatype Filter = AnyStatus | StatusIs(name: string) | OfStudent(studentId: string)

  /** `if (status)`: an absent or empty `status` query lists every fee. */
  function StatusFilter(query: Option<string>): (r: Filter)
    ensures r == AnyStatus <==> query.None? || query.value == ""
    ensures r.StatusIs? ==> query == Some(r.name)
  {
    if query.None? || query.value == "" then AnyStatus else StatusIs(query.value)
  }

  predicate Matches(f: Fee, filter: Filter) {
    match filter
    case AnyStatus => true
    case StatusIs(name) => StatusName(f.status) == name
    case OfStudent(id) => f.studentId == id
  }

  /** The ids of the rows a listing selects. */
  function Selected(fees: map<string, Fee>, filter: Filter): set<string> {
    set k | k in fees && Matches(fees[k], filter)
  }

  /** `rows` holds the stored row of each id in `done`, once each, and nothing else. */
  ghost predicate RowsOf(fees: map<string, Fee>, rows: seq<Fee>, done: set<string>) {
    && |rows| == |done|
    && (forall x :: x in rows ==> x.id in done && x.id in fees && fees[x.id] == x)
    && (forall k :: k in done ==> k in fees && fees[k] in rows)
  }

  /** Inserting the row of one more id extends the rows by exactly that id. */
  lemma InsertRow(fees: map<string, Fee>, rows: seq<Fee>, done: set<string>, k: string, order: OrderBy)
    requires RowsOf(fees, rows, done) && OrderedBy(rows, order)
    requires k in fees && fees[k].id == k && k !in done
    ensures RowsOf(fees, InsertByKey(fees[k], rows, order), done + {k})
  {
    var rows' := InsertByKey(fees[k], rows, order);
    assert |done + {k}| == |done| + 1;
    forall x | x in rows' ensures x.id in done + {k} && x.id in fees && fees[x.id] == x {
      if x != fees[k] {
        assert x in rows;
      }
    }
  }

  /** Part way through the selection: the rows of the ids already taken from `sel`, in order. */
  ghost predicate SelectProgress(fees: map<string, Fee>, sel: set<string>, todo: set<string>, rows: seq<Fee>, order: OrderBy) {
    sel <= fees.Keys && todo <= sel && OrderedBy(rows, order) && RowsOf(fees, rows, sel - todo)
  }

  /** Taking one more id keeps the selection in progress. */
  lemma SelectStep(fees: map<string, Fee>, sel: set<string>, todo: set<string>, rows: seq<Fee>, order: OrderBy, k: string)
    requires SelectProgress(fees, sel, todo, rows, order) && k in todo
    requires forall j :: j in fees ==> fees[j].id == j
    ensures SelectProgress(fees, sel, todo - {k}, InsertByKey(fees[k], rows, order), order)
  {
    InsertRow(fees, rows, sel - todo, k, order);
    assert sel - (todo - {k}) == (sel - todo) + {k};
  }

  /** A finished selection holds the row of every selected id exactly once. */
  lemma SelectDone(fees: map<string, Fee>, sel: set<string>, rows: seq<Fee>, order: OrderBy)
    requires SelectProgress(fees, sel, {}, rows, order)
    ensures |rows| == |sel|
    ensures forall i :: 0 <= i < |rows| ==> rows[i].id in sel && rows[i].id in fees && fees[rows[i].id] == rows[i]
    ensures forall k :: k in sel ==> k in fees && fees[k] in rows
  {
    assert sel - {} == sel;
    forall i | 0 <= i < |rows| ensures rows[i].id in sel && rows[i].id in fees && fees[rows[i].id] == rows[i] {
      assert rows[i] in rows;
    }
  }

  /**
   * `SELECT * FROM fees WHERE … ORDER BY …`: every selected row exactly once,
   * in the listing's order. Rows with equal keys come out in an unspecified order.
   */
  method SelectFees(fees: map<string, Fee>, filter: Filter, order: OrderBy) returns (rows: seq<Fee>)
    requires forall k :: k in fees ==> fees[k].id == k
    ensures OrderedBy(rows, order)
    ensures |rows| == |Selected(fees, filter)|
    ensures forall i :: 0 <= i < |rows| ==> rows[i].id in Selected(fees, filter) && fees[rows[i].id] == rows[i]
    ensures forall k :: k in Selected(fees, filter) ==> fees[k] in rows
  {
    var sel := Selected(fees, filter);
    var todo := sel;
    rows := [];
    while todo != {}
      invariant SelectProgress(fees, sel, todo, rows, order)
      decreases |todo|
    {
      var k :| k in todo;
      SelectStep(fees, sel, todo, rows, order, k);
      rows := InsertByKey(fees[k], rows, order);
      todo := todo - {k};
    }
    SelectDone(fees, sel, rows, order);
  }

  // ---------------------------------------------------------------------------
  // Enrichment (`feesRows.map(...)`)

  /** A row of `GET /api/fees`: the stored fee, its student, its payments and totals. */
  datatype FeeView = FeeView(fee: Fee, student: Option<Student>, totalPaid: int, balance: int, payments: seq<Payment>)

  /** `studentsMap[f.student_id] || null`; an empty student id is never looked up. */
  function StudentOf(students: map<string, Student>, id: string): (r: Option<Student>)
    ensures r.Some? <==> id != "" && id in students
    ensures r.Some? ==> r.value == students[id]
  {
    if id != "" && id in students then Some(students[id]) else None
  }

  /** One enriched row: the payments' sum is `total_paid`, and `balance` is what remains. */
  function Enrich(f: Fee, students: map<string, Student>, groups: map<string, seq<Payment>>): (v: FeeView)
    ensures v.fee == f && v.payments == GroupOf(groups, f.id)
    ensures v.totalPaid == Sum(v.payments) && v.totalPaid + v.balance == f.amount
  {
    var payments := GroupOf(groups, f.id);
    var total := Sum(payments);
    FeeView(f, StudentOf(students, f.studentId), total, f.amount - total, payments)
  }

  /** The listing's rows, one view per selected fee, in the same order. */
  function EnrichAll(rows: seq<Fee>, students: map<string, Student>, groups: map<string, seq<Payment>>): (vs: seq<FeeView>)
    ensures |vs| == |rows|
    ensures forall i :: 0 <= i < |rows| ==> vs[i] == Enrich(rows[i], students, groups)
  {
    seq(|rows|, i requires 0 <= i < |rows| => Enrich(rows[i], students, groups))
  }

  /** The set of ids of some fee rows (`feesRows.map(f => f.id)`). */
  function IdsOf(rows: seq<Fee>): (ids: set<string>)
    ensures forall i :: 0 <= i < |rows| ==> rows[i].id in ids
  {
    set i | 0 <= i < |rows| :: rows[i].id
  }

  /**
   * What a listed fee shows against the books: its own payments in date order,
   * `total_paid` equal to what the ledger has recorded for it, `balance` the rest
   * of the amount, and the stored status unchanged.
   */
  lemma ViewMatchesBooks(b: Books, rows: seq<Fee>, students: map<string, Student>,
                         groups: map<string, seq<Payment>>, i: int)
    requires 0 <= i < |rows|
    requires forall k :: GroupOf(groups, k) == PaymentsOf(FetchedPayments(b.payments, IdsOf(rows)), k)
    ensures var v := Enrich(rows[i], students, groups);
            && ByDateAsc(v.payments)
            && multiset(v.payments) == multiset(PaymentsOf(b.payments, rows[i].id))
            && v.totalPaid == TotalPaid(b.payments, rows[i].id)
            && v.balance == rows[i].amount - TotalPaid(b.payments, rows[i].id)
            && v.fee.status == rows[i].status
  {
    var ids := IdsOf(rows);
    FetchedPaymentsOf(b.payments, ids, rows[i].id);
  }

  /**
   * In consistent books every listed fee shows a balance of at least zero, and a
   * fee with payments shows the status its total derives; a `paid` one shows a
   * zero balance.
   */
  lemma ListedFeeAgreesWithTotals(b: Books, rows: seq<Fee>, students: map<string, Student>,
                                  groups: map<string, seq<Payment>>, i: int)
    requires Consistent(b)
    requires 0 <= i < |rows| && rows[i].id in b.fees && b.fees[rows[i].id] == rows[i]
    requires forall k :: GroupOf(groups, k) == PaymentsOf(FetchedPayments(b.payments, IdsOf(rows)), k)
    ensures var v := Enrich(rows[i], students, groups);
            && v.balance >= 0
            && (v.payments != [] ==> v.fee.status == DeriveStatus(v.totalPaid, v.fee.amount))
            && (v.payments != [] && v.fee.status == Paid ==> v.balance == 0)
  {
    var v := Enrich(rows[i], students, groups);
    ViewMatchesBooks(b, rows, students, groups, i);
    BalanceNonNegative(b, rows[i].id);
    if v.payments != [] {
      assert |multiset(PaymentsOf(b.payments, rows[i].id))| > 0;
      StatusOfPaidFee(b, rows[i].id);
    }
  }

  /** The listing shows its rows in the order selected: latest due date first, undated rows ahead. */
  lemma ListedViewsOrder(rows: seq<Fee>, students: map<string, Student>, groups: map<string, seq<Payment>>)
    requires OrderedBy(rows, DueDateDesc)
    ensures var views := EnrichAll(rows, students, groups);
            forall i, j :: 0 <= i < j < |views| ==> MayPrecede(views[i].fee.dueDate, views[j].fee.dueDate)
  {
    var views := EnrichAll(rows, students, groups);
    forall i, j | 0 <= i < j < |views| ensures MayPrecede(views[i].fee.dueDate, views[j].fee.dueDate) {
      assert MayPrecede(SortKey(rows[i], DueDateDesc), SortKey(rows[j], DueDateDesc));
    }
  }

  /** Every selected fee is shown. */
  lemma ListedViewsCover(fees: map<string, Fee>, sel: set<string>, rows: seq<Fee>,
                         students: map<string, Student>, groups: map<string, seq<Payment>>)
    requires forall k :: k in sel ==> k in fees && fees[k] in rows
    ensures var views := EnrichAll(rows, students, groups);
            forall k :: k in sel ==> exists i :: 0 <= i < |views| && views[i].fee == fees[k]
  {
    var views := EnrichAll(rows, students, groups);
    forall k | k in sel ensures exists i :: 0 <= i < |views| && views[i].fee == fees[k] {
      var i :| 0 <= i < |rows| && rows[i] == fees[k];
      assert views[i].fee == rows[i];
    }
  }

  /** What one shown fee carries, in terms of the books. */
  ghost predicate ShowsBooks(b: Books, sel: set<string>, students: map<string, Student>, v: FeeView) {
    && v.fee.id in sel && v.fee.id in b.fees && b.fees[v.fee.id] == v.fee
    && v.student == StudentOf(students, v.fee.studentId)
    && ByDateAsc(v.payments)
    && multiset(v.payments) == multiset(PaymentsOf(b.payments, v.fee.id))
    && v.totalPaid == TotalPaid(b.payments, v.fee.id)
    && v.balance == v.fee.amount - v.totalPaid >= 0
  }

  /** One selected stored row shows its student, its own payments in date order and the ledger's totals. */
  lemma ListedViewRow(b: Books, sel: set<string>, rows: seq<Fee>,
                      students: map<string, Student>, groups: map<string, seq<Payment>>, i: int)
    requires Consistent(b)
    requires 0 <= i < |rows| && rows[i].id in sel && rows[i].id in b.fees && b.fees[rows[i].id] == rows[i]
    requires forall k :: GroupOf(groups, k) == PaymentsOf(FetchedPayments(b.payments, IdsOf(rows)), k)
    ensures ShowsBooks(b, sel, students, Enrich(rows[i], students, groups))
  {
    ViewMatchesBooks(b, rows, students, groups, i);
    ListedFeeAgreesWithTotals(b, rows, students, groups, i);
  }

  /**
   * Every shown fee is a selected stored row, with its student, its own
   * payments in date order, and totals that agree with the ledger.
   */
  lemma ListedViewsRows(b: Books, sel: set<string>, rows: seq<Fee>,
                        students: map<string, Student>, groups: map<string, seq<Payment>>)
    requires Consistent(b)
    requires forall i :: 0 <= i < |rows| ==> rows[i].id in sel && rows[i].id in b.fees && b.fees[rows[i].id] == rows[i]
    requires forall k :: GroupOf(groups, k) == PaymentsOf(FetchedPayments(b.payments, IdsOf(rows)), k)
    ensures var views := EnrichAll(rows, students, groups);
            forall i :: 0 <= i < |views| ==> ShowsBooks(b, sel, students, views[i])
  {
    var views := EnrichAll(rows, students, groups);
    forall i | 0 <= i < |views| ensures ShowsBooks(b, sel, students, views[i]) {
      ListedViewRow(b, sel, rows, students, groups, i);
    }
  }

  // ---------------------------------------------------------------------------
  // Per-student summary (`GET /api/students/:id/fees`)

  /** A fee row with `total_paid` and `balance` from the `LEFT JOIN … GROUP BY`. */
  datatype SummaryRow = SummaryRow(fee: Fee, totalPaid: int, balance: int)

  /** `COALESCE(SUM(p.amount), 0)` and `f.amount - COALESCE(SUM(p.amount), 0)`. */
  function Summarise(f: Fee, ledger: seq<Payment>): (r: SummaryRow)
    ensures r.fee == f && r.totalPaid == TotalPaid(ledger, f.id) && r.totalPaid + r.balance == f.amount
  {
    var total := TotalPaid(ledger, f.id);
    SummaryRow(f, total, f.amount - total)
  }
  /** The summary rows of a student's fees, in the order the fees were selected. */
  function SummariseAll(rows: seq<Fee>, ledger: seq<Payment>): (rs: seq<SummaryRow>)
    ensures |rs| == |rows|
    ensures forall i :: 0 <= i < |rows| ==> rs[i] == Summarise(rows[i], ledger)
  {
    seq(|rows|, i requires 0 <= i < |rows| => Summarise(rows[i], ledger))
  }

  /** Summaries keep the selection's order: newest fee first. */
  lemma SummaryOrder(rows: seq<Fee>, ledger: seq<Payment>)
    requires OrderedBy(rows, CreatedAtDesc)
    ensures var rs := SummariseAll(rows, ledger);
            forall i, j :: 0 <= i < j < |rs| ==> rs[i].fee.createdAt >= rs[j].fee.createdAt
  {
    var rs := SummariseAll(rows, ledger);
    forall i, j | 0 <= i < j < |rs| ensures rs[i].fee.createdAt >= rs[j].fee.createdAt {
      assert MayPrecede(SortKey(rows[i], CreatedAtDesc), SortKey(rows[j], CreatedAtDesc));
    }
  }

  /** A fee is summarised exactly when it belongs to the student. */
  lemma SummaryCover(fees: map<string, Fee>, id: string, rows: seq<Fee>, ledger: seq<Payment>)
    requires forall i :: 0 <= i < |rows| ==> rows[i].studentId == id
    requires forall k :: k in fees && fees[k].studentId == id ==> fees[k] in rows
    ensures var rs := SummariseAll(rows, ledger);
            forall k :: k in fees ==> (fees[k].studentId == id <==> exists i :: 0 <= i < |rs| && rs[i].fee == fees[k])
  {
    var rs := SummariseAll(rows, ledger);
    forall k | k in fees ensures fees[k].studentId == id <==> exists i :: 0 <= i < |rs| && rs[i].fee == fees[k] {
      if fees[k].studentId == id {
        var i :| 0 <= i < |rows| && rows[i] == fees[k];
        assert rs[i].fee == rows[i];
      }
    }
  }

  /** In consistent books each summary row is a stored fee of the student, with the ledger's totals. */
  lemma SummaryAgreesWithBooks(b: Books, id: string, rows: seq<Fee>)
    requires Consistent(b)
    requires forall i :: 0 <= i < |rows| ==> rows[i].id in b.fees && b.fees[rows[i].id] == rows[i] && rows[i].studentId == id
    ensures var rs := SummariseAll(rows, b.payments);
            forall i :: 0 <= i < |rs| ==>
              && rs[i].fee.id in b.fees && b.fees[rs[i].fee.id] == rs[i].fee && rs[i].fee.studentId == id
              && rs[i].totalPaid == TotalPaid(b.payments, rs[i].fee.id)
              && 0 <= rs[i].balance == rs[i].fee.amount - rs[i].totalPaid
  {
    forall i | 0 <= i < |rows| {
      BalanceNonNegative(b, rows[i].id);
    }
  }


  /** The listing view and the per-student summary report the same totals for a fee. */
  lemma SummaryAgreesWithListing(b: Books, rows: seq<Fee>, students: map<string, Student>,
                                 groups: map<string, seq<Payment>>, i: int)
    requires 0 <= i < |rows|
    requires forall k :: GroupOf(groups, k) == PaymentsOf(FetchedPayments(b.payments, IdsOf(rows)), k)
    ensures var v := Enrich(rows[i], students, groups);
            var s := Summarise(rows[i], b.payments);
            v.totalPaid == s.totalPaid && v.balance == s.balance
  {
    ViewMatchesBooks(b, rows, students, groups, i);
  }
}
