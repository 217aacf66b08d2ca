/**
 * The request schemas of `validators.js`. Each schema is a list of checks in
 * the order Joi runs them (keys in declaration order, rules in the order they
 * are chained); validation stops at the first failing check and reports its
 * message, as Joi does with its default `abortEarly`. Each schema also has a
 * declarative predicate saying what a valid input is, and a `Validate…`
 * function that returns the validated value with the schema's defaults
 * filled in. Absent and `null` fields are both `None`.
 */
module Validators {
  import opened Common
  import opened Ledger
  import Ids

  // ---------------------------------------------------------------------------
  // Ordered checks

  datatype Check = Check(ok: bool, message: string)

  predicate AllOk(checks: seq<Check>) {
    forall i :: 0 <= i < |checks| ==> checks[i].ok
  }

  /** Check `i` is the first one that fails. */
  predicate FailsFirstAt(checks: seq<Check>, i: int) {
    0 <= i < |checks| && !checks[i].ok && AllOk(checks[..i])
  }

  /** The message Joi reports: that of the first failing check, if any. */
  function FirstError(checks: seq<Check>): (r: Option<string>)
    ensures r.None? <==> AllOk(checks)
    ensures r.Some? ==> exists i :: FailsFirstAt(checks, i) && checks[i].message == r.value
    decreases |checks|
  {
    if checks == [] then None
    else if !checks[0].ok then
      assert FailsFirstAt(checks, 0);
      Some(checks[0].message)
    else
      AllOkConcat([checks[0]], checks[1..]);
      assert checks == [checks[0]] + checks[1..];
      var r := FirstError(checks[1..]);
      assert r.Some? ==> exists i :: FailsFirstAt(checks[1..], i) && checks[1..][i].message == r.value;
      assert forall i :: FailsFirstAt(checks[1..], i) ==> FailsFirstAt(checks, i + 1) by {
        forall i | FailsFirstAt(checks[1..], i) ensures FailsFirstAt(checks, i + 1) {
          assert checks[..i + 1] == [checks[0]] + checks[1..][..i];
        }
      }
      r
  }

  lemma AllOkConcat(a: seq<Check>, b: seq<Check>)
    ensures AllOk(a + b) <==> AllOk(a) && AllOk(b)
  {
    if AllOk(a) && AllOk(b) {
      forall i | 0 <= i < |a + b| ensures (a + b)[i].ok {
        if i >= |a| {
          assert (a + b)[i] == b[i - |a|];
        }
      }
    }
    if AllOk(a + b) {
      forall i | 0 <= i < |a| ensures a[i].ok {
        assert (a + b)[i] == a[i];
      }
      forall i | 0 <= i < |b| ensures b[i].ok {
        assert (a + b)[|a| + i] == b[i];
      }
    }
  }

  /** Joi's `string.empty` text, for fields without a custom message for it. */
  function EmptyMsg(key: string): string {
    "\"" + key + "\" is not allowed to be empty"
  }

  /** `.max(n)` on an optional string. */
  predicate WithinLen(v: Option<string>, n: nat) {
    v.None? || |v.value| <= n
  }

  /** `.min(n)` on an optional string. */
  predicate AtLeastLen(v: Option<string>, n: nat) {
    v.None? || |v.value| >= n
  }

  /** A Joi string without `allow('')` rejects the empty string. */
  predicate NotEmpty(v: Option<string>) {
    v.None? || v.value != ""
  }

  /** `.valid(...)` on an optional string. */
  predicate OneOf(v: Option<string>, allowed: set<string>) {
    v.None? || v.value in allowed
  }

  predicate IntWithin(v: Option<int>, lo: int, hi: int) {
    v.None? || lo <= v.value <= hi
  }

  const Roles: set<string> := {"admin", "accountant", "teacher"}
  const StudentStatuses: set<string> := {"Active", "Inactive", "Pending"}
  const FeeStatusNames: set<string> := {"paid", "pending", "overdue"}
  const AttendanceStatuses: set<string> := {"present", "absent", "late", "excused"}
  const Categories: set<string> := {"general", "academic", "event", "urgent", "holiday"}
  const Audiences: set<string> := {"all", "students", "teachers", "parents"}
  const Priorities: set<string> := {"low", "normal", "high", "urgent"}
  const DefaultAcademicYear: string := "2024/2025"


  // ---------------------------------------------------------------------------
  // The messages of the schemas' custom `messages({...})` blocks

  const AcademicYearMalformedMsg: string := "Academic year must be in format YYYY/YYYY"
  const AddressTooLongMsg: string := "Address cannot exceed 500 characters"
  const AmountNegativeMsg: string := "Amount cannot be negative"
  const AmountRequiredMsg: string := "Amount is required"
  const AmountTooLargeMsg: string := "Amount cannot exceed 999,999.99"
  const AttendanceDateInFutureMsg: string := "Attendance date cannot be in the future"
  const AttendanceStatusInvalidMsg: string := "Status must be one of: present, absent, late, excused"
  const AudienceInvalidMsg: string := "Target audience must be one of: all, students, teachers, parents"
  const BirthDateInFutureMsg: string := "Date of birth cannot be in the future"
  const CapacityTooLargeMsg: string := "Capacity cannot exceed 100"
  const CapacityTooSmallMsg: string := "Capacity must be at least 1"
  const CategoryInvalidMsg: string := "Category must be one of: general, academic, event, urgent, holiday"
  const ClassNameRequiredMsg: string := "Class name is required"
  const ClassNameTooLongMsg: string := "Class name cannot exceed 100 characters"
  const ClassNameTooShortMsg: string := "Class name must be at least 2 characters long"
  const ClassRequiredMsg: string := "Class is required"
  const ContentRequiredMsg: string := "Content is required"
  const ContentTooLongMsg: string := "Content cannot exceed 5000 characters"
  const ContentTooShortMsg: string := "Content must be at least 10 characters long"
  const EmailRequiredMsg: string := "Email is required"
  const EndBeforeStartMsg: string := "End date must be after start date"
  const EndDateWithoutStartMsg: string := "\"end_date\" date references \"ref:start_date\" which must have a valid date format"
  const FeeIdRequiredMsg: string := "Fee ID is required"
  const FeeIdTooLongMsg: string := "Fee ID cannot exceed 50 characters"
  const FeeStatusInvalidMsg: string := "Status must be one of: paid, pending, overdue"
  const GradeLevelOutOfRangeMsg: string := "Grade level must be between 1 and 12"
  const GradeLevelRequiredMsg: string := "Grade level is required"
  const LimitTooLargeMsg: string := "Limit cannot exceed 1000"
  const LimitTooSmallMsg: string := "Limit must be at least 1"
  const NameRequiredMsg: string := "Name is required"
  const NameTooLongMsg: string := "Name cannot exceed 200 characters"
  const NameTooShortMsg: string := "Name must be at least 2 characters long"
  const NotesTooLongMsg: string := "Notes cannot exceed 1000 characters"
  const OffsetNegativeMsg: string := "Offset cannot be negative"
  const ParentNameTooLongMsg: string := "Parent name cannot exceed 300 characters"
  const ParentPhoneTooLongMsg: string := "Parent phone cannot exceed 20 characters"
  const PasswordRequiredMsg: string := "Password is required"
  const PasswordTooLongMsg: string := "Password cannot exceed 100 characters"
  const PasswordTooShortMsg: string := "Password must be at least 6 characters long"
  const PaymentAmountRequiredMsg: string := "Payment amount is required"
  const PaymentAmountTooLargeMsg: string := "Payment amount cannot exceed 999,999.99"
  const PaymentAmountTooSmallMsg: string := "Payment amount must be at least 0.01"
  const PaymentDateInFutureMsg: string := "Payment date cannot be in the future"
  const PaymentMethodTooLongMsg: string := "Payment method cannot exceed 50 characters"
  const PhoneTooLongMsg: string := "Phone number cannot exceed 20 characters"
  const PriorityInvalidMsg: string := "Priority must be one of: low, normal, high, urgent"
  const RecordsEmptyMsg: string := "At least one attendance record is required"
  const RecordsRequiredMsg: string := "Attendance records are required"
  const RemarksTooLongMsg: string := "Remarks cannot exceed 500 characters"
  const RoleInvalidMsg: string := "Role must be one of: admin, accountant, teacher"
  const RoleRequiredMsg: string := "Role is required"
  const SchoolNameTooLongMsg: string := "School name cannot exceed 300 characters"
  const SearchTooLongMsg: string := "Search query cannot exceed 100 characters"
  const ShortClassNameTooLongMsg: string := "Class name cannot exceed 50 characters"
  const StatusRequiredMsg: string := "Status is required"
  const StudentIdRequiredMsg: string := "Student ID is required"
  const StudentIdTooLongMsg: string := "Student ID cannot exceed 50 characters"
  const StudentNameRequiredMsg: string := "Student name is required"
  const StudentNameTooLongMsg: string := "Student name cannot exceed 300 characters"
  const StudentStatusInvalidMsg: string := "Status must be one of: Active, Inactive, Pending"
  const SubjectRequiredMsg: string := "Subject is required"
  const TeacherIdInvalidMsg: string := "Invalid teacher ID"
  const TeacherIdRequiredMsg: string := "Teacher ID is required"
  const TitleRequiredMsg: string := "Title is required"
  const TitleTooLongMsg: string := "Title cannot exceed 200 characters"
  const TitleTooShortMsg: string := "Title must be at least 3 characters long"

  // ---------------------------------------------------------------------------
  // paymentSchema (validators.js:127-150)

  datatype PaymentInput = PaymentInput(
    feeId: Option<string>, amount: Option<int>, paymentMethod: Option<string>,
    paymentDate: Option<Date>, notes: Option<string>)

  function PaymentChecks(p: PaymentInput, today: Date): seq<Check> {
    [ Check(p.feeId.Some?, FeeIdRequiredMsg),
      Check(NotEmpty(p.feeId), EmptyMsg("fee_id")),
      Check(p.amount.Some?, PaymentAmountRequiredMsg),
      Check(p.amount.None? || p.amount.value >= MinPayment, PaymentAmountTooSmallMsg),
      Check(p.amount.None? || p.amount.value <= MaxAmount, PaymentAmountTooLargeMsg),
      Check(WithinLen(p.paymentMethod, 50), PaymentMethodTooLongMsg),
      Check(p.paymentDate.None? || p.paymentDate.value <= today, PaymentDateInFutureMsg),
      Check(WithinLen(p.notes, 1000), NotesTooLongMsg) ]
  }

  /** A fee id and an amount of 0.01 to 999,999.99; the date, if given, is not in the future. */
  predicate ValidPayment(p: PaymentInput, today: Date) {
    && p.feeId.Some? && p.feeId.value != ""
    && p.amount.Some? && MinPayment <= p.amount.value <= MaxAmount
    && WithinLen(p.paymentMethod, 50)
    && (p.paymentDate.None? || p.paymentDate.value <= today)
    && WithinLen(p.notes, 1000)
  }

  lemma PaymentChecksOk(p: PaymentInput, today: Date)
    ensures AllOk(PaymentChecks(p, today)) <==> ValidPayment(p, today)
  {
    var cs := PaymentChecks(p, today);
    if AllOk(cs) {
      assert cs[0].ok && cs[1].ok && cs[2].ok && cs[3].ok && cs[4].ok && cs[5].ok && cs[6].ok && cs[7].ok;
    }
  }

  function ValidatePayment(p: PaymentInput, today: Date): (r: Result<PaymentRequest, string>)
    ensures r.Ok? <==> ValidPayment(p, today)
    ensures r.Ok? ==> && r.value.feeId == p.feeId.value && r.value.amount == p.amount.value
                      && MinPayment <= r.value.amount <= MaxAmount
                      && r.value.paymentMethod == p.paymentMethod && r.value.paymentDate == p.paymentDate
                      && r.value.notes == p.notes
    ensures r.Err? ==> FirstError(PaymentChecks(p, today)) == Some(r.error)
  {
    PaymentChecksOk(p, today);
    match FirstError(PaymentChecks(p, today))
    case Some(msg) => Err(msg)
    case None => Ok(PaymentRequest(p.feeId.value, p.amount.value, p.paymentMethod, p.paymentDate, p.notes))
  }

  // ---------------------------------------------------------------------------
  // feeSchema (validators.js:97-124)

  datatype FeeInput = FeeInput(
    id: Option<string>, studentId: Option<string>, klass: Option<string>,
    amount: Option<int>, dueDate: Option<Date>, status: Option<string>)

  datatype FeeRequest = FeeRequest(
    id: Option<string>, studentId: string, klass: Option<string>,
    amount: int, dueDate: Option<Date>, status: Status)

  function FeeChecks(f: FeeInput): seq<Check> {
    [ Check(NotEmpty(f.id), EmptyMsg("id")),
      Check(WithinLen(f.id, 50), FeeIdTooLongMsg),
      Check(f.studentId.Some?, StudentIdRequiredMsg),
      Check(NotEmpty(f.studentId), EmptyMsg("student_id")),
      Check(WithinLen(f.klass, 100), ClassNameTooLongMsg),
      Check(f.amount.Some?, AmountRequiredMsg),
      Check(f.amount.None? || f.amount.value >= 0, AmountNegativeMsg),
      Check(f.amount.None? || f.amount.value <= MaxAmount, AmountTooLargeMsg),
      Check(OneOf(f.status, FeeStatusNames), FeeStatusInvalidMsg) ]
  }

  /** A student id, an amount of 0 to 999,999.99, and a status of paid, pending or overdue. */
  predicate ValidFee(f: FeeInput) {
    && NotEmpty(f.id) && WithinLen(f.id, 50)
    && f.studentId.Some? && f.studentId.value != ""
    && WithinLen(f.klass, 100)
    && f.amount.Some? && 0 <= f.amount.value <= MaxAmount
    && OneOf(f.status, FeeStatusNames)
  }

  lemma FeeChecksOk(f: FeeInput)
    ensures AllOk(FeeChecks(f)) <==> ValidFee(f)
  {
    var cs := FeeChecks(f);
    if AllOk(cs) {
      assert cs[0].ok && cs[1].ok && cs[2].ok && cs[3].ok && cs[4].ok && cs[5].ok && cs[6].ok && cs[7].ok;
      assert cs[8].ok;
    }
  }

  function ValidateFee(f: FeeInput): (r: Result<FeeRequest, string>)
    ensures r.Ok? <==> ValidFee(f)
    ensures r.Ok? ==> && r.value.studentId == f.studentId.value && r.value.id == f.id
                      && r.value.amount == f.amount.value && 0 <= r.value.amount <= MaxAmount
                      && r.value.klass == f.klass && r.value.dueDate == f.dueDate
    ensures r.Ok? ==> r.value.status != Partial
    ensures r.Ok? && f.status.None? ==> r.value.status == Pending
    ensures r.Ok? && f.status.Some? ==> StatusName(r.value.status) == f.status.value
    ensures r.Err? ==> FirstError(FeeChecks(f)) == Some(r.error)
  {
    FeeChecksOk(f);
    match FirstError(FeeChecks(f))
    case Some(msg) => Err(msg)
    case None =>
      var status :=
        if f.status.None? then Pending
        else if f.status.value == "paid" then Paid
        else if f.status.value == "overdue" then Overdue
        else Pending;
      Ok(FeeRequest(f.id, f.studentId.value, f.klass, f.amount.value, f.dueDate, status))
  }

  // ---------------------------------------------------------------------------
  // studentSchema (validators.js:51-94)

  datatype StudentInput = StudentInput(
    id: Option<string>, name: Option<string>, email: Option<string>, phone: Option<string>,
    dob: Option<Date>, klass: Option<string>, parentName: Option<string>,
    parentPhone: Option<string>, address: Option<string>, status: Option<string>)

  datatype StudentRequest = StudentRequest(
    id: Option<string>, name: string, email: Option<string>, phone: Option<string>,
    dob: Option<Date>, klass: Option<string>, parentName: Option<string>,
    parentPhone: Option<string>, address: Option<string>, status: string)

  function StudentChecks(s: StudentInput, today: Date): seq<Check> {
    [ Check(NotEmpty(s.id), EmptyMsg("id")),
      Check(WithinLen(s.id, 50), StudentIdTooLongMsg),
      Check(s.name.Some?, StudentNameRequiredMsg),
      Check(NotEmpty(s.name), EmptyMsg("name")),
      Check(WithinLen(s.name, 300), StudentNameTooLongMsg),
      Check(WithinLen(s.phone, 20), PhoneTooLongMsg),
      Check(s.dob.None? || s.dob.value <= today, BirthDateInFutureMsg),
      Check(WithinLen(s.klass, 100), ClassNameTooLongMsg),
      Check(WithinLen(s.parentName, 300), ParentNameTooLongMsg),
      Check(WithinLen(s.parentPhone, 20), ParentPhoneTooLongMsg),
      Check(WithinLen(s.address, 500), AddressTooLongMsg),
      Check(OneOf(s.status, StudentStatuses), StudentStatusInvalidMsg) ]
  }

  /** A name of 1 to 300 characters, bounded contact fields, a status of Active, Inactive or Pending. */
  predicate ValidStudent(s: StudentInput, today: Date) {
    && NotEmpty(s.id) && WithinLen(s.id, 50)
    && s.name.Some? && 1 <= |s.name.value| <= 300
    && WithinLen(s.phone, 20)
    && (s.dob.None? || s.dob.value <= today)
    && WithinLen(s.klass, 100)
    && WithinLen(s.parentName, 300)
    && WithinLen(s.parentPhone, 20)
    && WithinLen(s.address, 500)
    && OneOf(s.status, StudentStatuses)
  }

  lemma StudentChecksOk(s: StudentInput, today: Date)
    ensures AllOk(StudentChecks(s, today)) <==> ValidStudent(s, today)
  {
    var cs := StudentChecks(s, today);
    if AllOk(cs) {
      assert cs[0].ok && cs[1].ok && cs[2].ok && cs[3].ok && cs[4].ok && cs[5].ok && cs[6].ok && cs[7].ok;
      assert cs[8].ok && cs[9].ok && cs[10].ok && cs[11].ok;
    }
  }

  function ValidateStudent(s: StudentInput, today: Date): (r: Result<StudentRequest, string>)
    ensures r.Ok? <==> ValidStudent(s, today)
    ensures r.Ok? ==> && r.value.id == s.id && r.value.name == s.name.value
                      && 1 <= |r.value.name| <= 300 && r.value.klass == s.klass
                      && r.value.status in StudentStatuses
    ensures r.Ok? ==> r.value.status == s.status.GetOr("Active")
    ensures r.Err? ==> FirstError(StudentChecks(s, today)) == Some(r.error)
  {
    StudentChecksOk(s, today);
    match FirstError(StudentChecks(s, today))
    case Some(msg) => Err(msg)
    case None =>
      Ok(StudentRequest(s.id, s.name.value, s.email, s.phone, s.dob, s.klass,
                        s.parentName, s.parentPhone, s.address, s.status.GetOr("Active")))
  }

  // ---------------------------------------------------------------------------
  // registerSchema (validators.js:4-31) and loginSchema (validators.js:34-48)

  datatype RegisterInput = RegisterInput(
    name: Option<string>, email: Option<string>, password: Option<string>,
    school: Option<string>, role: Option<string>)

  datatype Registration = Registration(name: string, email: string, password: string, school: string, role: string)

  function RegisterChecks(u: RegisterInput): seq<Check> {
    [ Check(u.name.Some?, NameRequiredMsg),
      Check(NotEmpty(u.name), EmptyMsg("name")),
      Check(AtLeastLen(u.name, 2), NameTooShortMsg),
      Check(WithinLen(u.name, 200), NameTooLongMsg),
      Check(u.email.Some?, EmailRequiredMsg),
      Check(NotEmpty(u.email), EmptyMsg("email")),
      Check(u.password.Some?, PasswordRequiredMsg),
      Check(NotEmpty(u.password), EmptyMsg("password")),
      Check(AtLeastLen(u.password, 6), PasswordTooShortMsg),
      Check(WithinLen(u.password, 100), PasswordTooLongMsg),
      Check(WithinLen(u.school, 300), SchoolNameTooLongMsg),
      Check(u.role.Some?, RoleRequiredMsg),
      Check(OneOf(u.role, Roles), RoleInvalidMsg) ]
  }

  /** A name of 2 to 200 characters, an email, a password of 6 to 100 characters and a known role. */
  predicate ValidRegistration(u: RegisterInput) {
    && u.name.Some? && 2 <= |u.name.value| <= 200
    && u.email.Some? && u.email.value != ""
    && u.password.Some? && 6 <= |u.password.value| <= 100
    && WithinLen(u.school, 300)
    && u.role.Some? && u.role.value in Roles
  }

  lemma RegisterChecksOk(u: RegisterInput)
    ensures AllOk(RegisterChecks(u)) <==> ValidRegistration(u)
  {
    var cs := RegisterChecks(u);
    if AllOk(cs) {
      assert cs[0].ok && cs[1].ok && cs[2].ok && cs[3].ok && cs[4].ok && cs[5].ok && cs[6].ok && cs[7].ok;
      assert cs[8].ok && cs[9].ok && cs[10].ok && cs[11].ok && cs[12].ok;
    }
  }

  function ValidateRegistration(u: RegisterInput): (r: Result<Registration, string>)
    ensures r.Ok? <==> ValidRegistration(u)
    ensures r.Ok? ==> && r.value.role in Roles && 6 <= |r.value.password| <= 100
                      && 2 <= |r.value.name| <= 200 && r.value.school == u.school.GetOr("")
    ensures r.Err? ==> FirstError(RegisterChecks(u)) == Some(r.error)
  {
    RegisterChecksOk(u);
    match FirstError(RegisterChecks(u))
    case Some(msg) => Err(msg)
    case None => Ok(Registration(u.name.value, u.email.value, u.password.value, u.school.GetOr(""), u.role.value))
  }

  datatype LoginInput = LoginInput(email: Option<string>, password: Option<string>, role: Option<string>)

  datatype Login = Login(email: string, password: string, role: Option<string>)

  function LoginChecks(l: LoginInput): seq<Check> {
    [ Check(l.email.Some?, EmailRequiredMsg),
      Check(NotEmpty(l.email), EmptyMsg("email")),
      Check(l.password.Some?, PasswordRequiredMsg),
      Check(NotEmpty(l.password), EmptyMsg("password")),
      Check(OneOf(l.role, Roles), RoleInvalidMsg) ]
  }

  /** An email and a password; a role is optional but, when given, must be a known one. */
  predicate ValidLogin(l: LoginInput) {
    && l.email.Some? && l.email.value != ""
    && l.password.Some? && l.password.value != ""
    && OneOf(l.role, Roles)
  }

  lemma LoginChecksOk(l: LoginInput)
    ensures AllOk(LoginChecks(l)) <==> ValidLogin(l)
  {
    var cs := LoginChecks(l);
    if AllOk(cs) {
      assert cs[0].ok && cs[1].ok && cs[2].ok && cs[3].ok && cs[4].ok;
    }
  }

  function ValidateLogin(l: LoginInput): (r: Result<Login, string>)
    ensures r.Ok? <==> ValidLogin(l)
    ensures r.Ok? ==> r.value.role == l.role && (r.value.role.Some? ==> r.value.role.value in Roles)
    ensures r.Err? ==> FirstError(LoginChecks(l)) == Some(r.error)
  {
    LoginChecksOk(l);
    match FirstError(LoginChecks(l))
    case Some(msg) => Err(msg)
    case None => Ok(Login(l.email.value, l.password.value, l.role))
  }

  // ---------------------------------------------------------------------------
  // allocationSchema (validators.js:154-175) and classSchema (validators.js:271-299)

  /** `^\d{4}\/\d{4}$`: four digits, a slash, four digits. */
  predicate AcademicYearFormat(s: string) {
    && |s| == 9 && s[4] == '/'
    && (forall i :: 0 <= i < 4 ==> Ids.IsDigit(s[i]))
    && (forall i :: 5 <= i < 9 ==> Ids.IsDigit(s[i]))
  }

  datatype AllocationInput = AllocationInput(
    teacherId: Option<string>, className: Option<string>, subject: Option<string>, academicYear: Option<string>)

  datatype Allocation = Allocation(teacherId: string, className: string, subject: string, academicYear: string)

  function AllocationChecks(a: AllocationInput): seq<Check> {
    [ Check(a.teacherId.Some?, TeacherIdRequiredMsg),
      Check(NotEmpty(a.teacherId), TeacherIdRequiredMsg),
      Check(a.className.Some?, ClassNameRequiredMsg),
      Check(NotEmpty(a.className), ClassNameRequiredMsg),
      Check(a.subject.Some?, SubjectRequiredMsg),
      Check(NotEmpty(a.subject), SubjectRequiredMsg),
      Check(NotEmpty(a.academicYear), EmptyMsg("academic_year")),
      Check(a.academicYear.None? || AcademicYearFormat(a.academicYear.value),
            AcademicYearMalformedMsg) ]
  }

  /** A teacher, a class and a subject, and a year of the form YYYY/YYYY when one is given. */
  predicate ValidAllocation(a: AllocationInput) {
    && a.teacherId.Some? && a.teacherId.value != ""
    && a.className.Some? && a.className.value != ""
    && a.subject.Some? && a.subject.value != ""
    && (a.academicYear.None? || AcademicYearFormat(a.academicYear.value))
  }

  lemma AllocationChecksOk(a: AllocationInput)
    ensures AllOk(AllocationChecks(a)) <==> ValidAllocation(a)
  {
    var cs := AllocationChecks(a);
    if AllOk(cs) {
      assert cs[0].ok && cs[1].ok && cs[2].ok && cs[3].ok && cs[4].ok && cs[5].ok && cs[6].ok && cs[7].ok;
    }
  }

  function ValidateAllocation(a: AllocationInput): (r: Result<Allocation, string>)
    ensures r.Ok? <==> ValidAllocation(a)
    ensures r.Ok? ==> AcademicYearFormat(r.value.academicYear)
    ensures r.Ok? ==> r.value.academicYear == a.academicYear.GetOr(DefaultAcademicYear)
    ensures r.Err? ==> FirstError(AllocationChecks(a)) == Some(r.error)
  {
    AllocationChecksOk(a);
    match FirstError(AllocationChecks(a))
    case Some(msg) => Err(msg)
    case None =>
      Ok(Allocation(a.teacherId.value, a.className.value, a.subject.value, a.academicYear.GetOr(DefaultAcademicYear)))
  }

  datatype ClassInput = ClassInput(
    name: Option<string>, gradeLevel: Option<int>, classTeacherId: Option<string>,
    capacity: Option<int>, academicYear: Option<string>, isActive: Option<bool>)

  datatype SchoolClass = SchoolClass(
    name: string, gradeLevel: int, classTeacherId: Option<string>,
    capacity: int, academicYear: string, isActive: bool)

  function ClassChecks(c: ClassInput): seq<Check> {
    [ Check(c.name.Some?, ClassNameRequiredMsg),
      Check(NotEmpty(c.name), EmptyMsg("name")),
      Check(AtLeastLen(c.name, 2), ClassNameTooShortMsg),
      Check(WithinLen(c.name, 50), ShortClassNameTooLongMsg),
      Check(c.gradeLevel.Some?, GradeLevelRequiredMsg),
      Check(c.gradeLevel.None? || c.gradeLevel.value >= 1, GradeLevelOutOfRangeMsg),
      Check(c.gradeLevel.None? || c.gradeLevel.value <= 12, GradeLevelOutOfRangeMsg),
      Check(NotEmpty(c.classTeacherId), TeacherIdInvalidMsg),
      Check(c.capacity.None? || c.capacity.value >= 1, CapacityTooSmallMsg),
      Check(c.capacity.None? || c.capacity.value <= 100, CapacityTooLargeMsg),
      Check(NotEmpty(c.academicYear), EmptyMsg("academic_year")),
      Check(c.academicYear.None? || AcademicYearFormat(c.academicYear.value),
            AcademicYearMalformedMsg) ]
  }

  /** A name of 2 to 50 characters, grade level 1 to 12, capacity 1 to 100, a well-formed year. */
  predicate ValidClass(c: ClassInput) {
    && c.name.Some? && 2 <= |c.name.value| <= 50
    && c.gradeLevel.Some? && 1 <= c.gradeLevel.value <= 12
    && NotEmpty(c.classTeacherId)
    && IntWithin(c.capacity, 1, 100)
    && (c.academicYear.None? || AcademicYearFormat(c.academicYear.value))
  }

  lemma ClassChecksOk(c: ClassInput)
    ensures AllOk(ClassChecks(c)) <==> ValidClass(c)
  {
    var cs := ClassChecks(c);
    if AllOk(cs) {
      assert cs[0].ok && cs[1].ok && cs[2].ok && cs[3].ok && cs[4].ok && cs[5].ok && cs[6].ok && cs[7].ok;
      assert cs[8].ok && cs[9].ok && cs[10].ok && cs[11].ok;
    }
  }

  function ValidateClass(c: ClassInput): (r: Result<SchoolClass, string>)
    ensures r.Ok? <==> ValidClass(c)
    ensures r.Ok? ==> 1 <= r.value.gradeLevel <= 12 && 1 <= r.value.capacity <= 100
                      && AcademicYearFormat(r.value.academicYear)
    ensures r.Ok? ==> && r.value.capacity == c.capacity.GetOr(30)
                      && r.value.academicYear == c.academicYear.GetOr(DefaultAcademicYear)
                      && r.value.isActive == c.isActive.GetOr(true)
    ensures r.Err? ==> FirstError(ClassChecks(c)) == Some(r.error)
  {
    ClassChecksOk(c);
    match FirstError(ClassChecks(c))
    case Some(msg) => Err(msg)
    case None =>
      Ok(SchoolClass(c.name.value, c.gradeLevel.value, c.classTeacherId, c.capacity.GetOr(30),
                     c.academicYear.GetOr(DefaultAcademicYear), c.isActive.GetOr(true)))
  }

  // ---------------------------------------------------------------------------
  // attendanceSchema (validators.js:178-210)

  datatype AttendanceItem = AttendanceItem(
    studentId: Option<string>, klass: Option<string>, attendanceDate: Option<Date>,
    status: Option<string>, remarks: Option<string>)

  function AttendanceItemChecks(a: AttendanceItem, today: Date): seq<Check> {
    [ Check(a.studentId.Some?, StudentIdRequiredMsg),
      Check(NotEmpty(a.studentId), StudentIdRequiredMsg),
      Check(a.klass.Some?, ClassRequiredMsg),
      Check(NotEmpty(a.klass), ClassRequiredMsg),
      Check(a.attendanceDate.None? || a.attendanceDate.value <= today, AttendanceDateInFutureMsg),
      Check(a.status.Some?, StatusRequiredMsg),
      Check(OneOf(a.status, AttendanceStatuses), AttendanceStatusInvalidMsg),
      Check(WithinLen(a.remarks, 500), RemarksTooLongMsg) ]
  }

  predicate ValidAttendanceItem(a: AttendanceItem, today: Date) {
    && a.studentId.Some? && a.studentId.value != ""
    && a.klass.Some? && a.klass.value != ""
    && (a.attendanceDate.None? || a.attendanceDate.value <= today)
    && a.status.Some? && a.status.value in AttendanceStatuses
    && WithinLen(a.remarks, 500)
  }

  lemma AttendanceItemChecksOk(a: AttendanceItem, today: Date)
    ensures AllOk(AttendanceItemChecks(a, today)) <==> ValidAttendanceItem(a, today)
  {
    var cs := AttendanceItemChecks(a, today);
    if AllOk(cs) {
      assert cs[0].ok && cs[1].ok && cs[2].ok && cs[3].ok && cs[4].ok && cs[5].ok && cs[6].ok && cs[7].ok;
    }
  }

  /** The items' checks, one item after another. */
  function ItemsChecks(items: seq<AttendanceItem>, today: Date): seq<Check>
    decreases |items|
  {
    if items == [] then [] else AttendanceItemChecks(items[0], today) + ItemsChecks(items[1..], today)
  }

  lemma {:induction false} ItemsChecksOk(items: seq<AttendanceItem>, today: Date)
    ensures AllOk(ItemsChecks(items, today)) <==> forall i :: 0 <= i < |items| ==> ValidAttendanceItem(items[i], today)
    decreases |items|
  {
    if items != [] {
      ItemsChecksOk(items[1..], today);
      AllOkConcat(AttendanceItemChecks(items[0], today), ItemsChecks(items[1..], today));
      AttendanceItemChecksOk(items[0], today);
      if forall i :: 0 <= i < |items| ==> ValidAttendanceItem(items[i], today) {
        assert forall i :: 0 <= i < |items[1..]| ==> ValidAttendanceItem(items[1..][i], today) by {
          forall i | 0 <= i < |items[1..]| ensures ValidAttendanceItem(items[1..][i], today) {
            assert items[1..][i] == items[i + 1];
          }
        }
      }
      if AllOk(ItemsChecks(items, today)) {
        forall i | 0 <= i < |items| ensures ValidAttendanceItem(items[i], today) {
          if i > 0 {
            assert items[1..][i - 1] == items[i];
          }
        }
      }
    }
  }

  function AttendanceChecks(records: Option<seq<AttendanceItem>>, today: Date): seq<Check> {
    [ Check(records.Some?, RecordsRequiredMsg),
      Check(records.None? || |records.value| >= 1, RecordsEmptyMsg) ]
    + (if records.Some? then ItemsChecks(records.value, today) else [])
  }

  /** At least one record, each with a student, a class, a known status and no future date. */
  predicate ValidAttendance(records: Option<seq<AttendanceItem>>, today: Date) {
    && records.Some? && |records.value| >= 1
    && forall i :: 0 <= i < |records.value| ==> ValidAttendanceItem(records.value[i], today)
  }

  lemma AttendanceChecksOk(records: Option<seq<AttendanceItem>>, today: Date)
    ensures AllOk(AttendanceChecks(records, today)) <==> ValidAttendance(records, today)
  {
    var cs := AttendanceChecks(records, today);
    AllOkConcat(cs[..2], cs[2..]);
    assert cs == cs[..2] + cs[2..];
    assert AllOk(cs[..2]) <==> cs[0].ok && cs[1].ok by {
      assert cs[..2][0] == cs[0] && cs[..2][1] == cs[1];
    }
    if records.Some? {
      ItemsChecksOk(records.value, today);
      assert cs[2..] == ItemsChecks(records.value, today);
    }
  }

  function ValidateAttendance(records: Option<seq<AttendanceItem>>, today: Date): (r: Result<seq<AttendanceItem>, string>)
    ensures r.Ok? <==> ValidAttendance(records, today)
    ensures r.Ok? ==> r.value == records.value && |r.value| >= 1
    ensures r.Err? ==> FirstError(AttendanceChecks(records, today)) == Some(r.error)
  {
    AttendanceChecksOk(records, today);
    match FirstError(AttendanceChecks(records, today))
    case Some(msg) => Err(msg)
    case None => Ok(records.value)
  }

  // ---------------------------------------------------------------------------
  // announcementSchema (validators.js:213-247)

  datatype AnnouncementInput = AnnouncementInput(
    title: Option<string>, content: Option<string>, category: Option<string>,
    targetAudience: Option<string>, priority: Option<string>,
    startDate: Option<Date>, endDate: Option<Date>, isActive: Option<bool>)

  datatype AnnouncementRequest = AnnouncementRequest(
    title: string, content: string, category: string, targetAudience: string,
    priority: string, startDate: Option<Date>, endDate: Option<Date>, isActive: bool)

  function AnnouncementChecks(a: AnnouncementInput): seq<Check> {
    [ Check(a.title.Some?, TitleRequiredMsg),
      Check(NotEmpty(a.title), EmptyMsg("title")),
      Check(AtLeastLen(a.title, 3), TitleTooShortMsg),
      Check(WithinLen(a.title, 200), TitleTooLongMsg),
      Check(a.content.Some?, ContentRequiredMsg),
      Check(NotEmpty(a.content), EmptyMsg("content")),
      Check(AtLeastLen(a.content, 10), ContentTooShortMsg),
      Check(WithinLen(a.content, 5000), ContentTooLongMsg),
      Check(OneOf(a.category, Categories), CategoryInvalidMsg),
      Check(OneOf(a.targetAudience, Audiences), AudienceInvalidMsg),
      Check(OneOf(a.priority, Priorities), PriorityInvalidMsg),
      Check(a.endDate.None? || a.startDate.Some?,
            EndDateWithoutStartMsg),
      Check(a.endDate.None? || a.startDate.None? || a.endDate.value >= a.startDate.value,
            EndBeforeStartMsg) ]
  }

  /** Title 3-200 and content 10-5000 characters, known enums, and an end date not before the start. */
  predicate ValidAnnouncement(a: AnnouncementInput) {
    && a.title.Some? && 3 <= |a.title.value| <= 200
    && a.content.Some? && 10 <= |a.content.value| <= 5000
    && OneOf(a.category, Categories) && OneOf(a.targetAudience, Audiences) && OneOf(a.priority, Priorities)
    && (a.endDate.Some? ==> a.startDate.Some? && a.endDate.value >= a.startDate.value)
  }

  lemma AnnouncementChecksOk(a: AnnouncementInput)
    ensures AllOk(AnnouncementChecks(a)) <==> ValidAnnouncement(a)
  {
    var cs := AnnouncementChecks(a);
    if AllOk(cs) {
      assert cs[0].ok && cs[1].ok && cs[2].ok && cs[3].ok && cs[4].ok && cs[5].ok && cs[6].ok && cs[7].ok;
      assert cs[8].ok && cs[9].ok && cs[10].ok && cs[11].ok && cs[12].ok;
    }
  }

  function ValidateAnnouncement(a: AnnouncementInput): (r: Result<AnnouncementRequest, string>)
    ensures r.Ok? <==> ValidAnnouncement(a)
    ensures r.Ok? && r.value.endDate.Some? ==> r.value.startDate.Some? && r.value.endDate.value >= r.value.startDate.value
    ensures r.Ok? ==> && r.value.category == a.category.GetOr("general")
                      && r.value.targetAudience == a.targetAudience.GetOr("all")
                      && r.value.priority == a.priority.GetOr("normal")
                      && r.value.isActive == a.isActive.GetOr(true)
    ensures r.Err? ==> FirstError(AnnouncementChecks(a)) == Some(r.error)
  {
    AnnouncementChecksOk(a);
    match FirstError(AnnouncementChecks(a))
    case Some(msg) => Err(msg)
    case None =>
      Ok(AnnouncementRequest(a.title.value, a.content.value, a.category.GetOr("general"),
                             a.targetAudience.GetOr("all"), a.priority.GetOr("normal"),
                             a.startDate, a.endDate, a.isActive.GetOr(true)))
  }

  // ---------------------------------------------------------------------------
  // querySchema (validators.js:330-348)

  datatype QueryInput = QueryInput(q: Option<string>, status: Option<string>, limit: Option<int>, offset: Option<int>)

  datatype Query = Query(q: Option<string>, status: Option<string>, limit: int, offset: int)

  function QueryChecks(q: QueryInput): seq<Check> {
    [ Check(NotEmpty(q.q), EmptyMsg("q")),
      Check(WithinLen(q.q, 100), SearchTooLongMsg),
      Check(OneOf(q.status, FeeStatusNames), FeeStatusInvalidMsg),
      Check(q.limit.None? || q.limit.value >= 1, LimitTooSmallMsg),
      Check(q.limit.None? || q.limit.value <= 1000, LimitTooLargeMsg),
      Check(q.offset.None? || q.offset.value >= 0, OffsetNegativeMsg) ]
  }

  /** A search text of at most 100 characters, a fee status, limit 1 to 1000 and offset at least 0. */
  predicate ValidQuery(q: QueryInput) {
    && NotEmpty(q.q) && WithinLen(q.q, 100)
    && OneOf(q.status, FeeStatusNames)
    && IntWithin(q.limit, 1, 1000)
    && (q.offset.None? || q.offset.value >= 0)
  }

  lemma QueryChecksOk(q: QueryInput)
    ensures AllOk(QueryChecks(q)) <==> ValidQuery(q)
  {
    var cs := QueryChecks(q);
    if AllOk(cs) {
      assert cs[0].ok && cs[1].ok && cs[2].ok && cs[3].ok && cs[4].ok && cs[5].ok;
    }
  }

  function ValidateQuery(q: QueryInput): (r: Result<Query, string>)
    ensures r.Ok? <==> ValidQuery(q)
    ensures r.Ok? ==> 1 <= r.value.limit <= 1000 && r.value.offset >= 0
    ensures r.Ok? ==> r.value.limit == q.limit.GetOr(100) && r.value.offset == q.offset.GetOr(0)
    ensures r.Err? ==> FirstError(QueryChecks(q)) == Some(r.error)
  {
    QueryChecksOk(q);
    match FirstError(QueryChecks(q))
    case Some(msg) => Err(msg)
    case None => Ok(Query(q.q, q.status, q.limit.GetOr(100), q.offset.GetOr(0)))
  }
}
