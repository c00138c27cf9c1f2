/**
 The application form: the validation schema the form's values must pass,
 the values the form starts with, and the submission that appends a record.
 */
module Intake {
  import opened LoanTypes
  import opened LoanStore
  import Risk
  import Review
  import Arithmetic

  /** The fields of the form, in schema order. */
  datatype Field =
    | FullName | Email | PhoneNumber | LoanAmount
    | Purpose | CreditScore | EmploymentStatus | MonthlyIncome

  /** Position of a field in the schema. */
  function FieldIndex(f: Field): nat
  {
    match f
    case FullName => 0
    case Email => 1
    case PhoneNumber => 2
    case LoanAmount => 3
    case Purpose => 4
    case CreditScore => 5
    case EmploymentStatus => 6
    case MonthlyIncome => 7
  }

  /** How a field fails: below its minimum, above its maximum, or not an email address. */
  datatype Violation = TooSmall | TooLarge | NotEmail

  /** A validation failure: the field and how it failed. */
  datatype Issue = Issue(field: Field, violation: Violation)

  /** The schema's check for one field. The email format test is a parameter. */
  function CheckField(v: ApplicationData, isEmail: string -> bool, f: Field): (r: Option<Violation>)
    ensures r == Some(NotEmail) <==> f == Email && !isEmail(v.email)
    ensures r == Some(TooLarge) <==>
      (f == LoanAmount && v.loanAmount > 100000.0) || (f == CreditScore && v.creditScore > 850)
    ensures f == LoanAmount ==> (r.None? <==> 1000.0 <= v.loanAmount <= 100000.0)
    ensures f == CreditScore ==> (r.None? <==> 300 <= v.creditScore <= 850)
  {
    match f
    case FullName => if |v.fullName| >= 2 then None else Some(TooSmall)
    case Email => if isEmail(v.email) then None else Some(NotEmail)
    case PhoneNumber => if |v.phoneNumber| >= 10 then None else Some(TooSmall)
    case LoanAmount =>
      if v.loanAmount < 1000.0 then Some(TooSmall)
      else if v.loanAmount > 100000.0 then Some(TooLarge)
      else None
    case Purpose => if |v.purpose| >= 1 then None else Some(TooSmall)
    case CreditScore =>
      if v.creditScore < 300 then Some(TooSmall)
      else if v.creditScore > 850 then Some(TooLarge)
      else None
    case EmploymentStatus => if |v.employmentStatus| >= 1 then None else Some(TooSmall)
    case MonthlyIncome => if v.monthlyIncome >= 1.0 then None else Some(TooSmall)
  }

  /** The message the form shows under a field for an issue. */
  function Message(i: Issue): string
  {
    match i.field
    case FullName => "Name must be at least 2 characters"
    case Email => "Please enter a valid email"
    case PhoneNumber => "Please enter a valid phone number"
    case LoanAmount =>
      if i.violation == TooLarge then "Loan amount cannot exceed $100,000"
      else "Loan amount must be at least $1,000"
    case Purpose => "Please select a loan purpose"
    case CreditScore =>
      if i.violation == TooLarge then "Credit score cannot exceed 850"
      else "Credit score must be at least 300"
    case EmploymentStatus => "Please select your employment status"
    case MonthlyIncome => "Monthly income is required"
  }

  /** The fields of a list of issues. */
  function FieldsOf(issues: seq<Issue>): (r: seq<Field>)
    ensures |r| == |issues|
    ensures forall i :: 0 <= i < |issues| ==> r[i] == issues[i].field
  {
    if |issues| == 0 then [] else [issues[0].field] + FieldsOf(issues[1..])
  }

  /** The issues of the fields in `fields`, in that order. */
  function IssuesOf(v: ApplicationData, isEmail: string -> bool, fields: seq<Field>): (r: seq<Issue>)
    ensures forall i :: 0 <= i < |r| ==> CheckField(v, isEmail, r[i].field) == Some(r[i].violation)
  {
    if |fields| == 0 then []
    else
      var rest := IssuesOf(v, isEmail, fields[1..]);
      match CheckField(v, isEmail, fields[0])
      case None => rest
      case Some(m) => [Issue(fields[0], m)] + rest
  }

  /** A field is reported exactly when it is among those checked and fails its check. */
  lemma {:induction false} IssuesOfReports(v: ApplicationData, isEmail: string -> bool, fields: seq<Field>, f: Field)
    ensures f in FieldsOf(IssuesOf(v, isEmail, fields)) <==> f in fields && CheckField(v, isEmail, f).Some?
  {
    if |fields| > 0 {
      IssuesOfReports(v, isEmail, fields[1..], f);
      var rest := IssuesOf(v, isEmail, fields[1..]);
      match CheckField(v, isEmail, fields[0])
      case None =>
      case Some(m) =>
        assert FieldsOf([Issue(fields[0], m)] + rest) == [fields[0]] + FieldsOf(rest);
      assert fields == [fields[0]] + fields[1..];
    }
  }

  /** Every field of the schema, in order. */
  const AllFields: seq<Field> :=
    [FullName, Email, PhoneNumber, LoanAmount, Purpose, CreditScore, EmploymentStatus, MonthlyIncome]

  /**
   Runs the schema over the form values: one issue for each field that fails
   its check, with that check's message, in schema order.
   */
  function Validate(v: ApplicationData, isEmail: string -> bool): (r: seq<Issue>)
    ensures forall i :: 0 <= i < |r| ==> CheckField(v, isEmail, r[i].field) == Some(r[i].violation)
  {
    IssuesOf(v, isEmail, AllFields)
  }

  /** Validation reports a field exactly when that field fails its check. */
  lemma ValidateReports(v: ApplicationData, isEmail: string -> bool, f: Field)
    ensures f in FieldsOf(Validate(v, isEmail)) <==> CheckField(v, isEmail, f).Some?
  {
    assert AllFields[FieldIndex(f)] == f;
    IssuesOfReports(v, isEmail, AllFields, f);
  }

  /**
   The schema's clauses: the name has at least 2 characters, the email passes
   the format test, the phone number has at least 10 characters, the amount is
   within [1000, 100000], purpose and employment are non-empty, the score is
   within [300, 850] and the income is at least 1.
   */
  predicate InRange(v: ApplicationData, isEmail: string -> bool)
  {
    && |v.fullName| >= 2
    && isEmail(v.email)
    && |v.phoneNumber| >= 10
    && 1000.0 <= v.loanAmount <= 100000.0
    && |v.purpose| >= 1
    && 300 <= v.creditScore <= 850
    && |v.employmentStatus| >= 1
    && v.monthlyIncome >= 1.0
  }

  /** The values pass the schema (no issue is reported) exactly when they meet all its clauses. */
  predicate Valid(v: ApplicationData, isEmail: string -> bool)
    ensures Valid(v, isEmail) <==> InRange(v, isEmail)
  {
    NoIssuesIffAllChecksPass(v, isEmail);
    AllChecksPassIffInRange(v, isEmail);
    Validate(v, isEmail) == []
  }

  lemma NoIssuesIffAllChecksPass(v: ApplicationData, isEmail: string -> bool)
    ensures Validate(v, isEmail) == [] <==> forall f: Field :: CheckField(v, isEmail, f).None?
  {
    var r := Validate(v, isEmail);
    if r != [] {
      ValidateReports(v, isEmail, r[0].field);
      assert FieldsOf(r)[0] in FieldsOf(r);
    } else {
      forall f: Field
        ensures CheckField(v, isEmail, f).None?
      {
        ValidateReports(v, isEmail, f);
      }
    }
  }

  lemma AllChecksPassIffInRange(v: ApplicationData, isEmail: string -> bool)
    ensures (forall f: Field :: CheckField(v, isEmail, f).None?) <==> InRange(v, isEmail)
  {
    if InRange(v, isEmail) {
      forall f: Field
        ensures CheckField(v, isEmail, f).None?
      {
        match f
        case FullName =>
        case Email =>
        case PhoneNumber =>
        case LoanAmount =>
        case Purpose =>
        case CreditScore =>
        case EmploymentStatus =>
        case MonthlyIncome =>
      }
    } else {
      if |v.fullName| < 2 {
        assert CheckField(v, isEmail, FullName).Some?;
      } else if !isEmail(v.email) {
        assert CheckField(v, isEmail, Email).Some?;
      } else if |v.phoneNumber| < 10 {
        assert CheckField(v, isEmail, PhoneNumber).Some?;
      } else if !(1000.0 <= v.loanAmount <= 100000.0) {
        assert CheckField(v, isEmail, LoanAmount).Some?;
      } else if |v.purpose| < 1 {
        assert CheckField(v, isEmail, Purpose).Some?;
      } else if !(300 <= v.creditScore <= 850) {
        assert CheckField(v, isEmail, CreditScore).Some?;
      } else if |v.employmentStatus| < 1 {
        assert CheckField(v, isEmail, EmploymentStatus).Some?;
      } else {
        assert CheckField(v, isEmail, MonthlyIncome).Some?;
      }
    }
  }

  /** The values the form starts with. */
  const DefaultValues: ApplicationData :=
    ApplicationData("", "", "", 10000.0, "", 700, "", 0.0)

  /**
   The starting values fail the schema: name, phone, purpose, employment and
   income are too short or too small (and the email is reported when the empty
   string fails the format test), while the default amount and score are in range.
   */
  lemma DefaultValuesRejected(isEmail: string -> bool)
    ensures Validate(DefaultValues, isEmail) ==
      [Issue(FullName, TooSmall)]
      + ((if isEmail("") then [] else [Issue(Email, NotEmail)])
         + [Issue(PhoneNumber, TooSmall), Issue(Purpose, TooSmall),
            Issue(EmploymentStatus, TooSmall), Issue(MonthlyIncome, TooSmall)])
  {
    DefaultValuesTail(isEmail);
    DefaultValuesEmail(isEmail);
    IssuesOfStep(DefaultValues, isEmail, AllFields);
  }

  /** The default amount and credit score are within the schema's ranges. */
  lemma DefaultAmountAndScoreInRange(isEmail: string -> bool)
    ensures CheckField(DefaultValues, isEmail, LoanAmount).None?
    ensures CheckField(DefaultValues, isEmail, CreditScore).None?
  {
  }

  /** The starting values' issues from the email on. */
  lemma DefaultValuesEmail(isEmail: string -> bool)
    ensures IssuesOf(DefaultValues, isEmail, AllFields[1..]) ==
      (if isEmail("") then [] else [Issue(Email, NotEmail)]) + IssuesOf(DefaultValues, isEmail, AllFields[2..])
  {
    IssuesOfStep(DefaultValues, isEmail, AllFields[1..]);
    assert AllFields[1..][1..] == AllFields[2..];
  }

  /** The starting values do not pass the schema, whatever the email test says. */
  lemma DefaultValuesInvalid(isEmail: string -> bool)
    ensures !Valid(DefaultValues, isEmail)
  {
  }

  /** One step of validation: the first field's issue, if any, then the rest. */
  lemma IssuesOfStep(v: ApplicationData, isEmail: string -> bool, fields: seq<Field>)
    requires |fields| > 0
    ensures IssuesOf(v, isEmail, fields) ==
      (match CheckField(v, isEmail, fields[0]) case None => [] case Some(m) => [Issue(fields[0], m)])
      + IssuesOf(v, isEmail, fields[1..])
  {
  }

  /** The starting values' issues from the phone number on. */
  lemma DefaultValuesTail(isEmail: string -> bool)
    ensures IssuesOf(DefaultValues, isEmail, AllFields[2..]) ==
      [Issue(PhoneNumber, TooSmall), Issue(Purpose, TooSmall),
       Issue(EmploymentStatus, TooSmall), Issue(MonthlyIncome, TooSmall)]
  {
    var v := DefaultValues;
    assert AllFields[2..][1..] == AllFields[3..];
    assert AllFields[3..][1..] == AllFields[4..];
    DefaultValuesFromPurpose(isEmail);
    IssuesOfStep(v, isEmail, AllFields[3..]);
    IssuesOfStep(v, isEmail, AllFields[2..]);
  }

  /** The starting values' issues from the purpose on. */
  lemma DefaultValuesFromPurpose(isEmail: string -> bool)
    ensures IssuesOf(DefaultValues, isEmail, AllFields[4..]) ==
      [Issue(Purpose, TooSmall), Issue(EmploymentStatus, TooSmall), Issue(MonthlyIncome, TooSmall)]
  {
    var v := DefaultValues;
    assert AllFields[7..][1..] == [];
    assert AllFields[6..][1..] == AllFields[7..];
    assert AllFields[5..][1..] == AllFields[6..];
    assert AllFields[4..][1..] == AllFields[5..];
    IssuesOfStep(v, isEmail, AllFields[7..]);
    IssuesOfStep(v, isEmail, AllFields[6..]);
    IssuesOfStep(v, isEmail, AllFields[5..]);
    IssuesOfStep(v, isEmail, AllFields[4..]);
  }

  /** Every accepted form gives the risk ratio a positive denominator, so the ratio is finite. */
  lemma AcceptedFormHasFiniteRatio(v: ApplicationData, isEmail: string -> bool)
    requires Valid(v, isEmail)
    ensures v.monthlyIncome * 12.0 > 0.0
    ensures Risk.DebtToIncome(v.loanAmount, v.monthlyIncome).Finite?
    ensures Risk.DebtToIncome(v.loanAmount, v.monthlyIncome).value > 0.0
  {
    var r := Risk.DebtToIncome(v.loanAmount, v.monthlyIncome);
    if r.value <= 0.0 {
      Arithmetic.MultiplyLe(r.value, 0.0, v.monthlyIncome * 12.0);
    }
  }

  /** The result of pressing submit. */
  datatype Submission =
    | Invalid(issues: seq<Issue>)
    | Submitted(apps: seq<LoanApplication>, route: string)

  /**
   Submitting: values that fail the schema are reported and nothing is stored;
   values that pass are appended once as a new pending application and the
   page moves to that application's route.
   */
  function Submit(apps: seq<LoanApplication>, v: ApplicationData, isEmail: string -> bool,
                  freshId: string, now: int): (r: Submission)
    ensures r.Invalid? <==> !Valid(v, isEmail)
    ensures r.Invalid? ==> |r.issues| > 0 && r.issues == Validate(v, isEmail)
    ensures r.Submitted? ==>
      && |r.apps| == |apps| + 1
      && r.apps[..|apps|] == apps
      && Data(r.apps[|apps|]) == v
      && r.apps[|apps|].status == Pending
      && r.apps[|apps|].id == freshId
      && r.route == "/applications/" + freshId
  {
    if !Valid(v, isEmail) then Invalid(Validate(v, isEmail))
    else
      var added := Add(apps, v, freshId, now);
      Submitted(added.apps, "/applications/" + added.id)
  }

  /**
   With a fresh id, the page the submission moves to shows the new
   application, still pending, with both review actions offered.
   */
  lemma SubmitThenView(apps: seq<LoanApplication>, v: ApplicationData, isEmail: string -> bool,
                       freshId: string, now: int)
    requires Valid(v, isEmail) && !HasId(apps, freshId)
    ensures var r := Submit(apps, v, isEmail, freshId, now);
      && r.Submitted?
      && Review.View(r.apps, Some(freshId)) ==
         Review.Detail(NewApplication(v, freshId, now), Risk.Assess(NewApplication(v, freshId, now)),
                       [Review.Reject, Review.Approve])
  {
    AddFresh(apps, v, freshId, now, freshId);
  }
}
