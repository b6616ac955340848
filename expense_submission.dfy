/** The expense submission form: the running total, the enabling rule of
    the submit button, the account-number rule and the course auto-fill. */
module ExpenseSubmission {
  import opened Wrappers
  import opened Strings
  import opened Lookup

  /** A watched amount: absent (`undefined`), `NaN` (an emptied number
      field read with `valueAsNumber`) or a number. Amounts are whole won. */
  datatype Amount = Missing | NotANumber | Num(value: int)

  /** `amount || 0`: undefined, NaN and 0 all count as 0. */
  function OrZero(a: Amount): (v: int)
    ensures a.Num? ==> v == a.value
    ensures !a.Num? ==> v == 0
  {
    match a
    case Num(x) => if x != 0 then x else 0
    case _ => 0
  }

  /** `amount > 0`: comparisons with undefined and NaN are false. */
  predicate IsPositive(a: Amount) {
    a.Num? && a.value > 0
  }

  /** The parts of `ExpenseForm` the form reads; `fuelReceipts` is the number
      of attached fuel receipts. */
  datatype ExpenseValues = ExpenseValues(
    courseId: string,
    courseTitle: string,
    accommodation: Amount,
    fuel: Amount,
    fuelReceipts: nat,
    lectureFee: Amount,
    accountHolder: string,
    bankName: string,
    accountNumber: string)

  /** `totalAmount`: the three amounts, each through `|| 0`. */
  function TotalAmount(v: ExpenseValues): int {
    OrZero(v.accommodation) + OrZero(v.fuel) + OrZero(v.lectureFee)
  }

  /** The total sums exactly the amounts that are numbers. */
  lemma {:induction false} TotalCountsNumbersOnly(v: ExpenseValues)
    ensures TotalAmount(v) == (if v.accommodation.Num? then v.accommodation.value else 0)
      + (if v.fuel.Num? then v.fuel.value else 0)
      + (if v.lectureFee.Num? then v.lectureFee.value else 0)
    ensures TotalAmount(v) == TotalAmount(v.(accommodation := Num(0))) + OrZero(v.accommodation)
  {
  }

  /** `isFormValid`, which enables the submit button. */
  predicate IsFormValid(v: ExpenseValues) {
    && OrZero(v.accommodation) >= 0
    && IsPositive(v.fuel)
    && v.fuelReceipts > 0
    && IsPositive(v.lectureFee)
    && v.accountHolder != ""
    && v.bankName != ""
    && v.accountNumber != ""
  }

  /** A form that can be submitted has a total above the fuel and lecture
      amounts together, and an accommodation that is blank or non-negative. */
  lemma {:induction false} ValidFormTotal(v: ExpenseValues)
    requires IsFormValid(v)
    ensures TotalAmount(v) >= v.fuel.value + v.lectureFee.value >= 2
    ensures !v.accommodation.Num? || v.accommodation.value >= 0
  {
  }

  /** A blank accommodation amount does not keep the form from being valid,
      and a blank fuel or lecture amount always does. */
  lemma {:induction false} BlankAmounts(v: ExpenseValues)
    ensures IsFormValid(v.(accommodation := NotANumber)) == IsFormValid(v.(accommodation := Num(0)))
    ensures !IsFormValid(v.(fuel := NotANumber)) && !IsFormValid(v.(lectureFee := Missing))
  {
  }

  predicate IsAccountChar(c: char) {
    IsDigit(c) || c == '-'
  }

  /** `/^[0-9-]+$/`, read as a regular expression: one character of the class,
      then the rest. */
  predicate MatchesAccountPattern(s: string)
    decreases |s|
  {
    |s| >= 1 && IsAccountChar(s[0]) && (|s| == 1 || MatchesAccountPattern(s[1..]))
  }

  /** The account-number field's rules: `required`, then `pattern`. */
  function AccountNumberError(value: string): (e: Option<string>)
    ensures e.None? <==> value != "" && forall i :: 0 <= i < |value| ==> IsAccountChar(value[i])
  {
    if value == "" then Some("계좌번호를 입력해주세요.")
    else if exists i :: 0 <= i < |value| && !IsAccountChar(value[i]) then Some("계좌번호는 숫자와 하이픈(-)만 입력 가능합니다.")
    else None
  }

  /** Together the two rules accept exactly what the pattern matches. */
  lemma {:induction false} AccountRulesArePattern(value: string)
    ensures AccountNumberError(value).None? <==> MatchesAccountPattern(value)
    decreases |value|
  {
    if |value| > 1 {
      AccountRulesArePattern(value[1..]);
      assert forall i :: 1 <= i < |value| ==> value[i] == value[1..][i - 1];
    }
  }

  /** A course of the course list. */
  datatype Course = Course(id: string, title: string)

  function FindCourse(courses: seq<Course>, id: string): (r: Option<Course>)
    ensures r.Some? ==> r.value in courses && r.value.id == id
    ensures r.None? <==> forall k :: 0 <= k < |courses| ==> courses[k].id != id
  {
    Find(courses, (c: Course) => c.id == id)
  }

  /** The values after the course select changes to `id`. */
  function ChooseCourse(courses: seq<Course>, v: ExpenseValues, id: string): (r: ExpenseValues)
    ensures r.courseId == id
    ensures FindCourse(courses, id).Some? ==> r == v.(courseId := id, courseTitle := FindCourse(courses, id).value.title)
    ensures FindCourse(courses, id).None? ==> r == v.(courseId := id)
  {
    match FindCourse(courses, id)
    case Some(c) => v.(courseId := id, courseTitle := c.title)
    case None => v.(courseId := id)
  }

  /** The placeholder option, and any id not in the list, keep the last
      chosen title. */
  lemma {:induction false} UnknownCourseKeepsTitle(courses: seq<Course>, v: ExpenseValues, id: string)
    requires forall k :: 0 <= k < |courses| ==> courses[k].id != id
    ensures ChooseCourse(courses, v, id).courseTitle == v.courseTitle
  {
  }

  class SubmissionForm {
    var values: ExpenseValues

    constructor(initial: ExpenseValues)
      ensures values == initial
    {
      values := initial;
    }

    /** The course select's `onChange`. */
    method OnCourseChange(courses: seq<Course>, id: string)
      modifies this
      ensures values == ChooseCourse(courses, old(values), id)
    {
      values := values.(courseId := id);
      var course := FindCourse(courses, id);
      if course.Some? {
        values := values.(courseTitle := course.value.title);
      }
    }
  }
}
