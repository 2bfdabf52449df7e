/**
 * `DesignPattern.CreationalDesignPattern.FluentInterfaceDesignPattern`:
 * each method of `FluentEmployee` sets one property of the employee it
 * wraps and returns itself, so calls chain.
 */
module FluentInterface {
  import opened Wrappers
  import opened Text

  /** A calendar date; `DateTime`'s time of day is always midnight here. */
  datatype Date = Date(year: int, month: int, day: int)

  /** `DateTime.MinValue`, the default of a `DateTime` property. */
  const MinValue := Date(1, 1, 1)

  datatype DateError = FormatError(text: string)

  predicate IsLeapYear(y: int)
  {
    y % 4 == 0 && (y % 100 != 0 || y % 400 == 0)
  }

  function DaysInMonth(y: int, m: int): int
    requires 1 <= m <= 12
  {
    if m == 2 then (if IsLeapYear(y) then 29 else 28)
    else if m == 4 || m == 6 || m == 9 || m == 11 then 30
    else 31
  }

  /** A date `DateTime` can hold. */
  predicate ValidDate(d: Date)
  {
    1 <= d.year <= 9999 && 1 <= d.month <= 12 && 1 <= d.day <= DaysInMonth(d.year, d.month)
  }

  /**
   * `Convert.ToDateTime(string)` restricted to the month-first form
   * "MM/dd/yyyy": a null string gives `DateTime.MinValue`, anything else
   * that is not a valid date in that form throws a format error.
   */
  function ParseDate(text: Option<string>): (r: Result<Date, DateError>)
    ensures r.Success? ==> ValidDate(r.value)
    ensures text.None? ==> r == Success(MinValue)
    ensures text.Some? && |text.value| != 10 ==> r == Failure(FormatError(text.value))
  {
    match text
    case None => Success(MinValue)
    case Some(s) =>
      if |s| == 10 && s[2] == '/' && s[5] == '/' && AllDigits(s[..2]) && AllDigits(s[3..5]) && AllDigits(s[6..]) then
        var d := Date(DigitsValue(s[6..]), DigitsValue(s[..2]), DigitsValue(s[3..5]));
        if ValidDate(d) then Success(d) else Failure(FormatError(s))
      else Failure(FormatError(s))
  }

  /** `n` in `width` decimal digits, with leading zeros. */
  function Padded(n: nat, width: nat): (s: string)
    ensures |s| == width && AllDigits(s)
  {
    if width == 0 then [] else Padded(n / 10, width - 1) + [DigitChar(n % 10)]
  }

  lemma {:induction false} PaddedValue(n: nat, width: nat)
    requires n < Power10(width)
    ensures DigitsValue(Padded(n, width)) == n
  {
    if width > 0 {
      var init := Padded(n / 10, width - 1);
      var s := Padded(n, width);
      assert s == init + [DigitChar(n % 10)];
      PaddedValue(n / 10, width - 1);
      PrefixValueExtend(init, [DigitChar(n % 10)], |init|);
      assert PrefixValue(s, |init| + 1) == 10 * PrefixValue(s, |init|) + DigitValue(s[|init|]);
    }
  }

  function Power10(k: nat): nat
  {
    if k == 0 then 1 else 10 * Power10(k - 1)
  }

  /** A date written "MM/dd/yyyy". */
  function FormatDate(d: Date): string
    requires ValidDate(d)
  {
    Padded(d.month, 2) + "/" + Padded(d.day, 2) + "/" + Padded(d.year, 4)
  }

  /** Every date `DateTime` can hold is read back from its "MM/dd/yyyy" form. */
  lemma ParseFormatDate(d: Date)
    requires ValidDate(d)
    ensures ParseDate(Some(FormatDate(d))) == Success(d)
  {
    var s := FormatDate(d);
    var mm, dd, yyyy := Padded(d.month, 2), Padded(d.day, 2), Padded(d.year, 4);
    assert s[..2] == mm && s[3..5] == dd && s[6..] == yyyy;
    assert Power10(2) == 100 && Power10(4) == 10000;
    PaddedValue(d.month, 2);
    PaddedValue(d.day, 2);
    PaddedValue(d.year, 4);
  }

  /** The employee's four properties at one moment. */
  datatype EmployeeFields = EmployeeFields(fullName: Option<string>, dateOfBirth: Date,
                                           department: Option<string>, address: Option<string>)

  class Employee {
    var fullName: Option<string>
    var dateOfBirth: Date
    var department: Option<string>
    var address: Option<string>

    constructor()
      ensures Snapshot() == EmployeeFields(None, MinValue, None, None)
    {
      fullName, dateOfBirth, department, address := None, MinValue, None, None;
    }

    function Snapshot(): EmployeeFields
      reads this
    {
      EmployeeFields(fullName, dateOfBirth, department, address)
    }
  }

  class FluentEmployee {
    /** The one employee every call writes to. */
    const employee: Employee

    constructor()
      ensures fresh(employee)
      ensures employee.Snapshot() == EmployeeFields(None, MinValue, None, None)
    {
      employee := new Employee();
    }

    /** Sets only `FullName`, and returns this object. */
    method NameOfTheEmployee(fullName: Option<string>) returns (r: FluentEmployee)
      modifies employee
      ensures r == this
      ensures employee.Snapshot() == old(employee.Snapshot()).(fullName := fullName)
    {
      employee.fullName := fullName;
      r := this;
    }

    /** Sets only `DateOfBirth` to the parsed date; text that does not parse throws and changes nothing. */
    method Born(dateOfBirth: Option<string>) returns (r: Result<FluentEmployee, DateError>)
      modifies employee
      ensures ParseDate(dateOfBirth).Success? ==>
        r == Success(this) && employee.Snapshot() == old(employee.Snapshot()).(dateOfBirth := ParseDate(dateOfBirth).value)
      ensures ParseDate(dateOfBirth).Failure? ==>
        r == Failure(ParseDate(dateOfBirth).error) && employee.Snapshot() == old(employee.Snapshot())
    {
      var parsed := ParseDate(dateOfBirth);
      if parsed.Failure? {
        return Failure(parsed.error);
      }
      employee.dateOfBirth := parsed.value;
      r := Success(this);
    }

    /** Sets only `Department`, and returns this object. */
    method WorkingOn(department: Option<string>) returns (r: FluentEmployee)
      modifies employee
      ensures r == this
      ensures employee.Snapshot() == old(employee.Snapshot()).(department := department)
    {
      employee.department := department;
      r := this;
    }

    /** Sets only `Address`, and returns this object. */
    method StaysAt(address: Option<string>) returns (r: FluentEmployee)
      modifies employee
      ensures r == this
      ensures employee.Snapshot() == old(employee.Snapshot()).(address := address)
    {
      employee.address := address;
      r := this;
    }
  }

  /** The date in `Main`'s chain. */
  lemma DemoDate()
    ensures ParseDate(Some("05/28/1994")) == Success(Date(1994, 5, 28))
  {
    var s := "05/28/1994";
    assert s[..2] == "05" && s[3..5] == "28" && s[6..] == "1994";
    assert PrefixValue("05", 2) == 5;
    assert PrefixValue("28", 2) == 28;
    assert PrefixValue("1994", 4) == 1994;
  }

  /** `Program.Main`: the chain fills all four properties of the one employee. */
  method Scenario() returns (fields: EmployeeFields)
    ensures fields == EmployeeFields(Some("Navjyot"), Date(1994, 5, 28), Some("IT"), Some("Pune-India"))
  {
    DemoDate();
    var obj := new FluentEmployee();
    var step := obj.NameOfTheEmployee(Some("Navjyot"));
    var born := step.Born(Some("05/28/1994"));
    step := born.value;
    step := step.WorkingOn(Some("IT"));
    step := step.StaysAt(Some("Pune-India"));
    fields := obj.employee.Snapshot();
  }
}
