/**
 * What the object adapter and the class adapter of
 * StructuralDesignPattern/AdapterDesignPattern.cs share: the `Employee`
 * record, the string conversions and the way the nested loops of
 * `ProcessCompanySalary` thread their four local variables through the rows.
 */
module AdapterEmployee {
  import opened Wrappers
  import Text

  /** One element of the C# `string[,]` table; `None` is a null string. */
  type Cell = Option<string>

  /** `Employee(int id, string name, string designation, decimal salary)`. */
  datatype Employee = Employee(id: int, name: Cell, designation: Cell, salary: int)

  /**
   * The locals `Id`, `Name`, `Designation` and `Salary`. They are declared
   * before the outer loop, so a row starts with the values the previous row
   * left in them.
   */
  datatype Fields = Fields(id: Cell, name: Cell, designation: Cell, salary: Cell)

  const NoFields := Fields(None, None, None, None)

  /** The exceptions `Convert.ToInt32` and `Convert.ToDecimal` throw. */
  datatype ConvertError = FormatError(text: string) | OverflowError(text: string)

  const Int32Min: int := -0x8000_0000
  const Int32Max: int := 0x7FFF_FFFF
  /** `decimal.MaxValue`, 2^96 - 1. */
  const DecimalMax: int := 0xFFFF_FFFF_FFFF_FFFF_FFFF_FFFF

  /**
   * `Convert.ToInt32(string)`: a null string is 0; other text must be an
   * integer, or it is a format error, that fits in 32 bits, or it is an
   * overflow.
   */
  function ToInt32(c: Cell): (r: Result<int, ConvertError>)
    ensures c.None? ==> r == Success(0)
    ensures c.Some? && r.Success? ==> Text.ParseInteger(c.value) == Some(r.value) && Int32Min <= r.value <= Int32Max
    ensures c.Some? && Text.ParseInteger(c.value).None? ==> r == Failure(FormatError(c.value))
    ensures c.Some? && Text.ParseInteger(c.value).Some? && !(Int32Min <= Text.ParseInteger(c.value).value <= Int32Max) ==>
      r == Failure(OverflowError(c.value))
  {
    match c
    case None => Success(0)
    case Some(s) =>
      match Text.ParseInteger(s)
      case None => Failure(FormatError(s))
      case Some(n) => if Int32Min <= n <= Int32Max then Success(n) else Failure(OverflowError(s))
  }

  /**
   * `Convert.ToDecimal(string)` on whole numbers: a null string is 0; other
   * text must be an integer, or it is a format error, of magnitude at most
   * `decimal.MaxValue`, or it is an overflow.
   */
  function ToDecimal(c: Cell): (r: Result<int, ConvertError>)
    ensures c.None? ==> r == Success(0)
    ensures c.Some? && r.Success? ==> Text.ParseInteger(c.value) == Some(r.value) && -DecimalMax <= r.value <= DecimalMax
    ensures c.Some? && Text.ParseInteger(c.value).None? ==> r == Failure(FormatError(c.value))
    ensures c.Some? && Text.ParseInteger(c.value).Some? && !(-DecimalMax <= Text.ParseInteger(c.value).value <= DecimalMax) ==>
      r == Failure(OverflowError(c.value))
  {
    match c
    case None => Success(0)
    case Some(s) =>
      match Text.ParseInteger(s)
      case None => Failure(FormatError(s))
      case Some(n) => if -DecimalMax <= n <= DecimalMax then Success(n) else Failure(OverflowError(s))
  }

  /** A 32-bit integer printed in decimal converts back to itself; null converts to 0. */
  lemma ToInt32RoundTrip(n: int)
    requires Int32Min <= n <= Int32Max
    ensures ToInt32(Some(Text.IntToString(n))) == Success(n)
    ensures ToInt32(None) == Success(0)
  {
    Text.ParseIntToString(n);
  }

  /** A whole number within the decimal range printed in decimal converts back to itself. */
  lemma ToDecimalRoundTrip(n: int)
    requires -DecimalMax <= n <= DecimalMax
    ensures ToDecimal(Some(Text.IntToString(n))) == Success(n)
    ensures ToDecimal(None) == Success(0)
  {
    Text.ParseIntToString(n);
  }

  /**
   * `new Employee(Convert.ToInt32(Id), Name, Designation, Convert.ToDecimal(Salary))`:
   * the id is converted first, so its error is the one reported.
   */
  function ToEmployee(f: Fields): (r: Result<Employee, ConvertError>)
    ensures r.Success? <==> ToInt32(f.id).Success? && ToDecimal(f.salary).Success?
    ensures r.Success? ==> r.value == Employee(ToInt32(f.id).value, f.name, f.designation, ToDecimal(f.salary).value)
    ensures ToInt32(f.id).Failure? ==> r == Failure(ToInt32(f.id).error)
  {
    var id :- ToInt32(f.id);
    var salary :- ToDecimal(f.salary);
    Success(Employee(id, f.name, f.designation, salary))
  }

  /** The rows of a `string[,]`, each as the sequence of its columns. */
  function Table(a: array2<Cell>): (t: seq<seq<Cell>>)
    reads a
    ensures |t| == a.Length0
    ensures forall i :: 0 <= i < a.Length0 ==> |t[i]| == a.Length1
    ensures forall i, j :: 0 <= i < a.Length0 && 0 <= j < a.Length1 ==> t[i][j] == a[i, j]
  {
    seq(a.Length0, i requires 0 <= i < a.Length0 reads a =>
      seq(a.Length1, j requires 0 <= j < a.Length1 reads a => a[i, j]))
  }

  /** What the inner loop leaves in the locals after the columns of `row`, starting from `f`. */
  function Scan(row: seq<Cell>, f: Fields, step: (Fields, nat, Cell) -> Fields): Fields
  {
    if row == [] then f
    else step(Scan(row[..|row| - 1], f, step), |row| - 1, row[|row| - 1])
  }

  /** `es` followed by the list in `r`, or the failure of `r`. */
  function Prepend(es: seq<Employee>, r: Result<seq<Employee>, ConvertError>): Result<seq<Employee>, ConvertError>
  {
    match r
    case Success(rest) => Success(es + rest)
    case Failure(e) => Failure(e)
  }

  /**
   * The list the outer loop builds from `rows` when the locals start as
   * `f`: each row is scanned from the locals the previous row left, then
   * converted; the first conversion that throws ends the whole call.
   */
  function ConvertRows(rows: seq<seq<Cell>>, f: Fields, step: (Fields, nat, Cell) -> Fields): Result<seq<Employee>, ConvertError>
  {
    if rows == [] then Success([])
    else
      var g := Scan(rows[0], f, step);
      match ToEmployee(g)
      case Failure(e) => Failure(e)
      case Success(emp) => Prepend([emp], ConvertRows(rows[1..], g, step))
  }

  /** Converting every row on its own, as `fieldsOf` reads it, stopping at the first failure. */
  function ConvertEach(rows: seq<seq<Cell>>, fieldsOf: seq<Cell> -> Fields): Result<seq<Employee>, ConvertError>
  {
    if rows == [] then Success([])
    else
      match ToEmployee(fieldsOf(rows[0]))
      case Failure(e) => Failure(e)
      case Success(emp) => Prepend([emp], ConvertEach(rows[1..], fieldsOf))
  }

  /** Row `k` is the first row that does not convert, and its conversion throws `e`. */
  predicate FailsFirstAt(rows: seq<seq<Cell>>, fieldsOf: seq<Cell> -> Fields, k: nat, e: ConvertError)
  {
    k < |rows| && (forall m :: 0 <= m < k ==> ToEmployee(fieldsOf(rows[m])).Success?) &&
    ToEmployee(fieldsOf(rows[k])) == Failure(e)
  }

  /**
   * One employee per row, in row order, exactly when every row converts;
   * otherwise the error of the first row that does not.
   */
  lemma {:induction false} ConvertEachRows(rows: seq<seq<Cell>>, fieldsOf: seq<Cell> -> Fields)
    ensures ConvertEach(rows, fieldsOf).Success? <==>
      forall k :: 0 <= k < |rows| ==> ToEmployee(fieldsOf(rows[k])).Success?
    ensures ConvertEach(rows, fieldsOf).Success? ==>
      |ConvertEach(rows, fieldsOf).value| == |rows| &&
      forall k :: 0 <= k < |rows| ==> Success(ConvertEach(rows, fieldsOf).value[k]) == ToEmployee(fieldsOf(rows[k]))
    ensures ConvertEach(rows, fieldsOf).Failure? ==>
      exists k: nat :: FailsFirstAt(rows, fieldsOf, k, ConvertEach(rows, fieldsOf).error)
  {
    if rows != [] {
      ConvertEachRows(rows[1..], fieldsOf);
      if ToEmployee(fieldsOf(rows[0])).Failure? {
        assert FailsFirstAt(rows, fieldsOf, 0, ConvertEach(rows, fieldsOf).error);
      } else if ConvertEach(rows[1..], fieldsOf).Failure? {
        var e := ConvertEach(rows[1..], fieldsOf).error;
        var k: nat :| FailsFirstAt(rows[1..], fieldsOf, k, e);
        forall m | 0 <= m < k + 1 ensures ToEmployee(fieldsOf(rows[m])).Success? {
          if m > 0 { assert rows[m] == rows[1..][m - 1]; }
        }
        assert rows[k + 1] == rows[1..][k];
        assert FailsFirstAt(rows, fieldsOf, k + 1, e);
      }
      if ToEmployee(fieldsOf(rows[0])).Success? && ConvertEach(rows[1..], fieldsOf).Success? {
        var rest := ConvertEach(rows[1..], fieldsOf).value;
        var es := ConvertEach(rows, fieldsOf).value;
        forall k | 0 <= k < |rows| ensures Success(es[k]) == ToEmployee(fieldsOf(rows[k])) {
          if k > 0 { assert es[k] == rest[k - 1] && rows[k] == rows[1..][k - 1]; }
        }
      } else if ToEmployee(fieldsOf(rows[0])).Success? {
        var k :| 0 <= k < |rows[1..]| && ToEmployee(fieldsOf(rows[1..][k])).Failure?;
        assert rows[1..][k] == rows[k + 1];
      }
    }
  }

  /** Conversely, rows that convert one by one to `es` convert together to `es`. */
  lemma ConvertEachIs(rows: seq<seq<Cell>>, fieldsOf: seq<Cell> -> Fields, es: seq<Employee>)
    requires |es| == |rows|
    requires forall k :: 0 <= k < |rows| ==> ToEmployee(fieldsOf(rows[k])) == Success(es[k])
    ensures ConvertEach(rows, fieldsOf) == Success(es)
  {
    ConvertEachRows(rows, fieldsOf);
    var got := ConvertEach(rows, fieldsOf).value;
    assert forall k :: 0 <= k < |rows| ==> got[k] == es[k];
    assert got == es;
  }

  /**
   * When every row scans to `fieldsOf` of itself from any locals that
   * satisfy `carried`, and leaves locals that satisfy it again, the values
   * carried over between rows never show.
   */
  lemma {:induction false} RectangularRows(rows: seq<seq<Cell>>, f: Fields, step: (Fields, nat, Cell) -> Fields,
                                           fieldsOf: seq<Cell> -> Fields, carried: Fields -> bool)
    requires carried(f)
    requires forall k, g :: 0 <= k < |rows| && carried(g) ==>
      Scan(rows[k], g, step) == fieldsOf(rows[k]) && carried(fieldsOf(rows[k]))
    ensures ConvertRows(rows, f, step) == ConvertEach(rows, fieldsOf)
  {
    if rows != [] {
      assert Scan(rows[0], f, step) == fieldsOf(rows[0]);
      forall k, g | 0 <= k < |rows[1..]| && carried(g)
        ensures Scan(rows[1..][k], g, step) == fieldsOf(rows[1..][k]) && carried(fieldsOf(rows[1..][k]))
      {
        assert rows[1..][k] == rows[k + 1];
      }
      RectangularRows(rows[1..], fieldsOf(rows[0]), step, fieldsOf, carried);
    }
  }

  /**
   * The inner `for` loop of `ProcessCompanySalary`: one pass over the
   * columns of row `i`, each column running the loop body `step` on the
   * four locals.
   */
  method ScanRow(employeesArray: array2<Cell>, i: nat, before: Fields, step: (Fields, nat, Cell) -> Fields)
    returns (f: Fields)
    requires i < employeesArray.Length0
    ensures f == Scan(Table(employeesArray)[i], before, step)
  {
    ghost var row := Table(employeesArray)[i];
    f := before;
    var j: nat := 0;
    while j < employeesArray.Length1
      invariant j <= employeesArray.Length1
      invariant f == Scan(row[..j], before, step)
    {
      var cell := employeesArray[i, j];
      ScanOneMore(row, j, before, step);
      f := step(f, j, cell);
      j := j + 1;
    }
    assert row[..j] == row;
  }

  /**
   * `ProcessCompanySalary` of either adapter, whose inner loop body is
   * `step`: one employee per row, in row order; the first conversion error
   * ends the call. The result goes to `ThirdPartyBillingSystem.ProcessSalary`.
   */
  method ProcessCompanySalary(employeesArray: array2<Cell>, step: (Fields, nat, Cell) -> Fields)
    returns (r: Result<seq<Employee>, ConvertError>)
    ensures r == ConvertRows(Table(employeesArray), NoFields, step)
  {
    ghost var table := Table(employeesArray);
    var fields := NoFields;
    var listEmployee: seq<Employee> := [];
    var i := 0;
    assert table[i..] == table;
    PrependNothing(ConvertRows(table, NoFields, step));
    while i < employeesArray.Length0
      invariant 0 <= i <= employeesArray.Length0
      invariant ConvertRows(table, NoFields, step) == Prepend(listEmployee, ConvertRows(table[i..], fields, step))
    {
      ghost var before := fields;
      fields := ScanRow(employeesArray, i, fields, step);
      assert table[i..][0] == table[i] && table[i..][1..] == table[i + 1..];
      ConvertRowsUnfold(table[i..], before, step);
      var employee := ToEmployee(fields);
      if employee.Failure? {
        return Failure(employee.error);
      }
      PrependAppend(listEmployee, employee.value, ConvertRows(table[i + 1..], fields, step));
      listEmployee := listEmployee + [employee.value];
      i := i + 1;
    }
    assert table[i..] == [] && listEmployee + [] == listEmployee;
    r := Success(listEmployee);
  }

  /** One pass of the outer loop: scan the first row, convert it, go on with the rest. */
  lemma ConvertRowsUnfold(rows: seq<seq<Cell>>, f: Fields, step: (Fields, nat, Cell) -> Fields)
    requires rows != []
    ensures var e := ToEmployee(Scan(rows[0], f, step));
      ConvertRows(rows, f, step) ==
        if e.Failure? then Failure(e.error) else Prepend([e.value], ConvertRows(rows[1..], Scan(rows[0], f, step), step))
  {
  }

  /** One pass of the inner loop: one more column scanned. */
  lemma ScanOneMore(row: seq<Cell>, j: nat, f: Fields, step: (Fields, nat, Cell) -> Fields)
    requires j < |row|
    ensures Scan(row[..j + 1], f, step) == step(Scan(row[..j], f, step), j, row[j])
  {
    assert row[..j + 1][..j] == row[..j];
  }

  lemma PrependNothing(r: Result<seq<Employee>, ConvertError>)
    ensures Prepend([], r) == r
  {
    if r.Success? {
      assert [] + r.value == r.value;
    }
  }

  /** The prefix step of the loop invariant of `ProcessCompanySalary`. */
  lemma PrependAppend(es: seq<Employee>, emp: Employee, r: Result<seq<Employee>, ConvertError>)
    ensures Prepend(es, Prepend([emp], r)) == Prepend(es + [emp], r)
  {
    if r.Success? {
      assert es + ([emp] + r.value) == (es + [emp]) + r.value;
    }
  }
}

/**
 * `ObjectAdapterDesignPattern.EmployeeAdapter.ProcessCompanySalary`: the
 * shared loops of `AdapterEmployee.ProcessCompanySalary` with `Step` as the
 * body of the inner loop.
 */
module ObjectAdapter {
  import opened Wrappers
  import opened AdapterEmployee

  /** The body of the inner loop: column 0 is the id, 1 the name, 2 the designation, any later one the salary. */
  function Step(f: Fields, j: nat, v: Cell): Fields
  {
    if j == 0 then f.(id := v)
    else if j == 1 then f.(name := v)
    else if j == 2 then f.(designation := v)
    else f.(salary := v)
  }

  /** Where each field of an employee comes from in a row of the table. */
  function RowFields(row: seq<Cell>): Fields
  {
    Fields(if |row| > 0 then row[0] else None,
           if |row| > 1 then row[1] else None,
           if |row| > 2 then row[2] else None,
           if |row| > 3 then row[|row| - 1] else None)
  }

  /** Fields that a table `w` columns wide never writes still hold null. */
  predicate Unwritten(f: Fields, w: nat)
  {
    (w < 1 ==> f.id == None) && (w < 2 ==> f.name == None) &&
    (w < 3 ==> f.designation == None) && (w < 4 ==> f.salary == None)
  }

  /**
   * Scanning a row sets the id, name and designation from columns 0, 1 and 2,
   * and the salary from the LAST column, since every column from 3 on
   * overwrites it; fields beyond the row keep their value.
   */
  lemma {:induction false} ScanFields(row: seq<Cell>, f: Fields)
    ensures Scan(row, f, Step) ==
      Fields(if |row| > 0 then row[0] else f.id,
             if |row| > 1 then row[1] else f.name,
             if |row| > 2 then row[2] else f.designation,
             if |row| > 3 then row[|row| - 1] else f.salary)
  {
    if row != [] {
      var init := row[..|row| - 1];
      ScanFields(init, f);
    }
  }

  /**
   * On a table of `w` columns: one employee per row, in row order, exactly
   * when every row converts; the id is column 0, the name column 1, the
   * designation column 2 and the salary the last column when there are at
   * least four (missing columns leave null). Otherwise the error is that of
   * the first row that does not convert, and the locals carried over
   * between rows never show.
   */
  lemma ConvertedColumns(rows: seq<seq<Cell>>, w: nat)
    requires forall k :: 0 <= k < |rows| ==> |rows[k]| == w
    ensures ConvertRows(rows, NoFields, Step).Success? <==>
      forall k :: 0 <= k < |rows| ==> ToEmployee(RowFields(rows[k])).Success?
    ensures ConvertRows(rows, NoFields, Step).Success? ==>
      var es := ConvertRows(rows, NoFields, Step).value;
      |es| == |rows| &&
      forall k :: 0 <= k < |rows| ==>
        Success(es[k].id) == ToInt32(if w > 0 then rows[k][0] else None) &&
        es[k].name == (if w > 1 then rows[k][1] else None) &&
        es[k].designation == (if w > 2 then rows[k][2] else None) &&
        Success(es[k].salary) == ToDecimal(if w > 3 then rows[k][w - 1] else None)
    ensures ConvertRows(rows, NoFields, Step).Failure? ==>
      exists k: nat :: FailsFirstAt(rows, RowFields, k, ConvertRows(rows, NoFields, Step).error)
    ensures ConvertRows(rows, NoFields, Step) == ConvertEach(rows, RowFields)
  {
    forall k, g | 0 <= k < |rows| && Unwritten(g, w)
      ensures Scan(rows[k], g, Step) == RowFields(rows[k]) && Unwritten(RowFields(rows[k]), w)
    {
      ScanFields(rows[k], g);
    }
    RectangularRows(rows, NoFields, Step, RowFields, g => Unwritten(g, w));
    ConvertEachRows(rows, RowFields);
  }

  function Cells(row: seq<string>): (cs: seq<Cell>)
    ensures |cs| == |row| && forall k :: 0 <= k < |row| ==> cs[k] == Some(row[k])
  {
    if row == [] then [] else [Some(row[0])] + Cells(row[1..])
  }

  /** The table `Main` passes in. */
  const DemoRows: seq<seq<Cell>> := [
    Cells(["101", "John", "SE", "10000"]),
    Cells(["102", "Smith", "SE", "20000"]),
    Cells(["103", "Dev", "SSE", "30000"]),
    Cells(["104", "Pam", "SE", "40000"]),
    Cells(["105", "Sara", "SSE", "50000"])]

  /** The employee a four-column row of text gives, once its id and salary are known to convert. */
  lemma FourColumnRow(id: string, name: string, designation: string, salary: string, idValue: int, salaryValue: int)
    requires ToInt32(Some(id)) == Success(idValue) && ToDecimal(Some(salary)) == Success(salaryValue)
    ensures ToEmployee(RowFields(Cells([id, name, designation, salary]))) ==
      Success(Employee(idValue, Some(name), Some(designation), salaryValue))
  {
  }

  lemma DemoNumbers1() ensures ToInt32(Some("101")) == Success(101) && ToDecimal(Some("10000")) == Success(10000)
  {
    assert Text.PrefixValue("101", 3) == 101 && Text.PrefixValue("10000", 5) == 10000;
  }
  lemma DemoNumbers2() ensures ToInt32(Some("102")) == Success(102) && ToDecimal(Some("20000")) == Success(20000)
  {
    assert Text.PrefixValue("102", 3) == 102 && Text.PrefixValue("20000", 5) == 20000;
  }
  lemma DemoNumbers3() ensures ToInt32(Some("103")) == Success(103) && ToDecimal(Some("30000")) == Success(30000)
  {
    assert Text.PrefixValue("103", 3) == 103 && Text.PrefixValue("30000", 5) == 30000;
  }
  lemma DemoNumbers4() ensures ToInt32(Some("104")) == Success(104) && ToDecimal(Some("40000")) == Success(40000)
  {
    assert Text.PrefixValue("104", 3) == 104 && Text.PrefixValue("40000", 5) == 40000;
  }
  lemma DemoNumbers5() ensures ToInt32(Some("105")) == Success(105) && ToDecimal(Some("50000")) == Success(50000)
  {
    assert Text.PrefixValue("105", 3) == 105 && Text.PrefixValue("50000", 5) == 50000;
  }

  /** The employees `Main`'s table describes. */
  const DemoEmployees: seq<Employee> := [
    Employee(101, Some("John"), Some("SE"), 10000),
    Employee(102, Some("Smith"), Some("SE"), 20000),
    Employee(103, Some("Dev"), Some("SSE"), 30000),
    Employee(104, Some("Pam"), Some("SE"), 40000),
    Employee(105, Some("Sara"), Some("SSE"), 50000)]

  lemma DemoRowsEach()
    ensures forall k :: 0 <= k < |DemoRows| ==> ToEmployee(RowFields(DemoRows[k])) == Success(DemoEmployees[k])
  {
    DemoNumbers1(); FourColumnRow("101", "John", "SE", "10000", 101, 10000);
    DemoNumbers2(); FourColumnRow("102", "Smith", "SE", "20000", 102, 20000);
    DemoNumbers3(); FourColumnRow("103", "Dev", "SSE", "30000", 103, 30000);
    DemoNumbers4(); FourColumnRow("104", "Pam", "SE", "40000", 104, 40000);
    DemoNumbers5(); FourColumnRow("105", "Sara", "SSE", "50000", 105, 50000);
  }

  /** `Main`'s table becomes these five employees, in this order. */
  lemma DemoConversion()
    ensures ConvertRows(DemoRows, NoFields, Step) == Success(DemoEmployees)
  {
    DemoRowsEach();
    ConvertEachIs(DemoRows, RowFields, DemoEmployees);
    ConvertedColumns(DemoRows, 4);
  }
}

/**
 * `ClassAdapterDesignPattern.EmployeeAdapter.ProcessCompanySalary`: the
 * shared loops with this module's `Step`, whose designation branch tests
 * `j == 1` a second time.
 */
module ClassAdapter {
  import opened Wrappers
  import opened AdapterEmployee
  import ObjectAdapter

  /**
   * The body of the inner loop as written: the second `j == 1` test can
   * never hold once the first has failed, so column 2 falls through to the
   * salary.
   */
  function Step(f: Fields, j: nat, v: Cell): Fields
  {
    if j == 0 then f.(id := v)
    else if j == 1 then f.(name := v)
    else if j == 1 then f.(designation := v)
    else f.(salary := v)
  }

  /** Where each field comes from: the designation from nowhere, the salary from the last column once there are three. */
  function RowFields(row: seq<Cell>): Fields
  {
    Fields(if |row| > 0 then row[0] else None,
           if |row| > 1 then row[1] else None,
           None,
           if |row| > 2 then row[|row| - 1] else None)
  }

  predicate Unwritten(f: Fields, w: nat)
  {
    (w < 1 ==> f.id == None) && (w < 2 ==> f.name == None) &&
    f.designation == None && (w < 3 ==> f.salary == None)
  }

  /** Scanning a row never touches the designation; every column from 2 on overwrites the salary. */
  lemma {:induction false} ScanFields(row: seq<Cell>, f: Fields)
    ensures Scan(row, f, Step) ==
      Fields(if |row| > 0 then row[0] else f.id,
             if |row| > 1 then row[1] else f.name,
             f.designation,
             if |row| > 2 then row[|row| - 1] else f.salary)
  {
    if row != [] {
      var init := row[..|row| - 1];
      ScanFields(init, f);
    }
  }

  /**
   * On a table of `w` columns: one employee per row exactly when every row
   * converts, and no employee ever gets a designation; the salary comes
   * from the last column as soon as there are three. Otherwise the error is
   * that of the first row that does not convert.
   */
  lemma DesignationNeverAssigned(rows: seq<seq<Cell>>, w: nat)
    requires forall k :: 0 <= k < |rows| ==> |rows[k]| == w
    ensures ConvertRows(rows, NoFields, Step).Success? <==>
      forall k :: 0 <= k < |rows| ==> ToEmployee(RowFields(rows[k])).Success?
    ensures ConvertRows(rows, NoFields, Step).Success? ==>
      var es := ConvertRows(rows, NoFields, Step).value;
      |es| == |rows| &&
      forall k :: 0 <= k < |rows| ==>
        Success(es[k].id) == ToInt32(if w > 0 then rows[k][0] else None) &&
        es[k].name == (if w > 1 then rows[k][1] else None) &&
        es[k].designation == None &&
        Success(es[k].salary) == ToDecimal(if w > 2 then rows[k][w - 1] else None)
    ensures ConvertRows(rows, NoFields, Step).Failure? ==>
      exists k: nat :: FailsFirstAt(rows, RowFields, k, ConvertRows(rows, NoFields, Step).error)
    ensures ConvertRows(rows, NoFields, Step) == ConvertEach(rows, RowFields)
  {
    forall k, g | 0 <= k < |rows| && Unwritten(g, w)
      ensures Scan(rows[k], g, Step) == RowFields(rows[k]) && Unwritten(RowFields(rows[k]), w)
    {
      ScanFields(rows[k], g);
    }
    RectangularRows(rows, NoFields, Step, RowFields, g => Unwritten(g, w));
    ConvertEachRows(rows, RowFields);
  }

  /** The class adapter's employees for `Main`'s table: every designation is null. */
  const DemoEmployees: seq<Employee> := [
    Employee(101, Some("John"), None, 10000),
    Employee(102, Some("Smith"), None, 20000),
    Employee(103, Some("Dev"), None, 30000),
    Employee(104, Some("Pam"), None, 40000),
    Employee(105, Some("Sara"), None, 50000)]

  lemma FourColumnRow(id: string, name: string, designation: string, salary: string, idValue: int, salaryValue: int)
    requires ToInt32(Some(id)) == Success(idValue) && ToDecimal(Some(salary)) == Success(salaryValue)
    ensures ToEmployee(RowFields(ObjectAdapter.Cells([id, name, designation, salary]))) ==
      Success(Employee(idValue, Some(name), None, salaryValue))
  {
  }

  lemma DemoRowsEach()
    ensures forall k :: 0 <= k < |ObjectAdapter.DemoRows| ==>
      ToEmployee(RowFields(ObjectAdapter.DemoRows[k])) == Success(DemoEmployees[k])
  {
    ObjectAdapter.DemoNumbers1(); FourColumnRow("101", "John", "SE", "10000", 101, 10000);
    ObjectAdapter.DemoNumbers2(); FourColumnRow("102", "Smith", "SE", "20000", 102, 20000);
    ObjectAdapter.DemoNumbers3(); FourColumnRow("103", "Dev", "SSE", "30000", 103, 30000);
    ObjectAdapter.DemoNumbers4(); FourColumnRow("104", "Pam", "SE", "40000", 104, 40000);
    ObjectAdapter.DemoNumbers5(); FourColumnRow("105", "Sara", "SSE", "50000", 105, 50000);
  }

  /**
   * `Main`'s table loses every designation in the class adapter, where the
   * object adapter keeps "SE" and "SSE".
   */
  lemma DemoConversion()
    ensures ConvertRows(ObjectAdapter.DemoRows, NoFields, Step) == Success(DemoEmployees)
    ensures ConvertRows(ObjectAdapter.DemoRows, NoFields, ObjectAdapter.Step) != ConvertRows(ObjectAdapter.DemoRows, NoFields, Step)
  {
    DemoRowsEach();
    ConvertEachIs(ObjectAdapter.DemoRows, RowFields, DemoEmployees);
    DesignationNeverAssigned(ObjectAdapter.DemoRows, 4);
    ObjectAdapter.DemoConversion();
    assert ObjectAdapter.DemoEmployees[0] != DemoEmployees[0];
  }

  /**
   * With three columns the designation column is parsed as the salary:
   * the row {"101", "John", "SE"} makes the class adapter throw, where the
   * object adapter gives salary 0 and designation "SE".
   */
  lemma ThreeColumnRowThrows()
    ensures ConvertRows([ObjectAdapter.Cells(["101", "John", "SE"])], NoFields, Step) == Failure(FormatError("SE"))
    ensures ConvertRows([ObjectAdapter.Cells(["101", "John", "SE"])], NoFields, ObjectAdapter.Step) ==
      Success([Employee(101, Some("John"), Some("SE"), 0)])
  {
    var rows := [ObjectAdapter.Cells(["101", "John", "SE"])];
    ObjectAdapter.DemoNumbers1();
    assert Text.ParseInteger("SE") == None;
    DesignationNeverAssigned(rows, 3);
    ObjectAdapter.ConvertedColumns(rows, 3);
    assert ToEmployee(ObjectAdapter.RowFields(rows[0])) == Success(Employee(101, Some("John"), Some("SE"), 0));
    ConvertEachIs(rows, ObjectAdapter.RowFields, [Employee(101, Some("John"), Some("SE"), 0)]);
  }
}

/**
 * `AdapterDesignPattern.RealTimeExample`: Pam translates between John, who
 * understands only English, and David, who understands only French, by
 * looking words up in two fixed dictionaries.
 */
module Translator {
  import opened Wrappers
  import opened Text

  /** The exceptions the conversation can raise. */
  datatype TranslateError =
    | ArgumentNull          // a dictionary indexed with a null key
    | KeyNotFound(key: string)
    | NullReference         // `Equals` called on a null target language

  /** Pam's two static dictionaries, fixed once her static constructor has run. */
  datatype Dictionaries = Dictionaries(englishFrench: map<string, string>, frenchEnglish: map<string, string>)

  /** The dictionaries as the static constructor loads them, with the French keys mis-encoded. */
  const SourceDictionaries := Dictionaries(
    map["how are you?" := "comment allez-vous?", "I am in USA" := "Je suis aux Etats-Unis"],
    map["Je suis trC(s bien" := "I am fine", "oC9 C*tes-vous?" := "where are you?"])

  /** The dictionaries with the French keys spelt as David and `Main` spell them. */
  const IntendedDictionaries := Dictionaries(
    SourceDictionaries.englishFrench,
    map["Je suis très bien" := "I am fine", "où êtes-vous?" := "where are you?"])

  /** The `Dictionary<string, string>` indexer: a null key and a missing key both throw. */
  function Lookup(m: map<string, string>, key: Option<string>): (r: Result<string, TranslateError>)
    ensures r.Success? <==> key.Some? && key.value in m
    ensures r.Success? ==> r.value == m[key.value]
    ensures key.None? ==> r == Failure(ArgumentNull)
    ensures key.Some? && key.value !in m ==> r == Failure(KeyNotFound(key.value))
  {
    match key
    case None => Failure(ArgumentNull)
    case Some(k) => if k in m then Success(m[k]) else Failure(KeyNotFound(k))
  }

  /** Succeeds exactly on the keys of its dictionary. */
  function ConvertToFrench(d: Dictionaries, words: Option<string>): (r: Result<string, TranslateError>)
    ensures r.Success? <==> words.Some? && words.value in d.englishFrench
  {
    Lookup(d.englishFrench, words)
  }

  /** Succeeds exactly on the keys of its dictionary. */
  function ConvertToEnglish(d: Dictionaries, words: Option<string>): (r: Result<string, TranslateError>)
    ensures r.Success? <==> words.Some? && words.value in d.frenchEnglish
  {
    Lookup(d.frenchEnglish, words)
  }

  /** John answers only "where are you?", in any case; to anything else his reply is null. */
  function JohnAnswer(words: string): (reply: Option<string>)
    ensures reply.Some? <==> EqualsIgnoreCase(words, "where are you?")
    ensures reply.Some? ==> reply.value == "I am in USA"
  {
    if EqualsIgnoreCase(words, "where are you?") then Some("I am in USA") else None
  }

  /** David answers only "comment allez-vous?", in any case. */
  function DavidAnswer(words: string): (reply: Option<string>)
    ensures reply.Some? <==> EqualsIgnoreCase(words, "comment allez-vous?")
    ensures reply.Some? ==> reply.value == "Je suis très bien"
  {
    if EqualsIgnoreCase(words, "comment allez-vous?") then Some("Je suis très bien") else None
  }

  /**
   * `Pam.TranslateAndTellToOtherPerson`: to English means David is asking,
   * so the words go to John and his reply comes back in French; to French
   * is the mirror image. Any other language is refused without a lookup.
   */
  function Translate(d: Dictionaries, words: Option<string>, language: Option<string>): (r: Result<string, TranslateError>)
    ensures language.None? ==> r == Failure(NullReference)
  {
    match language
    case None => Failure(NullReference)
    case Some(l) =>
      if EqualsIgnoreCase(l, "English") then
        var english :- ConvertToEnglish(d, words);
        ConvertToFrench(d, JohnAnswer(english))
      else if EqualsIgnoreCase(l, "French") then
        var french :- ConvertToFrench(d, words);
        ConvertToEnglish(d, DavidAnswer(french))
      else
        Success("Sorry Cannot Covert")
  }

  /**
   * `John.AskQuestion`: Pam translates his words to French. A reply means
   * his words were an English key, and what he hears is an English phrase
   * of the French-English dictionary.
   */
  function JohnAsks(d: Dictionaries, words: Option<string>): (r: Result<string, TranslateError>)
    ensures r.Success? ==> words.Some? && words.value in d.englishFrench && r.value in d.frenchEnglish.Values
  {
    Translate(d, words, Some("French"))
  }

  /** `David.AskQuestion`: Pam translates his words to English; the mirror image. */
  function DavidAsks(d: Dictionaries, words: Option<string>): (r: Result<string, TranslateError>)
    ensures r.Success? ==> words.Some? && words.value in d.frenchEnglish && r.value in d.englishFrench.Values
  {
    Translate(d, words, Some("English"))
  }

  /** A language other than English or French gets the refusal whatever the words and the dictionaries. */
  lemma OtherLanguageRefused(d: Dictionaries, words: Option<string>, l: string)
    requires !EqualsIgnoreCase(l, "English") && !EqualsIgnoreCase(l, "French")
    ensures Translate(d, words, Some(l)) == Success("Sorry Cannot Covert")
  {
  }

  /** The language is compared ignoring case. */
  lemma LanguageIgnoresCase(d: Dictionaries, words: Option<string>, l1: string, l2: string)
    requires EqualsIgnoreCase(l1, l2)
    ensures Translate(d, words, Some(l1)) == Translate(d, words, Some(l2))
  {
    EqualsIgnoreCaseIsLoweredEquality(l1, l2);
    EqualsIgnoreCaseIsLoweredEquality(l1, "English");
    EqualsIgnoreCaseIsLoweredEquality(l2, "English");
    EqualsIgnoreCaseIsLoweredEquality(l1, "French");
    EqualsIgnoreCaseIsLoweredEquality(l2, "French");
  }

  /**
   * The French branch is John's question, David's answer and its
   * translation back, each step failing on a word that is not a key.
   */
  lemma FrenchChain(d: Dictionaries, words: Option<string>)
    ensures Translate(d, words, Some("French")).Success? <==>
      words.Some? && words.value in d.englishFrench &&
      EqualsIgnoreCase(d.englishFrench[words.value], "comment allez-vous?") &&
      "Je suis très bien" in d.frenchEnglish
    ensures Translate(d, words, Some("French")).Success? ==>
      Translate(d, words, Some("French")).value == d.frenchEnglish["Je suis très bien"]
  {
    assert !EqualsIgnoreCase("French", "English");
  }

  /** The English branch, the mirror image through John. */
  lemma EnglishChain(d: Dictionaries, words: Option<string>)
    ensures Translate(d, words, Some("English")).Success? <==>
      words.Some? && words.value in d.frenchEnglish &&
      EqualsIgnoreCase(d.frenchEnglish[words.value], "where are you?") &&
      "I am in USA" in d.englishFrench
    ensures Translate(d, words, Some("English")).Success? ==>
      Translate(d, words, Some("English")).value == d.englishFrench["I am in USA"]
  {
  }

  /** With the dictionaries as loaded, nothing John can ask gets a reply. */
  lemma SourceFrenchAlwaysFails(words: Option<string>)
    ensures Translate(SourceDictionaries, words, Some("French")).Failure?
  {
    FrenchChain(SourceDictionaries, words);
    assert "Je suis très bien" !in SourceDictionaries.frenchEnglish by {
      assert "Je suis très bien" != "Je suis trC(s bien";
    }
  }

  /** With the dictionaries as loaded, David gets a reply only by asking in the mis-encoded spelling. */
  lemma SourceEnglishOnlyMisencoded(words: Option<string>)
    ensures Translate(SourceDictionaries, words, Some("English")).Success? <==> words == Some("oC9 C*tes-vous?")
  {
    EnglishChain(SourceDictionaries, words);
    assert !EqualsIgnoreCase("I am fine", "where are you?");
  }

  /** `Main`'s two questions both fail in the lookup of a correctly spelt French phrase. */
  lemma DemoQuestionsFail()
    ensures JohnAsks(SourceDictionaries, Some("how are you?")) == Failure(KeyNotFound("Je suis très bien"))
    ensures DavidAsks(SourceDictionaries, Some("où êtes-vous?")) == Failure(KeyNotFound("où êtes-vous?"))
  {
    assert "Je suis très bien" != "Je suis trC(s bien";
    assert "où êtes-vous?" != "oC9 C*tes-vous?";
    assert "où êtes-vous?" != "Je suis trC(s bien";
  }

  /** With the intended spelling John's question is answered "I am fine". */
  lemma IntendedFrench(words: Option<string>)
    ensures Translate(IntendedDictionaries, words, Some("French")).Success? <==> words == Some("how are you?")
    ensures JohnAsks(IntendedDictionaries, Some("how are you?")) == Success("I am fine")
  {
    FrenchChain(IntendedDictionaries, words);
    assert !EqualsIgnoreCase("Je suis aux Etats-Unis", "comment allez-vous?");
  }

  /** With the intended spelling David's question is answered "Je suis aux Etats-Unis". */
  lemma IntendedEnglish(words: Option<string>)
    ensures Translate(IntendedDictionaries, words, Some("English")).Success? <==> words == Some("où êtes-vous?")
    ensures DavidAsks(IntendedDictionaries, Some("où êtes-vous?")) == Success("Je suis aux Etats-Unis")
  {
    EnglishChain(IntendedDictionaries, words);
    assert !EqualsIgnoreCase("I am fine", "where are you?");
  }
}
