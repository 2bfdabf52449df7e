/**
 * `DesignPattern.DependencyInjectionDesignPattern`: four ways for a
 * business-logic class to get hold of its data-access object.
 */
module DependencyInjection {
  import opened Wrappers

  datatype Employee = Employee(id: int, name: Option<string>, department: Option<string>)

  /** The exceptions these classes can raise. */
  datatype DiError =
    | NullReference
    | NotInitialized   // "Employee is not initialized"
    | StackOverflow    // the property getter calling itself

  /** The three employees `EmployeeDAL` hard-codes, in order. */
  const HardCodedEmployees := [
    Employee(1, Some("Pranaya"), Some("IT")),
    Employee(2, Some("Kumar"), Some("HR")),
    Employee(3, Some("Rout"), Some("Payroll"))]

  /** `EmployeeDAL`, the one implementation of `IEmployeeDAL`; it has no fields. */
  class EmployeeDal {
    constructor()
    {
    }

    /** Builds a new list by three appends, one per hard-coded employee. */
    method SelectAllEmployees() returns (listEmployees: seq<Employee>)
      ensures listEmployees == HardCodedEmployees
    {
      listEmployees := [];
      listEmployees := listEmployees + [Employee(1, Some("Pranaya"), Some("IT"))];
      listEmployees := listEmployees + [Employee(2, Some("Kumar"), Some("HR"))];
      listEmployees := listEmployees + [Employee(3, Some("Rout"), Some("Payroll"))];
    }
  }

  class EmployeeBLWithoutDI {
    var employeeDAL: EmployeeDal?

    constructor()
      ensures employeeDAL == null
    {
      employeeDAL := null;
    }

    /** Replaces the field with a new `EmployeeDAL` on every call and returns its employees. */
    method GetAllEmployees() returns (r: seq<Employee>)
      modifies this
      ensures fresh(employeeDAL)
      ensures r == HardCodedEmployees
    {
      employeeDAL := new EmployeeDal();
      r := employeeDAL.SelectAllEmployees();
    }
  }

  class EmployeeBLWithConstructorDI {
    var employeeDAL: EmployeeDal?

    constructor(employeeDAL: EmployeeDal?)
      ensures this.employeeDAL == employeeDAL
    {
      this.employeeDAL := employeeDAL;
    }

    /** What the object given to the constructor (or later put in the public field) selects. */
    method GetAllEmployees() returns (r: Result<seq<Employee>, DiError>)
      ensures employeeDAL == null ==> r == Failure(NullReference)
      ensures employeeDAL != null ==> r == Success(HardCodedEmployees)
    {
      if employeeDAL == null {
        return Failure(NullReference);
      }
      var employees := employeeDAL.SelectAllEmployees();
      r := Success(employees);
    }
  }

  class EmployeeBLWithPropertyDI {
    var employeeDAL: EmployeeDal?

    constructor()
      ensures employeeDAL == null
    {
      employeeDAL := null;
    }

    /** The property's setter: stores the value in the private field. */
    method SetEmployeeDataObject(value: EmployeeDal?)
      modifies this
      ensures employeeDAL == value
    {
      employeeDAL := value;
    }

    /**
     * The property's getter with `stack` frames of room left: its null
     * check reads the property itself, so it calls itself before testing
     * anything.
     */
    function EmployeeDataObject(stack: nat): Result<EmployeeDal?, DiError>
      reads this
    {
      if stack == 0 then Failure(StackOverflow)
      else
        var inner := EmployeeDataObject(stack - 1);
        if inner.Failure? then inner
        else if inner.value == null then Failure(NotInitialized)
        else Success(employeeDAL)
    }

    /** Reads the private field, not the property, so it needs the setter to have run. */
    method GetAllEmployees() returns (r: Result<seq<Employee>, DiError>)
      ensures employeeDAL == null ==> r == Failure(NullReference)
      ensures employeeDAL != null ==> r == Success(HardCodedEmployees)
    {
      if employeeDAL == null {
        return Failure(NullReference);
      }
      var employees := employeeDAL.SelectAllEmployees();
      r := Success(employees);
    }
  }

  /**
   * The getter overflows the stack however much room it has and whatever
   * the field holds: the "not initialized" check never runs.
   */
  lemma {:induction false} GetterNeverReturns(bl: EmployeeBLWithPropertyDI, stack: nat)
    ensures bl.EmployeeDataObject(stack) == Failure(StackOverflow)
  {
    if stack > 0 {
      GetterNeverReturns(bl, stack - 1);
    }
  }

  class EmployeeBLWithMethodDI {
    var employeeDAL: EmployeeDal?

    constructor()
      ensures employeeDAL == null
    {
      employeeDAL := null;
    }

    /** Stores the argument in the public field, then returns what it selects. */
    method GetAllEmployees(dal: EmployeeDal?) returns (r: Result<seq<Employee>, DiError>)
      modifies this
      ensures employeeDAL == dal
      ensures dal == null ==> r == Failure(NullReference)
      ensures dal != null ==> r == Success(HardCodedEmployees)
    {
      employeeDAL := dal;
      if employeeDAL == null {
        return Failure(NullReference);
      }
      var employees := employeeDAL.SelectAllEmployees();
      r := Success(employees);
    }
  }

  /** `Program.Main`: the method-injected call returns the three hard-coded employees in order. */
  method Scenario() returns (listEmployee: Result<seq<Employee>, DiError>)
    ensures listEmployee == Success(HardCodedEmployees)
  {
    var dal := new EmployeeDal();
    var withConstructor := new EmployeeBLWithConstructorDI(dal);
    var withProperty := new EmployeeBLWithPropertyDI();
    var propertyDal := new EmployeeDal();
    withProperty.SetEmployeeDataObject(propertyDal);
    var withMethod := new EmployeeBLWithMethodDI();
    var methodDal := new EmployeeDal();
    listEmployee := withMethod.GetAllEmployees(methodDal);
  }
}
