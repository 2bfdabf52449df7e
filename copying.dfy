/**
 * `DesignPattern.ShallowCopy`: `GetClone` is `MemberwiseClone`, so the clone
 * shares the original's `Address` object.
 */
module ShallowCopy {
  import opened Wrappers

  class Address {
    var address: Option<string>

    /** `new Address() { address = ... }` */
    constructor(address: Option<string>)
      ensures this.address == address
    {
      this.address := address;
    }
  }

  class Employee {
    var name: Option<string>
    var department: Option<string>
    var empAddress: Address?

    /** `new Employee()`: every property null. */
    constructor()
      ensures name == None && department == None && empAddress == null
    {
      name := None;
      department := None;
      empAddress := null;
    }

    /** A new employee with the same field values: the very same address object, not a copy of it. */
    method GetClone() returns (c: Employee)
      ensures fresh(c)
      ensures c.name == name && c.department == department && c.empAddress == empAddress
    {
      c := new Employee();
      c.name := name;
      c.department := department;
      c.empAddress := empAddress;
    }
  }

  /**
   * `Program.Main`: renaming the clone leaves the original's name alone,
   * but the clone's address is the original's, so both read "Mumbai".
   */
  method Scenario() returns (emp1Name: Option<string>, emp1Address: Option<string>, emp1Department: Option<string>,
                             emp2Name: Option<string>, emp2Address: Option<string>, emp2Department: Option<string>)
    ensures emp1Name == Some("Anurag") && emp2Name == Some("Pranaya")
    ensures emp1Address == Some("Mumbai") && emp2Address == Some("Mumbai")
    ensures emp1Department == Some("IT") && emp2Department == Some("IT")
  {
    var emp1 := new Employee();
    emp1.name := Some("Anurag");
    emp1.department := Some("IT");
    emp1.empAddress := new Address(Some("BBSR"));
    var emp2 := emp1.GetClone();
    emp2.name := Some("Pranaya");
    emp2.empAddress.address := Some("Mumbai");
    emp1Name, emp1Address, emp1Department := emp1.name, emp1.empAddress.address, emp1.department;
    emp2Name, emp2Address, emp2Department := emp2.name, emp2.empAddress.address, emp2.department;
  }
}

/**
 * `DesignPattern.DeepCopy`: `GetClone` also clones the address, so the
 * clone and the original share no object.
 */
module DeepCopy {
  import opened Wrappers

  /** Dereferencing a null `EmpAddress`. */
  datatype CloneError = NullReference

  class Address {
    var address: Option<string>

    constructor(address: Option<string>)
      ensures this.address == address
    {
      this.address := address;
    }

    /** A new address with the same text. */
    method GetClone() returns (c: Address)
      ensures fresh(c) && c.address == address
    {
      c := new Address(address);
    }
  }

  class Employee {
    var name: Option<string>
    var department: Option<string>
    var empAddress: Address?

    constructor()
      ensures name == None && department == None && empAddress == null
    {
      name := None;
      department := None;
      empAddress := null;
    }

    /**
     * A new employee with the same name and department and a new copy of
     * the address; an employee without an address throws at the inner
     * clone.
     */
    method GetClone() returns (r: Result<Employee, CloneError>)
      ensures empAddress == null <==> r.Failure?
      ensures empAddress == null ==> r == Failure(NullReference)
      ensures r.Success? ==>
        fresh(r.value) && fresh(r.value.empAddress) &&
        r.value.name == name && r.value.department == department &&
        r.value.empAddress.address == empAddress.address
    {
      var employee := new Employee();
      employee.name := name;
      employee.department := department;
      employee.empAddress := empAddress;
      if empAddress == null {
        return Failure(NullReference);
      }
      var copy := empAddress.GetClone();
      employee.empAddress := copy;
      r := Success(employee);
    }
  }

  /**
   * `Program.Main`: the clone's new name and address leave the original
   * with "Anurag" and "BBSR".
   */
  method Scenario() returns (emp1Name: Option<string>, emp1Address: Option<string>, emp1Department: Option<string>,
                             emp2Name: Option<string>, emp2Address: Option<string>, emp2Department: Option<string>)
    ensures emp1Name == Some("Anurag") && emp2Name == Some("Pranaya")
    ensures emp1Address == Some("BBSR") && emp2Address == Some("Mumbai")
    ensures emp1Department == Some("IT") && emp2Department == Some("IT")
  {
    var emp1 := new Employee();
    emp1.name := Some("Anurag");
    emp1.department := Some("IT");
    emp1.empAddress := new Address(Some("BBSR"));
    var cloned := emp1.GetClone();
    var emp2 := cloned.value;
    emp2.name := Some("Pranaya");
    emp2.empAddress.address := Some("Mumbai");
    emp1Name, emp1Address, emp1Department := emp1.name, emp1.empAddress.address, emp1.department;
    emp2Name, emp2Address, emp2Department := emp2.name, emp2.empAddress.address, emp2.department;
  }

  /** Cloning an employee whose address was never set throws. */
  method CloneWithoutAddress() returns (r: Result<Employee, CloneError>)
    ensures r == Failure(NullReference)
  {
    var emp := new Employee();
    emp.name := Some("Anurag");
    r := emp.GetClone();
  }
}
