/**
 * `DesignPattern.CreationalDesignPattern.PrototypeDesignPattern`: new
 * employees are made by cloning an existing one with `MemberwiseClone`.
 */
module Prototype {
  import opened Wrappers

  class Employee {
    var name: Option<string>
    var department: Option<string>

    constructor()
      ensures name == None && department == None
    {
      name := None;
      department := None;
    }

    /** A new object holding the same name and department. */
    method GetClone() returns (c: Employee)
      ensures fresh(c)
      ensures c.name == name && c.department == department
    {
      c := new Employee();
      c.name := name;
      c.department := department;
    }
  }

  /**
   * `Program.Main`: renaming the clone to "Pranaya" leaves the prototype
   * "Anurag", and both stay in "IT".
   */
  method Scenario() returns (emp1Name: Option<string>, emp1Department: Option<string>,
                             emp2Name: Option<string>, emp2Department: Option<string>)
    ensures emp1Name == Some("Anurag") && emp2Name == Some("Pranaya")
    ensures emp1Department == Some("IT") && emp2Department == Some("IT")
  {
    var emp1 := new Employee();
    emp1.name := Some("Anurag");
    emp1.department := Some("IT");
    var emp2 := emp1.GetClone();
    emp2.name := Some("Pranaya");
    emp1Name, emp1Department := emp1.name, emp1.department;
    emp2Name, emp2Department := emp2.name, emp2.department;
  }
}
