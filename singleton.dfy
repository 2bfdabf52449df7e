/**
 * `DesignPattern.WhySingletonClassSealed`: a lazily created singleton whose
 * private constructor counts how often it runs. The static fields live in
 * a `Statics` object; a program starts with a fresh one.
 */

/**
 * `WithoutSealed.WithChildClass`: a nested class derived from the
 * singleton can call the private constructor, so instances beyond the
 * cached one can be made.
 */
module SingletonWithChildClass {
  /** The static fields `counter` and `instance`. */
  class Statics {
    var counter: int
    var instance: Singleton?

    constructor()
      ensures counter == 0 && instance == null
    {
      counter := 0;
      instance := null;
    }

    /**
     * The `GetInstance` getter: the first call constructs the instance and
     * counts it; later calls return the same object and count nothing.
     */
    method GetInstance() returns (r: Singleton)
      modifies this
      ensures instance == r
      ensures old(instance) == null ==> fresh(r) && counter == old(counter) + 1 && !r.derived
      ensures old(instance) != null ==> r == old(instance) && counter == old(counter)
    {
      if instance == null {
        instance := new Singleton(this);
      }
      r := instance;
    }
  }

  class Singleton {
    /** Whether this object is a `DerivedSingleton`. */
    const derived: bool

    /** The private constructor: counts one more instance. */
    constructor(statics: Statics)
      modifies statics
      ensures !derived
      ensures statics.counter == old(statics.counter) + 1 && statics.instance == old(statics.instance)
    {
      derived := false;
      statics.counter := statics.counter + 1;
    }

    /** `new Singleton.DerivedSingleton()`: runs the private constructor once more, leaving the cached instance alone. */
    constructor Derived(statics: Statics)
      modifies statics
      ensures derived
      ensures statics.counter == old(statics.counter) + 1 && statics.instance == old(statics.instance)
    {
      derived := true;
      statics.counter := statics.counter + 1;
    }
  }

  /**
   * `Program.Main`: two `GetInstance` calls share one object, and the
   * derived construction makes a second, distinct one, so the counter
   * reaches 2.
   */
  method TeacherStudentDerived() returns (fromTeacher: Singleton, fromStudent: Singleton, derivedObj: Singleton, counter: int)
    ensures fromTeacher == fromStudent
    ensures derivedObj != fromTeacher && derivedObj.derived && !fromTeacher.derived
    ensures counter == 2
  {
    var statics := new Statics();
    fromTeacher := statics.GetInstance();
    fromStudent := statics.GetInstance();
    derivedObj := new Singleton.Derived(statics);
    counter := statics.counter;
  }
}

/**
 * `WithSealed.WithChildClass`: the sealed singleton, whose only call of
 * the private constructor is in `GetInstance`. The `WithoutSealed`
 * namespace has the same class without `sealed`, and its derived class
 * does not compile either.
 */
module SealedSingleton {
  class Statics {
    var counter: int
    var instance: Singleton?

    /** The constructor has run exactly once if there is an instance, and never otherwise. */
    ghost predicate Valid()
      reads this
    {
      counter == (if instance == null then 0 else 1)
    }

    constructor()
      ensures Valid() && instance == null
    {
      counter := 0;
      instance := null;
    }

    /** Keeps `Valid`, so `counter <= 1` at every point of any run. */
    method GetInstance() returns (r: Singleton)
      requires Valid()
      modifies this
      ensures Valid() && counter <= 1
      ensures instance == r
      ensures old(instance) == null ==> fresh(r)
      ensures old(instance) != null ==> r == old(instance) && counter == old(counter)
    {
      if instance == null {
        instance := new Singleton(this);
      }
      r := instance;
    }
  }

  class Singleton {
    constructor(statics: Statics)
      modifies statics
      ensures statics.counter == old(statics.counter) + 1 && statics.instance == old(statics.instance)
    {
      statics.counter := statics.counter + 1;
    }
  }

  /** Two requests for the sealed singleton give one object, constructed once. */
  method TwoRequests() returns (fromTeacher: Singleton, fromStudent: Singleton, counter: int)
    ensures fromTeacher == fromStudent
    ensures counter == 1
  {
    var statics := new Statics();
    fromTeacher := statics.GetInstance();
    fromStudent := statics.GetInstance();
    counter := statics.counter;
  }
}
