/**
 * What the repository classes of `DesignPattern.RepositoryDesignPattern`
 * add around Entity Framework. The database context is an object that
 * logs the calls made on it and exposes a fixed sequence of rows for its
 * queries; the generic entity type `T` is `Employee` throughout.
 */
module RepositoryContext {
  import opened Wrappers

  /** The `Employee` entity; every reference-typed column is nullable. */
  datatype Employee = Employee(
    employeeId: int,
    name: Option<string>,
    gender: Option<string>,
    salary: Option<int>,
    dept: Option<string>)

  /** One call made on a context or on one of its entity sets. */
  datatype Call =
    | Added(entity: Employee)
    | RangeAdded(entities: seq<Employee>)
    | Attached(entity: Employee)
    | Removed(target: Option<Employee>)    // `Remove` of whatever `Find` returned, null included
    | MarkedModified(entity: Employee)     // `Entry(entity).State = EntityState.Modified`
    | ChangesSaved
    | Disposed
    | AutoDetectChangesDisabled

  /** One entry of `DbEntityValidationException.EntityValidationErrors`. */
  datatype ValidationError = ValidationError(propertyName: string, errorMessage: string)
  datatype EntityValidationResult = EntityValidationResult(validationErrors: seq<ValidationError>)

  /** What `SaveChanges` does, supplied from outside: it succeeds, or throws a validation exception. */
  datatype SaveOutcome = Saved | ValidationFailed(entityValidationErrors: seq<EntityValidationResult>)

  /** The exceptions the repositories throw. */
  datatype RepositoryError =
    | ArgumentNull(paramName: string)
    | NullReference
    | InvalidCast
    | InvalidOperation     // `Type.MakeGenericType` on a type that is not a generic type definition
    | SaveFailed(message: string)   // `new Exception(_errorMessage, dbEx)`

  /** An `EmployeeDBContext`: the calls made on it, in order, and the rows its queries see. */
  class Context {
    var calls: seq<Call>
    const rows: seq<Employee>

    constructor(rows: seq<Employee>)
      ensures calls == [] && this.rows == rows
    {
      calls := [];
      this.rows := rows;
    }

    method Record(c: Call)
      modifies this
      ensures calls == old(calls) + [c]
    {
      calls := calls + [c];
    }
  }

  /** `DbSet.Find` on the primary key: the first row with that id, or null. */
  function Find(rows: seq<Employee>, id: int): (r: Option<Employee>)
    ensures r.None? <==> forall k :: 0 <= k < |rows| ==> rows[k].employeeId != id
    ensures r.Some? ==> r.value in rows && r.value.employeeId == id
  {
    if rows == [] then None
    else if rows[0].employeeId == id then Some(rows[0])
    else Find(rows[1..], id)
  }

  /** `Where(...).ToList()`: the rows kept, in their order. */
  function Filter(rows: seq<Employee>, keep: Employee -> bool): seq<Employee>
  {
    if rows == [] then []
    else (if keep(rows[0]) then [rows[0]] else []) + Filter(rows[1..], keep)
  }

  /** Every kept row occurs as often as in the input, every other row not at all. */
  lemma {:induction false} FilterCount(rows: seq<Employee>, keep: Employee -> bool)
    ensures forall e :: multiset(Filter(rows, keep))[e] == if keep(e) then multiset(rows)[e] else 0
  {
    if rows != [] {
      assert rows == [rows[0]] + rows[1..];
      FilterCount(rows[1..], keep);
    }
  }

  /** Filtering keeps the order: it distributes over concatenation. */
  lemma {:induction false} FilterAppend(a: seq<Employee>, b: seq<Employee>, keep: Employee -> bool)
    ensures Filter(a + b, keep) == Filter(a, keep) + Filter(b, keep)
  {
    if a == [] {
      assert a + b == b;
    } else {
      var head := if keep(a[0]) then [a[0]] else [];
      assert (a + b)[0] == a[0] && (a + b)[1..] == a[1..] + b;
      assert Filter(a + b, keep) == head + Filter(a[1..] + b, keep);
      FilterAppend(a[1..], b, keep);
      assert Filter(a, keep) == head + Filter(a[1..], keep);
    }
  }

  /** `GetEmployeesByGender`: `emp.Gender == Gender`, where two nulls are equal. */
  function EmployeesByGender(rows: seq<Employee>, gender: Option<string>): seq<Employee>
  {
    Filter(rows, (e: Employee) => e.gender == gender)
  }

  /** `GetEmployeesByDepartment`: `emp.Dept == Dept`. */
  function EmployeesByDepartment(rows: seq<Employee>, dept: Option<string>): seq<Employee>
  {
    Filter(rows, (e: Employee) => e.dept == dept)
  }

  /** Exactly the rows of that gender, each as often as it occurs, and in their order. */
  lemma EmployeesByGenderExactly(a: seq<Employee>, b: seq<Employee>, gender: Option<string>)
    ensures forall e :: (multiset(EmployeesByGender(a, gender))[e] ==
      if e.gender == gender then multiset(a)[e] else 0)
    ensures EmployeesByGender(a + b, gender) == EmployeesByGender(a, gender) + EmployeesByGender(b, gender)
    ensures (forall k :: 0 <= k < |a| ==> a[k].gender != gender) ==> EmployeesByGender(a, gender) == []
  {
    FilterAppend(a, b, (e: Employee) => e.gender == gender);
    FilterCount(a, (e: Employee) => e.gender == gender);
    var r := EmployeesByGender(a, gender);
    if r != [] {
      assert multiset(r)[r[0]] > 0;
    }
  }

  /** Exactly the rows of that department, each as often as it occurs, and in their order. */
  lemma EmployeesByDepartmentExactly(a: seq<Employee>, b: seq<Employee>, dept: Option<string>)
    ensures forall e :: (multiset(EmployeesByDepartment(a, dept))[e] ==
      if e.dept == dept then multiset(a)[e] else 0)
    ensures EmployeesByDepartment(a + b, dept) == EmployeesByDepartment(a, dept) + EmployeesByDepartment(b, dept)
    ensures (forall k :: 0 <= k < |a| ==> a[k].dept != dept) ==> EmployeesByDepartment(a, dept) == []
  {
    FilterAppend(a, b, (e: Employee) => e.dept == dept);
    FilterCount(a, (e: Employee) => e.dept == dept);
    var r := EmployeesByDepartment(a, dept);
    if r != [] {
      assert multiset(r)[r[0]] > 0;
    }
  }

  /** `string.Format("Property: {0} Error: {1}", ...) + Environment.NewLine`, taking the new line to be "\n". */
  function ErrorLine(e: ValidationError): string
  {
    "Property: " + e.propertyName + " Error: " + e.errorMessage + "\n"
  }

  /** The lines for one entity's errors, in order. */
  function EntityLines(errors: seq<ValidationError>): string
  {
    if errors == [] then "" else EntityLines(errors[..|errors| - 1]) + ErrorLine(errors[|errors| - 1])
  }

  /** The lines for every error of every entity, in order. */
  function ValidationLines(results: seq<EntityValidationResult>): string
  {
    if results == [] then ""
    else ValidationLines(results[..|results| - 1]) + EntityLines(results[|results| - 1].validationErrors)
  }

  function NewlineCount(s: string): nat
  {
    if s == [] then 0 else NewlineCount(s[..|s| - 1]) + (if s[|s| - 1] == '\n' then 1 else 0)
  }

  function ErrorCount(results: seq<EntityValidationResult>): nat
  {
    if results == [] then 0 else ErrorCount(results[..|results| - 1]) + |results[|results| - 1].validationErrors|
  }

  predicate SingleLine(s: string)
  {
    forall k :: 0 <= k < |s| ==> s[k] != '\n'
  }

  /** No property name and no message spans lines. */
  predicate SingleLineErrors(results: seq<EntityValidationResult>)
  {
    forall k, j :: 0 <= k < |results| && 0 <= j < |results[k].validationErrors| ==>
      SingleLine(results[k].validationErrors[j].propertyName) &&
      SingleLine(results[k].validationErrors[j].errorMessage)
  }

  lemma {:induction false} NewlineCountAppend(a: string, b: string)
    ensures NewlineCount(a + b) == NewlineCount(a) + NewlineCount(b)
  {
    if b == [] {
      assert a + b == a;
    } else {
      assert (a + b)[..|a + b| - 1] == a + b[..|b| - 1];
      assert (a + b)[|a + b| - 1] == b[|b| - 1];
      NewlineCountAppend(a, b[..|b| - 1]);
    }
  }

  lemma {:induction false} SingleLineCount(s: string)
    requires SingleLine(s)
    ensures NewlineCount(s) == 0
  {
    if s != [] {
      SingleLineCount(s[..|s| - 1]);
    }
  }

  lemma ErrorLineCount(e: ValidationError)
    requires SingleLine(e.propertyName) && SingleLine(e.errorMessage)
    ensures NewlineCount(ErrorLine(e)) == 1
  {
    var head := "Property: " + e.propertyName + " Error: " + e.errorMessage;
    assert ErrorLine(e) == head + "\n";
    NewlineCountAppend("Property: " + e.propertyName, " Error: ");
    NewlineCountAppend("Property: ", e.propertyName);
    NewlineCountAppend("Property: " + e.propertyName + " Error: ", e.errorMessage);
    NewlineCountAppend(head, "\n");
    SingleLineCount(e.propertyName);
    SingleLineCount(e.errorMessage);
    assert NewlineCount("Property: ") == 0 by { SingleLineCount("Property: "); }
    assert NewlineCount(" Error: ") == 0 by { SingleLineCount(" Error: "); }
    assert NewlineCount("\n") == NewlineCount("") + 1;
  }

  lemma {:induction false} EntityLinesCount(errors: seq<ValidationError>)
    requires forall j :: 0 <= j < |errors| ==> SingleLine(errors[j].propertyName) && SingleLine(errors[j].errorMessage)
    ensures NewlineCount(EntityLines(errors)) == |errors|
  {
    if errors != [] {
      EntityLinesCount(errors[..|errors| - 1]);
      ErrorLineCount(errors[|errors| - 1]);
      NewlineCountAppend(EntityLines(errors[..|errors| - 1]), ErrorLine(errors[|errors| - 1]));
    }
  }

  /** One line per validation error: the appended text ends a line exactly as often as there are errors. */
  lemma {:induction false} ValidationLinesCount(results: seq<EntityValidationResult>)
    requires SingleLineErrors(results)
    ensures NewlineCount(ValidationLines(results)) == ErrorCount(results)
  {
    if results != [] {
      var init := results[..|results| - 1];
      var last := results[|results| - 1];
      assert SingleLineErrors(init) by {
        forall k, j | 0 <= k < |init| && 0 <= j < |init[k].validationErrors|
          ensures SingleLine(init[k].validationErrors[j].propertyName) && SingleLine(init[k].validationErrors[j].errorMessage)
        {
          assert init[k] == results[k];
        }
      }
      ValidationLinesCount(init);
      EntityLinesCount(last.validationErrors);
      NewlineCountAppend(ValidationLines(init), EntityLines(last.validationErrors));
    }
  }

  /** Two exceptions in a row append their lines one after the other. */
  lemma {:induction false} ValidationLinesAppend(a: seq<EntityValidationResult>, b: seq<EntityValidationResult>)
    ensures ValidationLines(a + b) == ValidationLines(a) + ValidationLines(b)
  {
    if b == [] {
      assert a + b == a;
    } else {
      assert (a + b)[..|a + b| - 1] == a + b[..|b| - 1];
      assert (a + b)[|a + b| - 1] == b[|b| - 1];
      var last := EntityLines(b[|b| - 1].validationErrors);
      assert ValidationLines(a + b) == ValidationLines(a + b[..|b| - 1]) + last;
      ValidationLinesAppend(a, b[..|b| - 1]);
      assert ValidationLines(b) == ValidationLines(b[..|b| - 1]) + last;
    }
  }

  /** The inner `foreach` over one entity's errors. */
  method AppendEntityErrors(message: string, errors: seq<ValidationError>) returns (m: string)
    ensures m == message + EntityLines(errors)
  {
    m := message;
    var j := 0;
    while j < |errors|
      invariant 0 <= j <= |errors|
      invariant m == message + EntityLines(errors[..j])
    {
      assert errors[..j + 1][..j] == errors[..j];
      m := m + ErrorLine(errors[j]);
      j := j + 1;
    }
    assert errors[..j] == errors;
  }

  /** The `catch (DbEntityValidationException)` loops: one line per error appended to the message, never reset. */
  method AppendValidationErrors(message: string, results: seq<EntityValidationResult>) returns (m: string)
    ensures m == message + ValidationLines(results)
  {
    m := message;
    var i := 0;
    while i < |results|
      invariant 0 <= i <= |results|
      invariant m == message + ValidationLines(results[..i])
    {
      assert results[..i + 1][..i] == results[..i];
      m := AppendEntityErrors(m, results[i].validationErrors);
      i := i + 1;
    }
    assert results[..i] == results;
  }
}

/**
 * `DesignPattern.RepositoryDesignPattern`: the non-generic
 * `EmployeeRepository` and the first `GenericRepository<T>`, each calling
 * straight through to the context.
 */
module BasicRepository {
  import opened Wrappers
  import opened RepositoryContext

  class EmployeeRepository {
    const context: Context
    var disposed: bool

    constructor(context: Context)
      ensures this.context == context && !disposed
    {
      this.context := context;
      disposed := false;
    }

    /** The parameterless constructor opens its own context on `database`. */
    constructor Open(database: seq<Employee>)
      ensures fresh(context) && context.rows == database && context.calls == [] && !disposed
    {
      context := new Context(database);
      disposed := false;
    }

    method Insert(employee: Employee)
      modifies context
      ensures context.calls == old(context.calls) + [Added(employee)]
    {
      context.Record(Added(employee));
    }

    method Update(employee: Employee)
      modifies context
      ensures context.calls == old(context.calls) + [MarkedModified(employee)]
    {
      context.Record(MarkedModified(employee));
    }

    /**
     * Removes whatever `Find` returns. There is no existence check, so an id
     * no row has passes null to `Remove`, which throws before recording anything.
     */
    method Delete(employeeId: int) returns (r: Result<(), RepositoryError>)
      modifies context
      ensures Find(context.rows, employeeId).None? ==>
        r == Failure(ArgumentNull("entity")) && context.calls == old(context.calls)
      ensures Find(context.rows, employeeId).Some? ==>
        r == Success(()) && context.calls == old(context.calls) + [Removed(Find(context.rows, employeeId))]
    {
      var employee := Find(context.rows, employeeId);
      if employee.None? {
        return Failure(ArgumentNull("entity"));
      }
      context.Record(Removed(employee));
      r := Success(());
    }

    method Save()
      modifies context
      ensures context.calls == old(context.calls) + [ChangesSaved]
    {
      context.Record(ChangesSaved);
    }

    /** `Dispose(bool disposing)`: disposes the context only on the first call with `disposing`, and marks the repository disposed. */
    method DisposeManaged(disposing: bool)
      modifies this, context
      ensures disposed
      ensures context.calls == old(context.calls) + (if !old(disposed) && disposing then [Disposed] else [])
    {
      if !disposed {
        if disposing {
          context.Record(Disposed);
        }
      }
      disposed := true;
    }

    /** `Dispose()`: the context is disposed once, however often this is called. */
    method Dispose()
      modifies this, context
      ensures disposed
      ensures context.calls == old(context.calls) + (if old(disposed) then [] else [Disposed])
    {
      DisposeManaged(true);
    }
  }

  /**
   * `GenericRepository<T>`; the copies in the two other namespaces differ
   * only in making `_context` and `table` public.
   */
  class GenericRepository {
    const context: Context

    /** The parameterless constructor opens its own context on `database`. */
    constructor Open(database: seq<Employee>)
      ensures fresh(context) && context.rows == database && context.calls == []
    {
      context := new Context(database);
    }

    constructor(context: Context)
      ensures this.context == context
    {
      this.context := context;
    }

    method Insert(obj: Employee)
      modifies context
      ensures context.calls == old(context.calls) + [Added(obj)]
    {
      context.Record(Added(obj));
    }

    /** Attaches, then marks modified. */
    method Update(obj: Employee)
      modifies context
      ensures context.calls == old(context.calls) + [Attached(obj), MarkedModified(obj)]
    {
      context.Record(Attached(obj));
      context.Record(MarkedModified(obj));
    }

    /** Removes whatever `Find` returns; for an id no row has, `Remove(null)` throws. */
    method Delete(id: int) returns (r: Result<(), RepositoryError>)
      modifies context
      ensures Find(context.rows, id).None? ==> r == Failure(ArgumentNull("entity")) && context.calls == old(context.calls)
      ensures Find(context.rows, id).Some? ==>
        r == Success(()) && context.calls == old(context.calls) + [Removed(Find(context.rows, id))]
    {
      var existing := Find(context.rows, id);
      if existing.None? {
        return Failure(ArgumentNull("entity"));
      }
      context.Record(Removed(existing));
      r := Success(());
    }

    method Save()
      modifies context
      ensures context.calls == old(context.calls) + [ChangesSaved]
    {
      context.Record(ChangesSaved);
    }
  }

  /** For an id no row has, `Find` gives null, which is what `Delete` then hands to `Remove`. */
  lemma DeleteMissingFindsNull(rows: seq<Employee>, id: int)
    requires forall k :: 0 <= k < |rows| ==> rows[k].employeeId != id
    ensures Find(rows, id) == None
  {
  }
}

/**
 * `DesignPattern.RepositoryDesignPattern.BothGenericAndNonGeneric`: an
 * `EmployeeRepository` that adds two queries to the generic repository.
 */
module GenericAndNonGeneric {
  import opened Wrappers
  import opened RepositoryContext

  class EmployeeRepository {
    const context: Context

    /** The inherited parameterless constructor opens its own context. */
    constructor(database: seq<Employee>)
      ensures fresh(context) && context.rows == database && context.calls == []
    {
      context := new Context(database);
    }

    /** The employees of that gender, in the order the context returns them. */
    function GetEmployeesByGender(gender: Option<string>): (r: seq<Employee>)
      ensures forall e :: multiset(r)[e] == if e.gender == gender then multiset(context.rows)[e] else 0
    {
      EmployeesByGenderExactly(context.rows, [], gender);
      EmployeesByGender(context.rows, gender)
    }

    /** The employees of that department, in the order the context returns them. */
    function GetEmployeesByDepartment(dept: Option<string>): (r: seq<Employee>)
      ensures forall e :: multiset(r)[e] == if e.dept == dept then multiset(context.rows)[e] else 0
    {
      EmployeesByDepartmentExactly(context.rows, [], dept);
      EmployeesByDepartment(context.rows, dept)
    }
  }
}

/**
 * `DesignPattern.RepositoryDesignPattern.UnitOfWorkInRepositoryPattern`:
 * a unit of work that owns one context and caches one repository per
 * entity type name, and a repository that guards its arguments,
 * reconnects a null or disposed context and leaves saving to the unit of
 * work.
 */
module UnitOfWorkRepository {
  import opened Wrappers
  import opened RepositoryContext

  /** A .NET type: `typeof(T).Name` is only the simple name. */
  datatype EntityType = EntityType(namespace: string, name: string)

  class UnitOfWork {
    const context: Context
    var disposed: bool
    var errorMessage: string
    /** `_repositories`, null until the first request. */
    var repositories: Option<map<string, GenericRepository>>

    constructor(database: seq<Employee>)
      ensures fresh(context) && context.rows == database && context.calls == []
      ensures !disposed && errorMessage == "" && repositories == None
    {
      context := new Context(database);
      disposed := false;
      errorMessage := "";
      repositories := None;
    }

    /**
     * Saves the context; a validation exception appends one line per error
     * to the message kept from earlier failures and throws it.
     */
    method Save(outcome: SaveOutcome) returns (r: Result<(), RepositoryError>)
      modifies this, context
      ensures context.calls == old(context.calls) + [ChangesSaved]
      ensures disposed == old(disposed) && repositories == old(repositories)
      ensures outcome.Saved? ==> r == Success(()) && errorMessage == old(errorMessage)
      ensures outcome.ValidationFailed? ==>
        errorMessage == old(errorMessage) + ValidationLines(outcome.entityValidationErrors) &&
        r == Failure(SaveFailed(errorMessage))
    {
      context.Record(ChangesSaved);
      if outcome.ValidationFailed? {
        errorMessage := AppendValidationErrors(errorMessage, outcome.entityValidationErrors);
        return Failure(SaveFailed(errorMessage));
      }
      r := Success(());
    }

    /** `Dispose(bool disposing)`: the context is disposed on the first call only. */
    method DisposeManaged(disposing: bool)
      modifies this, context
      ensures disposed
      ensures context.calls == old(context.calls) + (if !old(disposed) && disposing then [Disposed] else [])
      ensures errorMessage == old(errorMessage) && repositories == old(repositories)
    {
      if !disposed {
        if disposing {
          context.Record(Disposed);
        }
      }
      disposed := true;
    }

    method Dispose()
      modifies this, context
      ensures disposed
      ensures context.calls == old(context.calls) + (if old(disposed) then [] else [Disposed])
      ensures errorMessage == old(errorMessage) && repositories == old(repositories)
    {
      DisposeManaged(true);
    }

    /**
     * `GenericRepository<T>()` as written: it creates the dictionary, but
     * `typeof(GenericRepository<T>)` is already a closed type, so
     * `MakeGenericType(typeof(T))` throws before anything is stored. A
     * stored repository would be returned, or fail the cast.
     */
    method RepositoryFor(t: EntityType) returns (r: Result<GenericRepository, RepositoryError>)
      modifies this
      ensures repositories == Some(if old(repositories).Some? then old(repositories).value else map[])
      ensures disposed == old(disposed) && errorMessage == old(errorMessage)
      ensures t.name !in repositories.value ==> r == Failure(InvalidOperation)
      ensures t.name in repositories.value ==>
        r == (if repositories.value[t.name].entityType == t then Success(repositories.value[t.name]) else Failure(InvalidCast))
    {
      if repositories.None? {
        repositories := Some(map[]);
      }
      var typeName := t.name;
      if typeName !in repositories.value {
        return Failure(InvalidOperation);
      }
      var stored := repositories.value[typeName];
      if stored.entityType == t {
        r := Success(stored);
      } else {
        r := Failure(InvalidCast);
      }
    }

    /**
     * `GenericRepository<T>()` with the open type `typeof(GenericRepository<>)`
     * that lines 478-479 evidently intend: the first request for a type
     * name stores a new repository bound to this unit's context; every
     * later request for that name gets the stored one, which fails the cast
     * when it was made for another type of the same simple name.
     */
    method IntendedRepositoryFor(t: EntityType) returns (r: Result<GenericRepository, RepositoryError>)
      modifies this
      ensures repositories.Some? && t.name in repositories.value
      ensures disposed == old(disposed) && errorMessage == old(errorMessage)
      ensures old(repositories).Some? && t.name in old(repositories).value ==> repositories == old(repositories)
      ensures !(old(repositories).Some? && t.name in old(repositories).value) ==>
        var stored := repositories.value[t.name];
        fresh(stored) && stored.entityType == t && stored.context == context &&
        stored.entities == null && stored.errorMessage == "" && !stored.isDisposed &&
        repositories.value == (if old(repositories).Some? then old(repositories).value else map[])[t.name := stored]
      ensures r == (if repositories.value[t.name].entityType == t then Success(repositories.value[t.name]) else Failure(InvalidCast))
    {
      if repositories.None? {
        repositories := Some(map[]);
      }
      var typeName := t.name;
      if typeName !in repositories.value {
        var repositoryInstance := new GenericRepository(t, context);
        repositories := Some(repositories.value[typeName := repositoryInstance]);
      }
      var stored := repositories.value[typeName];
      if stored.entityType == t {
        r := Success(stored);
      } else {
        r := Failure(InvalidCast);
      }
    }
  }

  /** The unit-of-work `GenericRepository<T>`. */
  class GenericRepository {
    const entityType: EntityType
    /** The public `Context` property. */
    var context: Context?
    /** The context whose entity set `_entities` caches, null before the first use. */
    var entities: Context?
    var errorMessage: string
    var isDisposed: bool

    constructor(entityType: EntityType, context: Context?)
      ensures this.entityType == entityType && this.context == context
      ensures entities == null && errorMessage == "" && !isDisposed
    {
      this.entityType := entityType;
      this.context := context;
      entities := null;
      errorMessage := "";
      isDisposed := false;
    }

    /** The constructor taking the unit of work binds to its context. */
    constructor OfUnitOfWork(entityType: EntityType, unitOfWork: UnitOfWork)
      ensures this.entityType == entityType && context == unitOfWork.context
      ensures entities == null && errorMessage == "" && !isDisposed
    {
      this.entityType := entityType;
      context := unitOfWork.context;
      entities := null;
      errorMessage := "";
      isDisposed := false;
    }

    /** The `Entities` getter: the cached set, else the current context's, which a null context cannot give. */
    method Entities() returns (r: Result<Context, RepositoryError>)
      modifies this
      ensures context == old(context) && errorMessage == old(errorMessage) && isDisposed == old(isDisposed)
      ensures old(entities) != null ==> r == Success(old(entities)) && entities == old(entities)
      ensures old(entities) == null && old(context) == null ==> r == Failure(NullReference) && entities == null
      ensures old(entities) == null && old(context) != null ==> r == Success(old(context)) && entities == old(context)
    {
      if entities == null {
        if context == null {
          return Failure(NullReference);
        }
        entities := context;
      }
      r := Success(entities);
    }

    /** `if (Context == null || _isDisposed) Context = new EmployeeDBContext();` */
    method Reconnect(database: seq<Employee>)
      modifies this
      ensures context != null
      ensures entities == old(entities) && errorMessage == old(errorMessage) && isDisposed == old(isDisposed)
      ensures old(context) == null || old(isDisposed) ==> fresh(context) && context.calls == [] && context.rows == database
      ensures old(context) != null && !old(isDisposed) ==> context == old(context)
    {
      if context == null || isDisposed {
        context := new Context(database);
      }
    }

    /** All the rows of the cached set's context. */
    method GetAll() returns (r: Result<seq<Employee>, RepositoryError>)
      modifies this
      ensures context == old(context) && errorMessage == old(errorMessage) && isDisposed == old(isDisposed)
      ensures old(entities) == null && old(context) == null ==> r == Failure(NullReference) && entities == null
      ensures !(old(entities) == null && old(context) == null) ==>
        entities == (if old(entities) != null then old(entities) else old(context)) &&
        r == Success(entities.rows)
    {
      var entitySet :- Entities();
      r := Success(entitySet.rows);
    }

    method GetById(id: int) returns (r: Result<Option<Employee>, RepositoryError>)
      modifies this
      ensures context == old(context) && errorMessage == old(errorMessage) && isDisposed == old(isDisposed)
      ensures old(entities) == null && old(context) == null ==> r == Failure(NullReference) && entities == null
      ensures !(old(entities) == null && old(context) == null) ==>
        entities == (if old(entities) != null then old(entities) else old(context)) &&
        r == Success(Find(entities.rows, id))
    {
      var entitySet :- Entities();
      r := Success(Find(entitySet.rows, id));
    }

    /**
     * Guards the argument, stages the entity in the cached set, and only
     * then replaces a null or disposed context. Nothing is saved.
     */
    method Insert(entity: Option<Employee>, database: seq<Employee>) returns (r: Result<(), RepositoryError>)
      modifies this, context, entities
      ensures errorMessage == old(errorMessage) && isDisposed == old(isDisposed)
      ensures entity.None? ==> r == Failure(ArgumentNull("entity")) && unchanged(this)
      ensures entity.None? ==> (context != null ==> unchanged(context)) && (entities != null ==> unchanged(entities))
      ensures entity.Some? && old(context) != null && old(context) != entities ==> old(context).calls == old(context.calls)
      ensures entity.Some? && old(entities) == null && old(context) == null ==>
        r == Failure(NullReference) && entities == null && context == null
      ensures entity.Some? && !(old(entities) == null && old(context) == null) ==>
        var entitySet := if old(entities) != null then old(entities) else old(context);
        r == Success(()) && entities == entitySet && entitySet.calls == old(entitySet.calls) + [Added(entity.value)] &&
        (old(context) == null || old(isDisposed) ==> fresh(context) && context.calls == [] && context.rows == database) &&
        (old(context) != null && !old(isDisposed) ==> context == old(context))
    {
      if entity.None? {
        return Failure(ArgumentNull("entity"));
      }
      var got := Entities();
      if got.Failure? {
        return Failure(got.error);
      }
      var entitySet := got.value;
      entitySet.Record(Added(entity.value));
      Reconnect(database);
      r := Success(());
    }

    /**
     * Guards the argument, saves through the current context (not the
     * cached set) without reconnecting it, and on a validation exception
     * appends the error lines and throws.
     */
    method BulkInsert(es: Option<seq<Employee>>, outcome: SaveOutcome) returns (r: Result<(), RepositoryError>)
      modifies this, context
      ensures context == old(context) && entities == old(entities) && isDisposed == old(isDisposed)
      ensures es.None? ==> r == Failure(ArgumentNull("entities")) && unchanged(this)
      ensures es.None? && context != null ==> unchanged(context)
      ensures es.Some? && context == null ==> r == Failure(NullReference) && unchanged(this)
      ensures es.Some? && context != null ==>
        context.calls == old(context.calls) + [AutoDetectChangesDisabled, RangeAdded(es.value), ChangesSaved]
      ensures es.Some? && context != null && outcome.Saved? ==> r == Success(()) && errorMessage == old(errorMessage)
      ensures es.Some? && context != null && outcome.ValidationFailed? ==>
        errorMessage == old(errorMessage) + ValidationLines(outcome.entityValidationErrors) &&
        r == Failure(SaveFailed(errorMessage))
    {
      if es.None? {
        return Failure(ArgumentNull("entities"));
      }
      if context == null {
        return Failure(NullReference);
      }
      context.Record(AutoDetectChangesDisabled);
      context.Record(RangeAdded(es.value));
      context.Record(ChangesSaved);
      if outcome.ValidationFailed? {
        errorMessage := AppendValidationErrors(errorMessage, outcome.entityValidationErrors);
        return Failure(SaveFailed(errorMessage));
      }
      r := Success(());
    }

    /** `Context.Entry(entity).State = EntityState.Modified` on the current context. */
    method SetEntryModified(entity: Employee) returns (r: Result<(), RepositoryError>)
      modifies context
      ensures context == null ==> r == Failure(NullReference)
      ensures context != null ==> r == Success(()) && context.calls == old(context.calls) + [MarkedModified(entity)]
    {
      if context == null {
        return Failure(NullReference);
      }
      context.Record(MarkedModified(entity));
      r := Success(());
    }

    /** Guards the argument, replaces a null or disposed context, then marks the entity modified on it. */
    method Update(entity: Option<Employee>, database: seq<Employee>) returns (r: Result<(), RepositoryError>)
      modifies this, context
      ensures entities == old(entities) && errorMessage == old(errorMessage) && isDisposed == old(isDisposed)
      ensures entity.None? ==> r == Failure(ArgumentNull("entity")) && unchanged(this)
      ensures entity.None? && context != null ==> unchanged(context)
      ensures entity.Some? ==> r == Success(()) && context != null
      ensures entity.Some? && old(context) != null && old(isDisposed) ==> old(context).calls == old(context.calls)
      ensures entity.Some? && (old(context) == null || old(isDisposed)) ==>
        fresh(context) && context.calls == [MarkedModified(entity.value)] && context.rows == database
      ensures entity.Some? && old(context) != null && !old(isDisposed) ==>
        context == old(context) && context.calls == old(context.calls) + [MarkedModified(entity.value)]
    {
      if entity.None? {
        return Failure(ArgumentNull("entity"));
      }
      Reconnect(database);
      r := SetEntryModified(entity.value);
    }

    /**
     * Guards the argument, replaces a null or disposed context, then
     * removes the entity from the cached set, which may still belong to
     * the context that was replaced.
     */
    method Delete(entity: Option<Employee>, database: seq<Employee>) returns (r: Result<(), RepositoryError>)
      modifies this, context, entities
      ensures errorMessage == old(errorMessage) && isDisposed == old(isDisposed)
      ensures entity.None? ==> r == Failure(ArgumentNull("entity")) && unchanged(this)
      ensures entity.None? ==> (context != null ==> unchanged(context)) && (entities != null ==> unchanged(entities))
      ensures entity.Some? ==> r == Success(()) && context != null
      ensures entity.Some? && old(context) != null && old(context) != entities ==> old(context).calls == old(context.calls)
      ensures entity.Some? && (old(context) == null || old(isDisposed)) ==> fresh(context) && context.rows == database
      ensures entity.Some? && old(context) != null && !old(isDisposed) ==> context == old(context)
      ensures entity.Some? ==>
        var entitySet := if old(entities) != null then old(entities) else context;
        entities == entitySet &&
        entitySet.calls == (if old(entities) != null || !fresh(context) then old(entitySet.calls) else []) + [Removed(entity)]
    {
      if entity.None? {
        return Failure(ArgumentNull("entity"));
      }
      Reconnect(database);
      var got := Entities();
      assert got.Success?;
      var entitySet := got.value;
      entitySet.Record(Removed(entity));
      r := Success(());
    }

    /** Disposes the context whenever there is one, on every call, and marks the repository disposed. */
    method Dispose()
      modifies this, context
      ensures isDisposed
      ensures context == old(context) && entities == old(entities) && errorMessage == old(errorMessage)
      ensures context != null ==> context.calls == old(context.calls) + [Disposed]
    {
      if context != null {
        context.Record(Disposed);
      }
      isDisposed := true;
    }
  }

  /** The unit-of-work `EmployeeRepository`: the generic repository plus two queries on its current context. */
  class EmployeeRepository {
    const repository: GenericRepository

    constructor(unitOfWork: UnitOfWork)
      ensures fresh(repository) && repository.context == unitOfWork.context
      ensures repository.entities == null && repository.errorMessage == "" && !repository.isDisposed
    {
      repository := new GenericRepository.OfUnitOfWork(EntityType("DesignPattern.RepositoryDesignPattern", "Employee"), unitOfWork);
    }

    /** `EmployeeRepository(EmployeeDBContext context)`: bound to the given context. */
    constructor WithContext(context: Context)
      ensures fresh(repository) && repository.context == context
      ensures repository.entities == null && repository.errorMessage == "" && !repository.isDisposed
    {
      repository := new GenericRepository(EntityType("DesignPattern.RepositoryDesignPattern", "Employee"), context);
    }

    /** The employees of that gender on the current context; a null context throws. */
    function GetEmployeesByGender(gender: Option<string>): (r: Result<seq<Employee>, RepositoryError>)
      reads repository
      ensures r.Failure? <==> repository.context == null
      ensures r.Success? ==> forall e :: (multiset(r.value)[e] ==
        if e.gender == gender then multiset(repository.context.rows)[e] else 0)
    {
      if repository.context == null then Failure(NullReference)
      else
        EmployeesByGenderExactly(repository.context.rows, [], gender);
        Success(EmployeesByGender(repository.context.rows, gender))
    }

    /** The employees of that department on the current context; a null context throws. */
    function GetEmployeesByDepartment(dept: Option<string>): (r: Result<seq<Employee>, RepositoryError>)
      reads repository
      ensures r.Failure? <==> repository.context == null
      ensures r.Success? ==> forall e :: (multiset(r.value)[e] ==
        if e.dept == dept then multiset(repository.context.rows)[e] else 0)
    {
      if repository.context == null then Failure(NullReference)
      else
        EmployeesByDepartmentExactly(repository.context.rows, [], dept);
        Success(EmployeesByDepartment(repository.context.rows, dept))
    }
  }

  /**
   * `_errorMessage` is never reset: after two failing saves the message
   * holds the first exception's lines followed by the second's.
   */
  method TwoFailingSaves(unitOfWork: UnitOfWork, first: seq<EntityValidationResult>, second: seq<EntityValidationResult>)
    returns (r1: Result<(), RepositoryError>, r2: Result<(), RepositoryError>)
    modifies unitOfWork, unitOfWork.context
    ensures r1 == Failure(SaveFailed(old(unitOfWork.errorMessage) + ValidationLines(first)))
    ensures r2 == Failure(SaveFailed(old(unitOfWork.errorMessage) + ValidationLines(first + second)))
  {
    r1 := unitOfWork.Save(ValidationFailed(first));
    ghost var between := unitOfWork.errorMessage;
    r2 := unitOfWork.Save(ValidationFailed(second));
    ValidationLinesAppend(first, second);
    assert old(unitOfWork.errorMessage) + ValidationLines(first + second) == between + ValidationLines(second);
  }

  /**
   * As written, no request ever succeeds: a new unit of work, or one whose
   * dictionary is still empty, throws on every request and stays empty.
   */
  method EveryRequestFails(unitOfWork: UnitOfWork, t: EntityType, u: EntityType)
    returns (a: Result<GenericRepository, RepositoryError>, b: Result<GenericRepository, RepositoryError>)
    requires unitOfWork.repositories.None? || unitOfWork.repositories == Some(map[])
    modifies unitOfWork
    ensures a == Failure(InvalidOperation) && b == Failure(InvalidOperation)
    ensures unitOfWork.repositories == Some(map[])
  {
    a := unitOfWork.RepositoryFor(t);
    b := unitOfWork.RepositoryFor(u);
  }

  /**
   * With the intended lookup, two requests for one type get the same
   * repository, and a different type of the same simple name fails the cast.
   */
  method SameNameShared(unitOfWork: UnitOfWork, t: EntityType, u: EntityType)
    returns (a: Result<GenericRepository, RepositoryError>, b: Result<GenericRepository, RepositoryError>, c: Result<GenericRepository, RepositoryError>)
    requires unitOfWork.repositories.None? && t.name == u.name && t != u
    modifies unitOfWork
    ensures a.Success? && b.Success? && a.value == b.value
    ensures c == Failure(InvalidCast)
  {
    a := unitOfWork.IntendedRepositoryFor(t);
    b := unitOfWork.IntendedRepositoryFor(t);
    c := unitOfWork.IntendedRepositoryFor(u);
  }
}
