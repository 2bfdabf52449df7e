# DesignPattern in Dafny

This project models the demos in the Navjyot0/DesignPattern C# catalogue that carry behaviour beyond printing. It covers:

- the two adapters that turn a string table into `Employee` records;
- the `Pam` translator;
- the repository and unit-of-work bookkeeping;
- the lazy singletons;
- shallow copy, deep copy and prototype cloning;
- the report and beverage builders;
- the simple factory and the factory method;
- the fluent setter chain;
- the four dependency-injection variants.

Each C# namespace is one Dafny module. Code that mutates objects is written as classes whose methods list what they change in `modifies`. Its results are stated against functions, and lemmas about those functions carry the properties. Pure code is written as functions and lemmas: the card dispatch, the translator and the value conversions.

Files:

- `wrappers.dfy`: `Option` and `Result`.
- `text.dfy`: ASCII digit strings and ASCII case folding.
- `adapter.dfy`: `AdapterDesignPattern.cs`.
- `repository.dfy`: `RepositoryDesignPattern.cs`.
- `singleton.dfy`: `WhySingletonClassSealed.cs`.
- `copying.dfy`: `ShallowCopyandDeepCopy.cs`.
- `prototype.dfy`, `builder.dfy`, `factory.dfy`, `fluent.dfy` and `di.dfy`: the matching files under `CreationalDesignPattern/` and `DependencyInjectionDesignPattern/`.

A C# `null` string is `None` in an `Option<string>`. A thrown exception is a `Failure` carrying an error datatype. An Entity Framework `DbContext` is a `Context` object. It records the calls made on it (`Add`, `Remove`, `Attach`, setting an entry modified, `SaveChanges`, `Dispose`) and holds the rows the filters and `Find` read. The outcome of `SaveChanges` comes from the database, so it is a parameter. Wherever the source creates a new `EmployeeDBContext`, the rows of the new context are a parameter too. Static fields live in a `Statics` object, and a program starts with a fresh one. `Environment.NewLine` is `"\n"`.

## Model

| member | source | states |
|---|---|---|
| Text.ParseInteger | DesignPattern/StructuralDesignPattern/AdapterDesignPattern.cs:105 | integer text parses exactly when it is a non-empty run of ASCII digits, optionally after one '-' |
| Text.ParseIntToString | DesignPattern/StructuralDesignPattern/AdapterDesignPattern.cs:105 | parsing the decimal text of any integer gives that integer back |
| Text.DigitsOfNatToString | DesignPattern/StructuralDesignPattern/AdapterDesignPattern.cs:105 | the decimal text of a natural number reads back as that number |
| Text.EqualsIgnoreCaseIsLoweredEquality | DesignPattern/StructuralDesignPattern/AdapterDesignPattern.cs:255 | two strings are equal ignoring case exactly when their lower-cased forms are equal |
| AdapterEmployee.ToInt32RoundTrip | DesignPattern/StructuralDesignPattern/AdapterDesignPattern.cs:105 | `Convert.ToInt32` of the text of any Int32 value gives that value; of null it gives 0 |
| AdapterEmployee.ToDecimalRoundTrip | DesignPattern/StructuralDesignPattern/AdapterDesignPattern.cs:105 | `Convert.ToDecimal` of the text of any integer gives that integer; of null it gives 0 |
| AdapterEmployee.ToInt32 | DesignPattern/StructuralDesignPattern/AdapterDesignPattern.cs:105 | `Convert.ToInt32` gives 0 for null; on text it succeeds only on integer text within the 32-bit range, with its value; non-integer text is a format error and an out-of-range integer an overflow error |
| AdapterEmployee.ToDecimal | DesignPattern/StructuralDesignPattern/AdapterDesignPattern.cs:105 | `Convert.ToDecimal` on whole numbers gives 0 for null; on text it succeeds only on integer text of magnitude at most 2^96 - 1, with its value; non-integer text is a format error and a larger integer an overflow error |
| AdapterEmployee.ToEmployee | DesignPattern/StructuralDesignPattern/AdapterDesignPattern.cs:44-50 | the record is built exactly when both conversions succeed and then holds the converted id and salary with the name and designation as given; an id error is reported first |
| AdapterEmployee.Table | DesignPattern/StructuralDesignPattern/AdapterDesignPattern.cs:84-86 | the table read row by row has one row per first index, each as wide as the second dimension, with the array's cells |
| AdapterEmployee.ConvertEachRows | DesignPattern/StructuralDesignPattern/AdapterDesignPattern.cs:84-106 | converting rows one by one succeeds exactly when every row converts, giving one employee per row in row order; otherwise the error is that of the first row that does not convert |
| AdapterEmployee.RectangularRows | DesignPattern/StructuralDesignPattern/AdapterDesignPattern.cs:79-106 | whenever each row scans to the same fields from any locals a row can leave behind, the outer loop (`ConvertRows`) equals converting each row on its own: the locals carried between rows never show |
| AdapterEmployee.ScanRow | DesignPattern/StructuralDesignPattern/AdapterDesignPattern.cs:86-104 | the inner loop of either adapter leaves the four locals equal to scanning that row of the array, column by column, from their earlier values |
| AdapterEmployee.ProcessCompanySalary | DesignPattern/StructuralDesignPattern/AdapterDesignPattern.cs:77-106 | the nested loops of either adapter (lines 77-106 with the object adapter's loop body, 174-203 with the class adapter's) compute exactly the row-by-row conversion `ConvertRows` of the array's table, stopping at the first error |
| ObjectAdapter.ScanFields | DesignPattern/StructuralDesignPattern/AdapterDesignPattern.cs:86-104 | after the column loop the id, name and designation are columns 0, 1 and 2, and the salary is the last column when there are at least four; fields past the row's end keep their earlier value |
| ObjectAdapter.ConvertedColumns | DesignPattern/StructuralDesignPattern/AdapterDesignPattern.cs:79-106 | on a rectangular table the conversion is that of each row on its own and succeeds exactly when every row converts; it then gives one employee per row, in order, with id from column 0, name from 1, designation from 2 and salary from the last column; otherwise the error is that of the first row that does not convert |
| ObjectAdapter.Cells | DesignPattern/StructuralDesignPattern/AdapterDesignPattern.cs:118-125 | a row of the demo's string literals as non-null cells, cell for cell |
| ObjectAdapter.FourColumnRow | DesignPattern/StructuralDesignPattern/AdapterDesignPattern.cs:105 | a four-column row of numeric id and salary converts to the employee with those four values |
| ObjectAdapter.DemoRowsEach | DesignPattern/StructuralDesignPattern/AdapterDesignPattern.cs:118-125 | each of the five demo rows converts to its expected employee |
| ObjectAdapter.DemoConversion | DesignPattern/StructuralDesignPattern/AdapterDesignPattern.cs:116-129 | the demo table converts to employees 101 to 105 with designations SE, SE, SSE, SE, SSE and salaries 10000 to 50000 |
| ClassAdapter.ScanFields | DesignPattern/StructuralDesignPattern/AdapterDesignPattern.cs:183-201 | the column loop as written never touches the designation; every column from 2 on overwrites the salary |
| ClassAdapter.DesignationNeverAssigned | DesignPattern/StructuralDesignPattern/AdapterDesignPattern.cs:176-203 | on a rectangular table the conversion is that of each row on its own and succeeds exactly when every row converts; it then gives one employee per row, none with a designation, and the salary is the last column once the table has three; otherwise the error is that of the first row that does not convert |
| ClassAdapter.FourColumnRow | DesignPattern/StructuralDesignPattern/AdapterDesignPattern.cs:202 | a four-column row converts to an employee with no designation and the last column as salary |
| ClassAdapter.DemoRowsEach | DesignPattern/StructuralDesignPattern/AdapterDesignPattern.cs:215-222 | each of the five demo rows converts to an employee without designation |
| ClassAdapter.DemoConversion | DesignPattern/StructuralDesignPattern/AdapterDesignPattern.cs:213-226 | the demo table converts to five employees without designations, which differs from the object adapter's result |
| ClassAdapter.ThreeColumnRowThrows | DesignPattern/StructuralDesignPattern/AdapterDesignPattern.cs:193-202 | on a three-column row the designation "SE" lands in the salary and fails to convert, while the object adapter converts that row |
| Translator.Lookup | DesignPattern/StructuralDesignPattern/AdapterDesignPattern.cs:343-350 | a dictionary read succeeds exactly on a present key, with its value; a null key is an argument-null error and a missing one a key-not-found error |
| Translator.ConvertToFrench | DesignPattern/StructuralDesignPattern/AdapterDesignPattern.cs:343-346 | succeeds exactly when the words are a key of the English-French dictionary |
| Translator.ConvertToEnglish | DesignPattern/StructuralDesignPattern/AdapterDesignPattern.cs:347-350 | succeeds exactly when the words are a key of the French-English dictionary |
| Translator.JohnAnswer | DesignPattern/StructuralDesignPattern/AdapterDesignPattern.cs:252-260 | John answers "I am in USA" exactly when the words equal "where are you?" ignoring case, and null otherwise |
| Translator.DavidAnswer | DesignPattern/StructuralDesignPattern/AdapterDesignPattern.cs:281-289 | David answers "Je suis très bien" exactly for "comment allez-vous?" ignoring case, and null otherwise |
| Translator.Translate | DesignPattern/StructuralDesignPattern/AdapterDesignPattern.cs:316-341 | `TranslateAndTellToOtherPerson` throws a null reference for a null language; its branches are stated by the chain lemmas below |
| Translator.JohnAsks | DesignPattern/StructuralDesignPattern/AdapterDesignPattern.cs:244-250 | John gets a reply only when his words are an English-French key, and the reply is one of the French-English dictionary's English phrases |
| Translator.DavidAsks | DesignPattern/StructuralDesignPattern/AdapterDesignPattern.cs:274-280 | David gets a reply only when his words are a French-English key, and the reply is one of the English-French dictionary's French phrases |
| Translator.OtherLanguageRefused | DesignPattern/StructuralDesignPattern/AdapterDesignPattern.cs:338-341 | any language other than English or French gives "Sorry Cannot Covert", whatever the words and dictionaries |
| Translator.LanguageIgnoresCase | DesignPattern/StructuralDesignPattern/AdapterDesignPattern.cs:318-328 | two language names equal ignoring case give the same translation |
| Translator.FrenchChain | DesignPattern/StructuralDesignPattern/AdapterDesignPattern.cs:328-337 | `Translate` to French succeeds exactly when the words translate, David answers, and the answer translates back; its result is that back-translation |
| Translator.EnglishChain | DesignPattern/StructuralDesignPattern/AdapterDesignPattern.cs:318-327 | `Translate` to English is the mirror image through John |
| Translator.SourceFrenchAlwaysFails | DesignPattern/StructuralDesignPattern/AdapterDesignPattern.cs:309-315 | with the dictionaries as loaded, the French branch fails for every input |
| Translator.SourceEnglishOnlyMisencoded | DesignPattern/StructuralDesignPattern/AdapterDesignPattern.cs:309-315 | with the dictionaries as loaded, the English branch succeeds only on the mis-encoded key "oC9 C*tes-vous?" |
| Translator.DemoQuestionsFail | DesignPattern/StructuralDesignPattern/AdapterDesignPattern.cs:356-362 | both demo questions fail, on the missing keys "Je suis très bien" and "où êtes-vous?" |
| Translator.IntendedFrench | DesignPattern/StructuralDesignPattern/AdapterDesignPattern.cs:311-313 | with correctly encoded keys the French branch succeeds exactly on "how are you?", and John hears "I am fine" |
| Translator.IntendedEnglish | DesignPattern/StructuralDesignPattern/AdapterDesignPattern.cs:312-314 | with correctly encoded keys the English branch succeeds exactly on "où êtes-vous?", and David hears "Je suis aux Etats-Unis" |
| RepositoryContext.Find | DesignPattern/RepositoryDesignPattern/RepositoryDesignPattern.cs:67-70 | `Find` gives nothing exactly when no row has the id, and otherwise a row with that id |
| RepositoryContext.FilterCount | DesignPattern/RepositoryDesignPattern/RepositoryDesignPattern.cs:299-306 | a `Where` filter keeps every matching row as often as it occurs and drops every other row |
| RepositoryContext.FilterAppend | DesignPattern/RepositoryDesignPattern/RepositoryDesignPattern.cs:299-306 | filtering a concatenation is concatenating the filtered parts, so row order is kept |
| RepositoryContext.EmployeesByGenderExactly | DesignPattern/RepositoryDesignPattern/RepositoryDesignPattern.cs:299-302 | exactly the rows of that gender, in order, and an empty list when none matches |
| RepositoryContext.EmployeesByDepartmentExactly | DesignPattern/RepositoryDesignPattern/RepositoryDesignPattern.cs:303-306 | exactly the rows of that department, in order, and an empty list when none matches |
| RepositoryContext.ErrorLineCount | DesignPattern/RepositoryDesignPattern/RepositoryDesignPattern.cs:459 | one validation error formats to exactly one line when its name and message have no line break |
| RepositoryContext.EntityLinesCount | DesignPattern/RepositoryDesignPattern/RepositoryDesignPattern.cs:458-459 | the inner loop adds one line per validation error |
| RepositoryContext.ValidationLinesCount | DesignPattern/RepositoryDesignPattern/RepositoryDesignPattern.cs:457-459 | the nested loops add one line per error across all entities |
| RepositoryContext.ValidationLinesAppend | DesignPattern/RepositoryDesignPattern/RepositoryDesignPattern.cs:457-459 | the text for two batches of results is the text of the first followed by that of the second |
| RepositoryContext.NewlineCountAppend | DesignPattern/RepositoryDesignPattern/RepositoryDesignPattern.cs:459 | line breaks of a concatenation add up |
| RepositoryContext.AppendEntityErrors | DesignPattern/RepositoryDesignPattern/RepositoryDesignPattern.cs:458-459 | the inner `foreach` appends the lines of one entity's errors, in order, to the message |
| RepositoryContext.AppendValidationErrors | DesignPattern/RepositoryDesignPattern/RepositoryDesignPattern.cs:457-459 | the nested `foreach` appends the lines of all errors, entity by entity, to the message |
| RepositoryContext.Context.Record | DesignPattern/RepositoryDesignPattern/RepositoryDesignPattern.cs:31-42 | a call on the context is appended to its record and nothing else changes |
| BasicRepository.EmployeeRepository.constructor | DesignPattern/RepositoryDesignPattern/RepositoryDesignPattern.cs:59-62 | the repository keeps the context it is given and starts undisposed |
| BasicRepository.EmployeeRepository.Open | DesignPattern/RepositoryDesignPattern/RepositoryDesignPattern.cs:55-58 | the default constructor opens a new context over the database |
| BasicRepository.EmployeeRepository.Insert | DesignPattern/RepositoryDesignPattern/RepositoryDesignPattern.cs:71-74 | records one `Add` of the employee and no save |
| BasicRepository.EmployeeRepository.Update | DesignPattern/RepositoryDesignPattern/RepositoryDesignPattern.cs:75-78 | records one entry marked modified and no save |
| BasicRepository.EmployeeRepository.Delete | DesignPattern/RepositoryDesignPattern/RepositoryDesignPattern.cs:79-83 | removes whatever `Find` gave for the id, with no existence check: a found row is recorded as removed; for an id no row has, `Remove(null)` throws an argument-null error and nothing is recorded |
| BasicRepository.EmployeeRepository.Save | DesignPattern/RepositoryDesignPattern/RepositoryDesignPattern.cs:84-87 | records one `SaveChanges` |
| BasicRepository.EmployeeRepository.DisposeManaged | DesignPattern/RepositoryDesignPattern/RepositoryDesignPattern.cs:89-99 | disposes the context only on the first call with disposing set; the flag is set in every case |
| BasicRepository.EmployeeRepository.Dispose | DesignPattern/RepositoryDesignPattern/RepositoryDesignPattern.cs:100-104 | the context is disposed once however often this is called |
| BasicRepository.GenericRepository.Open | DesignPattern/RepositoryDesignPattern/RepositoryDesignPattern.cs:127-131 | the parameterless constructor opens a new context over the database |
| BasicRepository.GenericRepository.Insert | DesignPattern/RepositoryDesignPattern/RepositoryDesignPattern.cs:145-148 | records one `Add` and no save |
| BasicRepository.GenericRepository.Update | DesignPattern/RepositoryDesignPattern/RepositoryDesignPattern.cs:149-153 | records an `Attach` and then the entry marked modified |
| BasicRepository.GenericRepository.Delete | DesignPattern/RepositoryDesignPattern/RepositoryDesignPattern.cs:154-158 | removes whatever `Find` gave for the id: a found row is recorded as removed; for a missing id `Remove(null)` throws an argument-null error and nothing is recorded |
| BasicRepository.GenericRepository.Save | DesignPattern/RepositoryDesignPattern/RepositoryDesignPattern.cs:159-162 | records one `SaveChanges` |
| BasicRepository.DeleteMissingFindsNull | DesignPattern/RepositoryDesignPattern/RepositoryDesignPattern.cs:79-83 | for an id no row has, `Find` gives null, which is what `Delete` hands to `Remove` |
| GenericAndNonGeneric.EmployeeRepository.GetEmployeesByGender | DesignPattern/RepositoryDesignPattern/RepositoryDesignPattern.cs:299-302 | every row of the gender as often as it occurs, no other row |
| GenericAndNonGeneric.EmployeeRepository.GetEmployeesByDepartment | DesignPattern/RepositoryDesignPattern/RepositoryDesignPattern.cs:303-306 | every row of the department as often as it occurs, no other row |
| UnitOfWorkRepository.UnitOfWork.constructor | DesignPattern/RepositoryDesignPattern/RepositoryDesignPattern.cs:405-415 | a new context, an empty error message, no repository dictionary and not disposed |
| UnitOfWorkRepository.UnitOfWork.Save | DesignPattern/RepositoryDesignPattern/RepositoryDesignPattern.cs:449-462 | saves the context; on validation errors it appends one line per error to the never-reset message and fails with the whole message |
| UnitOfWorkRepository.UnitOfWork.DisposeManaged | DesignPattern/RepositoryDesignPattern/RepositoryDesignPattern.cs:463-469 | disposes the context only on the first call with disposing set |
| UnitOfWorkRepository.UnitOfWork.Dispose | DesignPattern/RepositoryDesignPattern/RepositoryDesignPattern.cs:418-422 | the context is disposed once however often this is called |
| UnitOfWorkRepository.UnitOfWork.RepositoryFor | DesignPattern/RepositoryDesignPattern/RepositoryDesignPattern.cs:471-483 | as written: creates the dictionary on first use, then throws an invalid-operation error for a type name not yet stored, because `MakeGenericType` is called on the closed type `GenericRepository<T>`; nothing is ever stored; a stored repository would be returned or fail the cast |
| UnitOfWorkRepository.UnitOfWork.IntendedRepositoryFor | DesignPattern/RepositoryDesignPattern/RepositoryDesignPattern.cs:471-483 | with the open type `GenericRepository<>`: stores a new repository bound to the context on the first request for a simple type name; every other request gets the stored one, which fails the cast when it was made for another type of that name |
| UnitOfWorkRepository.GenericRepository.constructor | DesignPattern/RepositoryDesignPattern/RepositoryDesignPattern.cs:503-507 | keeps the context, with no cached entity set, an empty message and not disposed |
| UnitOfWorkRepository.GenericRepository.OfUnitOfWork | DesignPattern/RepositoryDesignPattern/RepositoryDesignPattern.cs:499-502 | binds the repository to the unit of work's context |
| UnitOfWorkRepository.GenericRepository.Entities | DesignPattern/RepositoryDesignPattern/RepositoryDesignPattern.cs:513-516 | gives the cached entity set, or caches the current context's; with neither it throws a null reference |
| UnitOfWorkRepository.GenericRepository.Reconnect | DesignPattern/RepositoryDesignPattern/RepositoryDesignPattern.cs:538-539 | a null or disposed context is replaced by a new one; a live one is kept |
| UnitOfWorkRepository.GenericRepository.GetAll | DesignPattern/RepositoryDesignPattern/RepositoryDesignPattern.cs:523-526 | the rows of the cached entity set, or a null reference with no context |
| UnitOfWorkRepository.GenericRepository.GetById | DesignPattern/RepositoryDesignPattern/RepositoryDesignPattern.cs:527-530 | `Find` on the cached entity set, or a null reference with no context |
| UnitOfWorkRepository.GenericRepository.Insert | DesignPattern/RepositoryDesignPattern/RepositoryDesignPattern.cs:531-550 | a null entity fails before anything changes, in the repository, its context or its cached set; otherwise the entity is staged in the cached set first and a null or disposed context is replaced afterwards; an old context that is not the cached set records no call; nothing is saved |
| UnitOfWorkRepository.GenericRepository.BulkInsert | DesignPattern/RepositoryDesignPattern/RepositoryDesignPattern.cs:551-575 | a null list fails first, leaving the repository and its context unchanged; with no context it is a null reference; otherwise it turns off change detection, adds the list, saves, and on validation errors appends their lines to the never-reset message |
| UnitOfWorkRepository.GenericRepository.SetEntryModified | DesignPattern/RepositoryDesignPattern/RepositoryDesignPattern.cs:614-617 | marks the entry modified on the current context, or is a null reference with none |
| UnitOfWorkRepository.GenericRepository.Update | DesignPattern/RepositoryDesignPattern/RepositoryDesignPattern.cs:576-594 | a null entity fails before anything changes, in the repository or its context; otherwise the context is replaced if null or disposed, and a replaced context records no call; then the entry is marked modified on the current one; nothing is saved |
| UnitOfWorkRepository.GenericRepository.Delete | DesignPattern/RepositoryDesignPattern/RepositoryDesignPattern.cs:595-613 | a null entity fails before anything changes, in the repository, its context or its cached set; otherwise the context is replaced if null or disposed, then the entity is removed from the cached set; an old context that is not the cached set records no call; nothing is saved |
| UnitOfWorkRepository.GenericRepository.Dispose | DesignPattern/RepositoryDesignPattern/RepositoryDesignPattern.cs:517-522 | disposes the context when there is one, on every call, and sets the flag |
| UnitOfWorkRepository.EmployeeRepository.constructor | DesignPattern/RepositoryDesignPattern/RepositoryDesignPattern.cs:628-631 | a repository bound to the unit of work's context |
| UnitOfWorkRepository.EmployeeRepository.WithContext | DesignPattern/RepositoryDesignPattern/RepositoryDesignPattern.cs:632-635 | a repository bound to the context it is given, with no cached set |
| UnitOfWorkRepository.EmployeeRepository.GetEmployeesByGender | DesignPattern/RepositoryDesignPattern/RepositoryDesignPattern.cs:636-639 | fails exactly when there is no context; otherwise every row of that gender as often as it occurs |
| UnitOfWorkRepository.EmployeeRepository.GetEmployeesByDepartment | DesignPattern/RepositoryDesignPattern/RepositoryDesignPattern.cs:640-643 | fails exactly when there is no context; otherwise every row of that department as often as it occurs |
| UnitOfWorkRepository.TwoFailingSaves | DesignPattern/RepositoryDesignPattern/RepositoryDesignPattern.cs:407-462 | a second failing save reports the lines of the first failure followed by its own |
| UnitOfWorkRepository.SameNameShared | DesignPattern/RepositoryDesignPattern/RepositoryDesignPattern.cs:471-483 | with the intended lookup and the dictionary still missing, two requests for the same type get one stored object, and a request for another type with the same simple name fails the cast |
| UnitOfWorkRepository.EveryRequestFails | DesignPattern/RepositoryDesignPattern/RepositoryDesignPattern.cs:471-483 | as written, on a new unit of work every request throws the invalid-operation error and the dictionary stays empty, so no repository is ever handed out |
| SingletonWithChildClass.Statics.GetInstance | DesignPattern/WhySingletonClassSealed.cs:47-55 | the first call constructs a fresh instance and counts it; later calls return the cached object and leave the counter alone |
| SingletonWithChildClass.Singleton.constructor | DesignPattern/WhySingletonClassSealed.cs:56-60 | the private constructor adds one to the counter |
| SingletonWithChildClass.Singleton.Derived | DesignPattern/WhySingletonClassSealed.cs:65-68 | `new DerivedSingleton()` runs the private constructor again, leaving the cached instance alone |
| SingletonWithChildClass.TeacherStudentDerived | DesignPattern/WhySingletonClassSealed.cs:73-88 | the two requests share one object, the derived one is a different object, and the counter ends at 2 |
| SealedSingleton.Statics.GetInstance | DesignPattern/WhySingletonClassSealed.cs:98-106 | keeps the counter equal to whether an instance exists, so it never exceeds 1; later calls return the cached object |
| SealedSingleton.Singleton.constructor | DesignPattern/WhySingletonClassSealed.cs:107-111 | the private constructor adds one to the counter |
| SealedSingleton.TwoRequests | DesignPattern/WhySingletonClassSealed.cs:94-111 | two requests give one object, constructed once |
| ShallowCopy.Employee.GetClone | DesignPattern/ShallowCopyandDeepCopy.cs:45-48 | a fresh employee with the same name and department and the very same address object; the original is unchanged |
| ShallowCopy.Scenario | DesignPattern/ShallowCopyandDeepCopy.cs:24-38 | after renaming the clone and writing its address, the original is still "Anurag" but its address is "Mumbai" too |
| DeepCopy.Address.GetClone | DesignPattern/ShallowCopyandDeepCopy.cs:91-94 | a fresh address with the same text |
| DeepCopy.Employee.GetClone | DesignPattern/ShallowCopyandDeepCopy.cs:81-86 | fails exactly when there is no address; otherwise a fresh employee with equal name and department and a fresh address of equal text; the original is unchanged |
| DeepCopy.Scenario | DesignPattern/ShallowCopyandDeepCopy.cs:60-74 | after the same writes, the original keeps "Anurag" and "BBSR" while the clone has "Pranaya" and "Mumbai" |
| DeepCopy.CloneWithoutAddress | DesignPattern/ShallowCopyandDeepCopy.cs:84 | cloning an employee with no address is a null reference |
| Prototype.Employee.GetClone | DesignPattern/CreationalDesignPattern/PrototypeDesignPattern.cs:34-37 | a fresh employee with equal name and department; the original is unchanged |
| Prototype.Scenario | DesignPattern/CreationalDesignPattern/PrototypeDesignPattern.cs:55-64 | renaming the clone leaves the original "Anurag", and both stay in "IT" |
| ReportBuilder.ReportBuilder.CreateNewReport | DesignPattern/CreationalDesignPattern/BuilderDesignPattern.cs:45-48 | the builder's product is a fresh, empty report |
| ReportBuilder.ReportBuilder.GetReport | DesignPattern/CreationalDesignPattern/BuilderDesignPattern.cs:49-52 | the current product |
| ReportBuilder.ReportBuilder.SetReportType | DesignPattern/CreationalDesignPattern/BuilderDesignPattern.cs:69-72 | needs a product; sets only its type, "PDF" or "Excel" |
| ReportBuilder.ReportBuilder.SetReportHeader | DesignPattern/CreationalDesignPattern/BuilderDesignPattern.cs:65-68 | needs a product; sets only its header |
| ReportBuilder.ReportBuilder.SetReportContent | DesignPattern/CreationalDesignPattern/BuilderDesignPattern.cs:57-60 | needs a product; sets only its content |
| ReportBuilder.ReportBuilder.SetReportFooter | DesignPattern/CreationalDesignPattern/BuilderDesignPattern.cs:61-64 | needs a product; sets only its footer |
| ReportBuilder.ReportDirector.MakeReport | DesignPattern/CreationalDesignPattern/BuilderDesignPattern.cs:97-105 | a fresh report holding exactly the four texts of the builder's kind |
| ReportBuilder.Scenario | DesignPattern/CreationalDesignPattern/BuilderDesignPattern.cs:110-125 | the PDF and Excel reports hold their four texts |
| ReportBuilder.SecondRunKeepsFirst | DesignPattern/CreationalDesignPattern/BuilderDesignPattern.cs:45-48 | a second run of the same builder makes another object and leaves the first report unchanged |
| BeverageBuilder.DescriptionParts | DesignPattern/CreationalDesignPattern/BuilderDesignPattern.cs:139-143 | `Beverage.ShowBeverage` prints `Description` of the fields, which is the text up to the milk followed by the text from the sugar on |
| BeverageBuilder.DescriptionReadsBack | DesignPattern/CreationalDesignPattern/BuilderDesignPattern.cs:139-143 | for every beverage, the text `ShowBeverage` prints (`Description`) starts with "Hot " and the name, ends with the name and "]" and a line break, and holds the water, milk, sugar and powder decimal texts at their places, each reading back as its quantity |
| BeverageBuilder.BeverageBuilder.CreateBeverage | DesignPattern/CreationalDesignPattern/BuilderDesignPattern.cs:150-153 | the builder's product is a fresh, empty beverage |
| BeverageBuilder.BeverageBuilder.GetBeverage | DesignPattern/CreationalDesignPattern/BuilderDesignPattern.cs:154-157 | the current product |
| BeverageBuilder.BeverageBuilder.SetBeverageType | DesignPattern/CreationalDesignPattern/BuilderDesignPattern.cs:188-192 | needs a product; sets only its name |
| BeverageBuilder.BeverageBuilder.SetWater | DesignPattern/CreationalDesignPattern/BuilderDesignPattern.cs:168-172 | needs a product; sets only its water |
| BeverageBuilder.BeverageBuilder.SetMilk | DesignPattern/CreationalDesignPattern/BuilderDesignPattern.cs:173-177 | needs a product; sets only its milk |
| BeverageBuilder.BeverageBuilder.SetSugar | DesignPattern/CreationalDesignPattern/BuilderDesignPattern.cs:178-182 | needs a product; sets only its sugar |
| BeverageBuilder.BeverageBuilder.SetPowderQuantity | DesignPattern/CreationalDesignPattern/BuilderDesignPattern.cs:183-187 | needs a product; sets only its powder |
| BeverageBuilder.BeverageDirector.MakeBeverage | DesignPattern/CreationalDesignPattern/BuilderDesignPattern.cs:226-236 | a fresh beverage holding exactly the recipe of the builder's kind |
| BeverageBuilder.TeaDescription | DesignPattern/CreationalDesignPattern/BuilderDesignPattern.cs:195-222 | the tea shows as "Hot Tea [50 ml of water, 60ml of milk, 15 gm of sugar, 20 gm of Tea]" and a line break |
| BeverageBuilder.CoffeeDescription | DesignPattern/CreationalDesignPattern/BuilderDesignPattern.cs:166-193 | the coffee shows as "Hot Coffee [40 ml of water, 50ml of milk, 10 gm of sugar, 15 gm of Coffee]" and a line break |
| BeverageBuilder.Scenario | DesignPattern/CreationalDesignPattern/BuilderDesignPattern.cs:241-253 | the two descriptions printed by the demo |
| SimpleFactory.GetCreditCard | DesignPattern/CreationalDesignPattern/FactoryDesignPattern.cs:74-90 | a card exactly for the case-sensitive keys "MoneyBack", "Titanium" and "Platinum", the one named by the key; null for everything else, null included |
| SimpleFactory.KeySelectsCard | DesignPattern/CreationalDesignPattern/FactoryDesignPattern.cs:74-90 | each card is produced by its key and by no other input |
| SimpleFactory.CardTypeIsKeyOnlyForMoneyBack | DesignPattern/CreationalDesignPattern/FactoryDesignPattern.cs:25-88 | a card's type name equals its factory key only for MoneyBack |
| SimpleFactory.FactoryMatchesInlineSelection | DesignPattern/CreationalDesignPattern/FactoryDesignPattern.cs:97-117 | the inline dispatch without the factory (`InlineSelection`) selects the same card as `GetCreditCard`, or none, for every input |
| SimpleFactory.DemoCard | DesignPattern/CreationalDesignPattern/FactoryDesignPattern.cs:150-157 | the demo key gives the MoneyBack card with limit 15000 and charge 500 |
| FactoryMethod.ProductsOfFactories | DesignPattern/CreationalDesignPattern/FactoryMethodDesignPattern.cs:69-101 | the template method `CreateProduct` returns what the factory's `MakeProduct` override makes, and each factory's product reports its fixed type name, limit and charge |
| FactoryMethod.FactoryPerCard | DesignPattern/CreationalDesignPattern/FactoryMethodDesignPattern.cs:78-101 | every card kind is produced by exactly one factory's `CreateProduct` |
| FluentInterface.ParseDate | DesignPattern/CreationalDesignPattern/FluentInterfaceDesignPattern.cs:38 | a parsed date is a real calendar date; null gives the minimum date; text of the wrong length is a format error |
| FluentInterface.PaddedValue | DesignPattern/CreationalDesignPattern/FluentInterfaceDesignPattern.cs:38 | zero-padded digits read back as the number |
| FluentInterface.ParseFormatDate | DesignPattern/CreationalDesignPattern/FluentInterfaceDesignPattern.cs:38 | every valid date written as MM/dd/yyyy parses back to itself |
| FluentInterface.FluentEmployee.NameOfTheEmployee | DesignPattern/CreationalDesignPattern/FluentInterfaceDesignPattern.cs:31-35 | sets only the full name of the wrapped employee and returns the same fluent object |
| FluentInterface.FluentEmployee.Born | DesignPattern/CreationalDesignPattern/FluentInterfaceDesignPattern.cs:36-40 | sets only the birth date when the text parses, and changes nothing when it throws |
| FluentInterface.FluentEmployee.WorkingOn | DesignPattern/CreationalDesignPattern/FluentInterfaceDesignPattern.cs:41-45 | sets only the department and returns the same fluent object |
| FluentInterface.FluentEmployee.StaysAt | DesignPattern/CreationalDesignPattern/FluentInterfaceDesignPattern.cs:46-50 | sets only the address and returns the same fluent object |
| FluentInterface.DemoDate | DesignPattern/CreationalDesignPattern/FluentInterfaceDesignPattern.cs:59 | "05/28/1994" is 28 May 1994 |
| FluentInterface.Scenario | DesignPattern/CreationalDesignPattern/FluentInterfaceDesignPattern.cs:57-61 | after the chain the one wrapped employee is Navjyot, born 28 May 1994, in IT, at Pune-India |
| DependencyInjection.EmployeeDal.SelectAllEmployees | DesignPattern/DependencyInjectionDesignPattern/DependencyInjection.cs:106-115 | exactly (1, Pranaya, IT), (2, Kumar, HR), (3, Rout, Payroll), in that order |
| DependencyInjection.EmployeeBLWithoutDI.GetAllEmployees | DesignPattern/DependencyInjectionDesignPattern/DependencyInjection.cs:20-24 | replaces the field with a new data-access object on every call and returns its list |
| DependencyInjection.EmployeeBLWithConstructorDI.constructor | DesignPattern/DependencyInjectionDesignPattern/DependencyInjection.cs:32-35 | keeps the injected object |
| DependencyInjection.EmployeeBLWithConstructorDI.GetAllEmployees | DesignPattern/DependencyInjectionDesignPattern/DependencyInjection.cs:36-39 | the injected object's list, or a null reference when none was injected |
| DependencyInjection.EmployeeBLWithPropertyDI.SetEmployeeDataObject | DesignPattern/DependencyInjectionDesignPattern/DependencyInjection.cs:60-63 | the setter stores its value in the private field |
| DependencyInjection.EmployeeBLWithPropertyDI.GetAllEmployees | DesignPattern/DependencyInjectionDesignPattern/DependencyInjection.cs:76-79 | reads the private field itself, so it is a null reference unless the setter ran |
| DependencyInjection.GetterNeverReturns | DesignPattern/DependencyInjectionDesignPattern/DependencyInjection.cs:64-74 | the `EmployeeDataObject` getter overflows the stack at any depth and whatever the field holds; its null check never runs |
| DependencyInjection.EmployeeBLWithMethodDI.GetAllEmployees | DesignPattern/DependencyInjectionDesignPattern/DependencyInjection.cs:92-96 | stores the argument in the public field and returns its list, or a null reference for a null argument |
| DependencyInjection.Scenario | DesignPattern/DependencyInjectionDesignPattern/DependencyInjection.cs:120-133 | the method-injected call in the demo returns the three hard-coded employees |

## Left out

- Console output is left out because it has no state or result. This covers `Console.WriteLine`/`Read`/`ReadKey`/`ReadLine`, `Report.DisplayReport`, `Singleton.PrintDetails`, `ThirdPartyBillingSystem.ProcessSalary`, the printing loops of the demos and `Program.cs`. A method whose only result is printed ends in a return value instead: the adapters return the converted list, and the translator demos return the reply.
- Entity Framework is a foreign library, so the `Context` object stands in for it. It records calls and holds rows. Change tracking, queries and persistence are not modelled.
- `SaveChanges` does not decide its own outcome in the model. That outcome, and the rows of any newly created context, are parameters.
- `CreateTransaction`, `Commit` and `Rollback` are left out. They only pass through to the transaction object.
- The `Activator.CreateInstance` reflection call is modelled, in `IntendedRepositoryFor` only, as "construct a repository bound to the unit of work's context". As written, `RepositoryFor` never reaches it: `MakeGenericType` throws first (see Findings).
- `Table` is left out. It only passes `Entities` through.
- The generic `T` is always `Employee`. An `EntityType` value carries the namespace and simple name that the cache keys on.
- The simple-repository `GetAll`/`GetById` are left out because they only pass through to Entity Framework. The unit-of-work ones are modelled.
- `BothGenericAndNonGeneric.GenericRepository` (lines 249-289) is one model, `BasicRepository.GenericRepository`. The same goes for the first unit-of-work `GenericRepository` (lines 348-388). Both have the body of lines 123-163, except that their `_context` and `table` fields are public rather than private. The model does not model field visibility, so the two copies are not told apart.
- The file does not compile: it declares two `GenericRepository<T>` classes in one namespace. The cache in the model holds the repository of lines 494-618.
- The `catch` blocks of the unit-of-work `Insert`, `Update` and `Delete` are left out. Their `try` bodies never call `SaveChanges`, so no validation exception can reach them. `BulkInsert`'s catch block is modelled.
- The controllers and their `Main` methods are left out, because their bodies are commented out.
- A null `PropertyName` or `ErrorMessage` in a validation error is not modelled. Both are always strings.
- `Convert.ToInt32`/`Convert.ToDecimal` accept only null, or an optional '-' followed by ASCII digits. They have no whitespace, sign '+', culture or fraction handling.
- The decimal salary is an unbounded integer.
- Overflow is a failure in both conversions: outside the 32-bit range for `Convert.ToInt32`, and beyond plus or minus 2^96 - 1 for `Convert.ToDecimal`.
- `Convert.ToDateTime` accepts only the `MM/dd/yyyy` form. Null gives `DateTime.MinValue`. Time of day and other cultures are not modelled.
- `InvariantCultureIgnoreCase` is ASCII case folding.
- `David`/`John.AnswerFortheQuestion` take a non-null string. Null words would throw a null reference there, which is not modelled.
- The translator's `AskQuestion` methods are modelled as `JohnAsks`/`DavidAsks` without their printing.
- Card objects are values. Their allocation and identity are not modelled, nor is that each `MakeProduct` call allocates a new card.
- `WithoutSealed.Singleton` (lines 9-31) is not modelled separately. It has the same code as the sealed singleton, which `SealedSingleton` models.
- Static-constructor timing is not modelled. `Pam`'s dictionaries are constants handed to the translator.
- `DependencyInjection.EmployeeDal`: the returned list and its `Employee` objects are values, so the model does not state that each call allocates a new list. Nothing in the source mutates them afterwards.
- DependencyInjection.EmployeeBLWithConstructorDI.GetAllEmployees, DependencyInjection.EmployeeBLWithMethodDI.GetAllEmployees, DependencyInjection.EmployeeBLWithPropertyDI.GetAllEmployees: the `IEmployeeDAL` interface (DependencyInjection.cs:99-102) is collapsed into its one implementation, `EmployeeDal`. So the injected object's list is stated only for that implementation, not for any other `IEmployeeDAL`.
- `DependencyInjection.EmployeeBLWithPropertyDI.EmployeeDataObject`: the getter's unbounded self-call is modelled with an explicit stack depth that runs out. The depth is the number of frames left.

## Findings

| source | as written | input that shows it | evidently intended | confidence | as-written member | corrected member |
|---|---|---|---|---|---|---|
| DesignPattern/StructuralDesignPattern/AdapterDesignPattern.cs:193 | the class adapter tests `j == 1` twice, so column 2 goes to the salary and `Designation` is never set | the row {"101","John","SE"} throws a format exception converting "SE"; a four-column row loses its designation | `j == 2`, as in the object adapter at line 96 | not executed | ClassAdapter.ThreeColumnRowThrows | ObjectAdapter.ConvertedColumns |
| DesignPattern/StructuralDesignPattern/AdapterDesignPattern.cs:313-314 | the French-English keys are mis-encoded as "Je suis trC(s bien" and "oC9 C*tes-vous?" | `new John().AskQuestion("how are you?")` fails looking up "Je suis très bien"; `new David().AskQuestion("où êtes-vous?")` fails looking up "où êtes-vous?" | the keys "Je suis très bien" and "où êtes-vous?" | not executed | Translator.DemoQuestionsFail | Translator.IntendedFrench |
| DesignPattern/RepositoryDesignPattern/RepositoryDesignPattern.cs:478-479 | `typeof(GenericRepository<T>)` is already a closed type, so `MakeGenericType(typeof(T))` throws `InvalidOperationException` before the repository is stored | `new UnitOfWork<EmployeeDBContext>().GenericRepository<Employee>()` throws, and so does every later request | `typeof(GenericRepository<>).MakeGenericType(typeof(T))`, the open generic type | not executed | UnitOfWorkRepository.EveryRequestFails | UnitOfWorkRepository.SameNameShared |
