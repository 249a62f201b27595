# Dynamic Scaffolder core in Dafny

Dynamic Scaffolder is a console tool that reads the fields of a C# enum
decorated with `Description` and `GetType` attributes. It turns each new
field into a front-end component row of a chosen tab and field group. It
also writes a SharpMigrations migration that adds one column per field to
`dbo.Movimento`. Component rows get their primary keys from a
Snowflake-style identifier generator.

This project models three parts of that tool:

- **The Snowflake identifier generator** (`Snowflake.dfy`, `Generator.dfy`,
  `Bits.dfy`).
  - The constructor validates the worker id and precomputes the masks and
    shifts.
  - `NextId` reads the clock, rejects a clock that moved backwards and bumps
    the in-millisecond sequence. When the sequence wraps it waits for the
    next millisecond, then packs `(timestamp - epoch)`, the worker id and the
    sequence into one identifier with shifts and ORs.
  - `Snowflake` describes one call (`Step`) and a series of calls (`Run`) as
    functions on values, with the packing and decoding lemmas.
  - `Generator.SnowflakeGenerator` is the object with its two mutable fields.
    Its `NextId` is proved to agree with `Step`.
  - The bitwise operators on non-negative integers are in `Bits`.
- **The migration generator** (`MigrationGenerator.dfy`).
  - It maps a component type to a column factory call.
  - It builds the migration class line by line in a string builder, with one
    loop for the `Add.Column` lines of `Up()` and one for the
    `Remove.Column` lines of `Down()`.
  - The method is proved equal to a pure description of the file. Further
    lemmas state what the file says: each column is added once in `Up()` and
    removed once in `Down()`, in order, and each column expression reads back
    as its factory and column name.
- **The scaffolding pass** (`MigrationService.dfy`).
  - It skips fields without both attributes, and fields whose component
    (by reference model, the name with its first letter lower-cased) or
    column already exists.
  - It picks each new component's group: the user's group, except that a
    date on the `ANOTACAO` tab goes into the first group named `Datas`, and
    the pass fails without one.
  - It numbers the components of each group consecutively after the
    group's current maximum `Ordem`.
  - It collects the columns and generates the migration when there is at
    least one.

`Enums.dfy` holds the component type enum and `Wrappers.dfy` the `Option` and
`Result` types.

## Model

| member | source | states |
|---|---|---|
| Snowflake.Configure | SnowFlakeConfig/SnowflakeGenerator.cs:15-29 | construction succeeds exactly when 0 <= id <= 2^generatorIdBits - 1; the layout holds the worker id, the epoch, maxWorkerId = 2^generatorIdBits - 1, maxSequence = 2^sequenceBits - 1, workerIdShift = sequenceBits, timestampShift = generatorIdBits + sequenceBits; the error carries maxWorkerId |
| Generator.SnowflakeGenerator.constructor | SnowFlakeConfig/SnowflakeGenerator.cs:11-12 | a new generator starts with sequence 0 and the sentinel lastTimestamp -1 over the given layout |
| Generator.SnowflakeGenerator.Create | SnowFlakeConfig/SnowflakeGenerator.cs:15-29 | construction fails exactly when the worker id is out of range, with the error Configure gives; otherwise a fresh valid generator in its initial state |
| Snowflake.PackIsSum | SnowFlakeConfig/SnowflakeGenerator.cs:50 | the three shifted fields do not overlap, so OR-ing them equals adding them |
| Snowflake.DecodePack | SnowFlakeConfig/SnowflakeGenerator.cs:50 | an identifier decodes back to the timestamp delta, the worker id and the sequence it was packed from |
| Snowflake.DistinctWorkersNeverCollide | SnowFlakeConfig/SnowflakeGenerator.cs:50 | generators with the same shifts and different worker ids never produce the same identifier |
| Snowflake.ComposeMonotone | SnowFlakeConfig/SnowflakeGenerator.cs:50 | a later (timestamp, sequence) pair in lexicographic order gives a strictly larger identifier |
| Snowflake.PackFitsInLong | SnowFlakeConfig/SnowflakeGenerator.cs:50 | with a timestamp delta below 2^(63 - timestampShift) the identifier is below 2^63, so it fits a non-negative long |
| Snowflake.NextMillisecond | SnowFlakeConfig/SnowflakeGenerator.cs:42 | the wait loop ends on the first reading past lastTimestamp: the result is that reading, and every reading before it is at most lastTimestamp |
| Snowflake.Step | SnowFlakeConfig/SnowflakeGenerator.cs:35-50 | a call fails exactly when the clock reading is before lastTimestamp; on success the new sequence is within maxSequence and the new timestamp is not before the reading |
| Snowflake.ClockBeforeEpochFails | SnowFlakeConfig/SnowflakeGenerator.cs:36 | a reading before the epoch while lastTimestamp is not is an admissible call, and it fails with ClockMovedBackwards |
| Snowflake.StepAdvances | SnowFlakeConfig/SnowflakeGenerator.cs:35-49 | every successful call moves (lastTimestamp, sequence) strictly forward in lexicographic order |
| Snowflake.StepSameMillisecond | SnowFlakeConfig/SnowflakeGenerator.cs:37-44 | in the same millisecond the sequence becomes (sequence + 1) mod (maxSequence + 1); below the maximum the timestamp stays and the sequence goes up by one; at the maximum the sequence wraps to 0 and the timestamp moves past the old one |
| Snowflake.StepNewMillisecond | SnowFlakeConfig/SnowflakeGenerator.cs:45-50 | a reading after lastTimestamp resets the sequence to 0 and returns the identifier of that reading with sequence 0 |
| Snowflake.StepEncodesState | SnowFlakeConfig/SnowflakeGenerator.cs:49-50 | the returned identifier decodes to the new lastTimestamp minus the epoch, this worker id and the new sequence |
| Snowflake.StepIdIncreases | SnowFlakeConfig/SnowflakeGenerator.cs:35-50 | a successful call returns an identifier larger than the identifier of the state it started from |
| Snowflake.RunIncreases | SnowFlakeConfig/SnowflakeGenerator.cs:31-52 | the identifiers of any series of calls on one generator strictly increase, and all exceed the identifier of the starting state |
| Snowflake.RunDecodes | SnowFlakeConfig/SnowflakeGenerator.cs:31-52 | every identifier of a series of calls carries this generator's worker id and a sequence within range |
| Generator.SnowflakeGenerator.NextId | SnowFlakeConfig/SnowflakeGenerator.cs:31-52 | fails exactly when the clock reading is before lastTimestamp, and then changes nothing; on success the state moves strictly forward and the identifier decodes to the new state; result and new state agree with Step |
| Bits.OrDisjoint | SnowFlakeConfig/SnowflakeGenerator.cs:50 | OR of a value shifted left by k and a value below 2^k is their sum |
| Bits.AndLowMask | SnowFlakeConfig/SnowflakeGenerator.cs:39 | AND with 2^k - 1 keeps the value modulo 2^k |
| MigrationGenerator.SharpTypeOf | Services/Impl/SharpMigrationGenerator.cs:59-79 | Text maps to AnsiString, DateTime to DateTime, Check to Boolean, Number and Money to Decimal, Integer and LookUp to Int64, and every other value to String, each as an if-and-only-if |
| MigrationGenerator.FactoryNameRoundTrip | Services/Impl/SharpMigrationGenerator.cs:64-76 | every factory name reads back as its factory and contains no parenthesis or quote |
| MigrationGenerator.ParseMapComponentType | Services/Impl/SharpMigrationGenerator.cs:59-79 | a column expression reads back as the factory of the column's type and the column's name |
| MigrationGenerator.AddLines | Services/Impl/SharpMigrationGenerator.cs:32-36 | one Add.Column line per column, the i-th line for the i-th column |
| MigrationGenerator.RemoveLines | Services/Impl/SharpMigrationGenerator.cs:43-46 | one Remove.Column line per column, the i-th line for the i-th column |
| MigrationGenerator.Migration | Services/Impl/SharpMigrationGenerator.cs:10-57 | there is no file exactly when there are no columns; otherwise the file name is Migracao_<timestamp>_AlterTable_Movimento.cs |
| MigrationGenerator.StringBuilder.constructor | Services/Impl/SharpMigrationGenerator.cs:17 | a new builder holds no lines and the empty text |
| MigrationGenerator.StringBuilder.AppendLine | Services/Impl/SharpMigrationGenerator.cs:21-49 | appending a line adds it and a line break to the text, and adds it to the lines written so far |
| MigrationGenerator.AppendAddColumns | Services/Impl/SharpMigrationGenerator.cs:32-36 | the Up() loop appends exactly the Add.Column lines of the columns, in order |
| MigrationGenerator.AppendRemoveColumns | Services/Impl/SharpMigrationGenerator.cs:43-46 | the Down() loop appends exactly the Remove.Column lines of the columns, in order |
| MigrationGenerator.GenerateAddColumnsMigration | Services/Impl/SharpMigrationGenerator.cs:10-57 | the text built line by line is the Migration file: nothing for no columns, otherwise the header, the Add lines, the Down() header, the Remove lines and the footer |
| MigrationGenerator.AddLinesAreTheColumns | Services/Impl/SharpMigrationGenerator.cs:29-37 | the Add.Column lines of the whole file are exactly the columns' lines in column order; the fixed lines hold none |
| MigrationGenerator.RemoveLinesAreTheColumns | Services/Impl/SharpMigrationGenerator.cs:40-47 | the Remove.Column lines of the whole file are exactly the columns' lines in column order; the fixed lines hold none |
| MigrationGenerator.UpAndDownNameTheSameColumns | Services/Impl/SharpMigrationGenerator.cs:32-46 | the i-th Add.Column line and the i-th Remove.Column line quote the same column name, that of the i-th column |
| MigrationService.FirstNamed | Services/Impl/MigrationService.cs:160 | no result exactly when no group has the name; otherwise the first group that has it |
| MigrationService.GroupToBeInserted | Services/Impl/MigrationService.cs:155-165 | outside a date on ANOTACAO the user's group; for a date on ANOTACAO fails exactly when no group is named Datas, and otherwise gives the first group named Datas |
| MigrationService.ToLowerInvariant | Services/Impl/MigrationService.cs:97 | an upper-case ASCII letter becomes its lower-case letter (code + 32); every other character is unchanged |
| MigrationService.ReferenceModel | Services/Impl/MigrationService.cs:97 | same length and same characters after the first; the first is lower-cased, so a name not starting upper-case is its own reference model |
| MigrationService.ReferenceModelIdempotent | Services/Impl/MigrationService.cs:97 | deriving the reference model twice gives the same as once |
| MigrationService.SameReferenceModel | Services/Impl/MigrationService.cs:97 | two names share a reference model exactly when they agree after the first character and their first characters lower-case alike |
| MigrationService.KeptEligible | Services/Impl/MigrationService.cs:90-109 | every field that gets a component has both attributes, and neither its component nor its column existed |
| MigrationService.KeptCovers | Services/Impl/MigrationService.cs:99-103 | every eligible field is claimed by a field kept up to and including its own position: it gets a component, or an earlier kept field took its reference model; hence the kept fields of the whole pass claim it |
| MigrationService.KeptDistinct | Services/Impl/MigrationService.cs:99-103 | no two components saved in one pass share a reference model |
| MigrationService.KeepStep | Services/Impl/MigrationService.cs:92-109 | a field gets a component exactly when it is eligible and no row saved so far in the pass has its reference model |
| MigrationService.OrdersConsecutive | Services/Impl/MigrationService.cs:114-120 | the Ordem numbers given in one group are max+1, max+2, ... in row order, without gaps or repeats |
| MigrationService.Bumped | Services/Impl/MigrationService.cs:114-119 | the group's counter is seeded with the database maximum if absent, then incremented; the other counters are unchanged and the key set gains only the group |
| MigrationService.CountersStep | Services/Impl/MigrationService.cs:114-120 | after one more row, each counter is its group's maximum plus the number of its rows, and the new row's number is that counter |
| MigrationService.NextOrder | Services/Impl/MigrationService.cs:114-120 | the counters after one more row in the group, and the new row's number, as Bumped gives them |
| MigrationService.ProcessedStep | Services/Impl/MigrationService.cs:111-137 | saving one more field with the next number of its group keeps rows, columns, numbering and counters in step with the kept fields |
| MigrationService.FailingFieldKept | Services/Impl/MigrationService.cs:111 | a date field on ANOTACAO that gets a component while no group is named Datas makes the whole pass fail |
| MigrationService.SaveComponent | Services/Impl/MigrationService.cs:111-137 | fails exactly when the group lookup fails; otherwise one row and one column are appended, and the pass state stays consistent with one more kept field; the clock-regression failure of NextId is not modelled |
| MigrationService.SaveComponents | Services/Impl/MigrationService.cs:90-139 | fails exactly on ANOTACAO with no Datas group and a date among the kept fields; otherwise one row and one column per kept field, in field order, each row with the field's description, reference model, tab, target group and type, numbered consecutively per group; the clock-regression failure of NextId is not modelled |
| MigrationService.ProcessComponents | Services/Impl/MigrationService.cs:76-153 | the loop's outcome, plus a migration for dbo.Movimento exactly when some field was kept, equal to the migration of the collected columns; the clock-regression failure of NextId is not modelled |

## Left out

- The lock around `NextId` and `Thread.SpinWait` are not modelled: there is no concurrency in the model, and one call is one atomic step.
- The wall clock is a parameter: each call receives the readings it makes, the first one and those of the wait loop. The conversion of the epoch `DateTime` to Unix milliseconds is not modelled; the epoch is already in milliseconds.
- Generator.SnowflakeGenerator.NextId: a call whose first reading is not before lastTimestamp, and so does not fail, must have that reading not before the epoch, because the identifier is an unbounded non-negative integer. The C# code would compute a negative delta in 64-bit arithmetic. A reading before lastTimestamp fails whether or not it precedes the epoch. The method also requires that a later reading passes lastTimestamp when the sequence wraps, because the C# loop would otherwise spin forever.
- Snowflake.Step: same two requirements as NextId, for the same reasons.
- 64-bit overflow of the identifier and C#'s masking of shift counts to six bits are not modelled: identifiers are unbounded. PackFitsInLong gives the bound under which the identifier fits.
- The constructor does not check that the bit widths add up to 64 or that the epoch is in the past. The model follows the code, which checks only the worker id; `timestampBits` is carried but never read.
- A clock-regression error does not put the generator into a terminal failed state. The model follows the code: the failed call changes nothing, and later calls behave normally.
- `AppendLine` writes `Environment.NewLine`; the model ends lines with "\n".
- The migration file write and its output directory are not modelled; the method returns the file name and the text. `DateTime.Now` is a timestamp parameter.
- MigrationGenerator.ParseMapComponentType: holds for column names without a double quote, because the C# code does not escape quotes. Enum field names are C# identifiers and never contain one.
- The database is not modelled. The component repository, connection factory and transaction are replaced by three functions: component exists, column exists and group maximum. Existence queries also see rows saved earlier in the same pass, as they would inside the one transaction. Commit and rollback are modelled only as the pass's success or failure.
- The tab lookup prompt loop and the group choice of `RunAsync` are not modelled, nor the console UI and its log messages. The tab, its key, its groups and the chosen group are parameters.
- Reflection over the enum is replaced by a list of field records: name, `Description` text and `GetType` value, each attribute possibly absent.
- MigrationService.SaveComponents: its failure condition leaves out the clock-regression failure of the `NextId` call that draws each saved row's id, because the ids are not drawn in this model. In the C# code that exception also aborts the pass and rolls it back.
- MigrationService.SaveComponent: fails only on the group lookup; the clock-regression failure of the row's `NextId` call is not modelled, for the same reason.
- MigrationService.ProcessComponents: inherits the failure condition of SaveComponents, so a clock regression during the pass is not a failure cause here either.
- MigrationService.KeepStep: a component saved earlier in the pass is matched by exact equality of its reference model. The database compares `ReferenciaModel` under its collation, which may ignore case or accents. The pre-existing components are a parameter, so their comparison is whatever that function says.
- The `Id` and `Chave` columns of a saved component are not modelled: its Snowflake id and its `StringHelper.RandomString` key. `StringHelper` is not part of this model. `Nome`, `Descricao`, `Aria` and `Help` all hold the description and are one field of the row.
- 32-bit overflow of the `Ordem` counter is not modelled: counters are unbounded integers.
- `char.ToLowerInvariant` is modelled for the ASCII letters only. Other characters keep their case.
- The `targetGroup.Name!` in the log message is not modelled, since the UI is left out.
- The loop body of `ProcessarComponentes` is split across SaveComponents, SaveComponent and NextOrder. The two string-builder loops are the methods AppendAddColumns and AppendRemoveColumns. The steps and their order are those of the C# code.
