/**
  The text of a SharpMigrations schema migration that adds a set of columns
  to a table in `Up()` and removes them again in `Down()`. The timestamp that
  names the migration class is a parameter; the file write is not modelled,
  so the result is the file name together with the text that would be
  written. Lines end in "\n".
*/
module MigrationGenerator {
  import opened Wrappers
  import Enums

  datatype ColumnDefinition = ColumnDefinition(name: string, componentType: Enums.ComponentType)

  /** The column factories of the generated code, `Column.<factory>(...)`. */
  datatype SharpType = AnsiString | DateTime | Boolean | Decimal | Int64 | String

  // ---------------------------------------------------------------------------
  // One column

  /** The factory a component type is stored with. */
  function SharpTypeOf(t: Enums.ComponentType): (k: SharpType)
    ensures k == AnsiString <==> t == Enums.Text
    ensures k == DateTime <==> t == Enums.DateTime
    ensures k == Boolean <==> t == Enums.Check
    ensures k == Decimal <==> t == Enums.Number || t == Enums.Money
    ensures k == Int64 <==> t == Enums.Integer || t == Enums.LookUp
    ensures k == String <==> !Enums.IsNamed(t)
  {
    if t == Enums.Text then AnsiString
    else if t == Enums.DateTime then DateTime
    else if t == Enums.Check then Boolean
    else if t == Enums.Number || t == Enums.Money then Decimal
    else if t == Enums.Integer || t == Enums.LookUp then Int64
    else String
  }

  function FactoryName(k: SharpType): string
  {
    match k
    case AnsiString => "AnsiString"
    case DateTime => "DateTime"
    case Boolean => "Boolean"
    case Decimal => "Decimal"
    case Int64 => "Int64"
    case String => "String"
  }

  /** The arguments after the quoted column name: a length of 255 for the two string factories. */
  function Arguments(k: SharpType): string
  {
    if k == AnsiString || k == String then ", 255)" else ")"
  }

  /**
    The column expression the generated `Add.Column(...)` receives: the factory
    call with the column name in quotes, `Column.AnsiString("<name>", 255)`,
    `Column.DateTime("<name>")`, and so on.
  */
  function MapComponentTypeToSqlType(c: ColumnDefinition): string
  {
    var k := SharpTypeOf(c.componentType);
    "Column." + FactoryName(k) + "(" + Quoted(c.name) + Arguments(k)
  }

  /** A C# string literal without escapes: the text in double quotes. */
  function Quoted(s: string): string
  {
    "\"" + s + "\""
  }

  // ---------------------------------------------------------------------------
  // Reading a column expression back

  /** The first index from `from` on where `c` occurs in `s`. */
  function IndexOf(s: string, c: char, from: nat): (r: Option<nat>)
    ensures r.Some? ==> from <= r.value < |s| && s[r.value] == c &&
                        forall k :: from <= k < r.value ==> s[k] != c
    ensures r.None? ==> forall k :: from <= k < |s| ==> s[k] != c
    decreases |s| - from
  {
    if from >= |s| then None
    else if s[from] == c then Some(from)
    else IndexOf(s, c, from + 1)
  }

  /** The text between the first two double quotes of `s`. */
  function QuotedName(s: string): Option<string>
  {
    match IndexOf(s, '"', 0)
    case None => None
    case Some(i) =>
      match IndexOf(s, '"', i + 1)
      case None => None
      case Some(j) => Some(s[i + 1..j])
  }

  function SharpTypeNamed(name: string): Option<SharpType>
  {
    if name == "AnsiString" then Some(AnsiString)
    else if name == "DateTime" then Some(DateTime)
    else if name == "Boolean" then Some(Boolean)
    else if name == "Decimal" then Some(Decimal)
    else if name == "Int64" then Some(Int64)
    else if name == "String" then Some(String)
    else None
  }

  /** The factory and column name a column expression `Column.<factory>("<name>"...` mentions. */
  function ParseColumnDefinition(def: string): Option<(SharpType, string)>
  {
    if !("Column." <= def) then None
    else match IndexOf(def, '(', 7)
      case None => None
      case Some(j) =>
        match (SharpTypeNamed(def[7..j]), QuotedName(def))
        case (Some(k), Some(name)) => Some((k, name))
        case _ => None
  }

  lemma {:induction false} IndexOfIs(s: string, c: char, from: nat, i: nat)
    requires from <= i < |s| && s[i] == c
    requires forall k :: from <= k < i ==> s[k] != c
    ensures IndexOf(s, c, from) == Some(i)
    decreases i - from
  {
    if from < i {
      IndexOfIs(s, c, from + 1, i);
    }
  }

  /** A name between quotes, behind a prefix without quotes, is the quoted name. */
  lemma QuotedNameAfter(p: string, name: string, q: string)
    requires '"' !in p && '"' !in name
    ensures QuotedName(p + Quoted(name) + q) == Some(name)
  {
    var s := p + Quoted(name) + q;
    var i, j := |p|, |p| + 1 + |name|;
    assert s[i] == '"' && s[j] == '"';
    forall k | 0 <= k < i ensures s[k] != '"' {
      assert s[k] == p[k];
    }
    IndexOfIs(s, '"', 0, i);
    forall k | i + 1 <= k < j ensures s[k] != '"' {
      assert s[k] == name[k - i - 1];
    }
    IndexOfIs(s, '"', i + 1, j);
    assert s[i + 1..j] == name;
  }

  /** Every factory name is read back as its factory, and holds no parenthesis or quote. */
  lemma FactoryNameRoundTrip(k: SharpType)
    ensures SharpTypeNamed(FactoryName(k)) == Some(k)
    ensures '(' !in FactoryName(k) && '"' !in FactoryName(k)
  {
  }

  /** A factory call `Column.<f>("<name>"<args>` reads back as the factory `f` names and `name`. */
  lemma ParseFactoryCall(f: string, k: SharpType, name: string, args: string)
    requires SharpTypeNamed(f) == Some(k)
    requires '(' !in f && '"' !in f && '"' !in name
    ensures ParseColumnDefinition("Column." + f + "(" + Quoted(name) + args) == Some((k, name))
  {
    var head := "Column." + f;
    var def := head + "(" + Quoted(name) + args;
    assert def[..7] == "Column.";
    forall i | 7 <= i < |head| ensures def[i] != '(' {
      assert def[i] == f[i - 7];
    }
    assert def[|head|] == '(';
    IndexOfIs(def, '(', 7, |head|);
    assert def[7..|head|] == f;
    assert def == (head + "(") + Quoted(name) + args;
    QuotedNameAfter(head + "(", name, args);
  }

  /** Reading a column expression back gives the factory and the column name it was made from. */
  lemma ParseMapComponentType(c: ColumnDefinition)
    requires '"' !in c.name
    ensures ParseColumnDefinition(MapComponentTypeToSqlType(c)) == Some((SharpTypeOf(c.componentType), c.name))
  {
    var k := SharpTypeOf(c.componentType);
    FactoryNameRoundTrip(k);
    ParseFactoryCall(FactoryName(k), k, c.name, Arguments(k));
  }

  // ---------------------------------------------------------------------------
  // The migration file

  function ClassName(timestamp: string): string
  {
    "Migracao_" + timestamp + "_AlterTable_Movimento"
  }

  /** The start of a line of `Up()` that adds a column, indented by eight spaces. */
  const AddPrefix := "        Add.Column("

  /** The start of a line of `Down()` that removes a column, indented by eight spaces. */
  const RemovePrefix := "        Remove.Column("

  function AddColumnLine(tableName: string, c: ColumnDefinition): string
  {
    AddPrefix + MapComponentTypeToSqlType(c) + ").ToTable(" + Quoted(tableName) + ");"
  }

  function RemoveColumnLine(tableName: string, c: ColumnDefinition): string
  {
    RemovePrefix + Quoted(c.name) + ").FromTable(" + Quoted(tableName) + ");"
  }

  /** One `Add.Column` line per column, in column order. */
  function AddLines(tableName: string, columns: seq<ColumnDefinition>): (r: seq<string>)
    ensures |r| == |columns|
    ensures forall i :: 0 <= i < |columns| ==> r[i] == AddColumnLine(tableName, columns[i])
  {
    if columns == [] then []
    else AddLines(tableName, columns[..|columns| - 1]) + [AddColumnLine(tableName, columns[|columns| - 1])]
  }

  /** One `Remove.Column` line per column, in column order. */
  function RemoveLines(tableName: string, columns: seq<ColumnDefinition>): (r: seq<string>)
    ensures |r| == |columns|
    ensures forall i :: 0 <= i < |columns| ==> r[i] == RemoveColumnLine(tableName, columns[i])
  {
    if columns == [] then []
    else RemoveLines(tableName, columns[..|columns| - 1]) + [RemoveColumnLine(tableName, columns[|columns| - 1])]
  }

  function Header(className: string): seq<string>
  {
    ["using SharpData.Filters;", "using SharpMigrations;", "",
     "namespace MPS.FolhaMais.Migracoes;", "",
     "public class " + className + " : SchemaMigration", "{",
     "    public override void Up()", "    {"]
  }

  const BetweenUpAndDown: seq<string> := ["    }", "", "    public override void Down()", "    {"]

  const Footer: seq<string> := ["    }", "}"]

  /** The lines of the migration class, in order. */
  function MigrationLines(tableName: string, columns: seq<ColumnDefinition>, timestamp: string): seq<string>
  {
    Header(ClassName(timestamp)) + AddLines(tableName, columns) + BetweenUpAndDown
      + RemoveLines(tableName, columns) + Footer
  }

  /** The text a string builder holds after appending each line and a line break. */
  function Text(lines: seq<string>): string
  {
    if lines == [] then "" else Text(lines[..|lines| - 1]) + lines[|lines| - 1] + "\n"
  }

  datatype MigrationFile = MigrationFile(fileName: string, content: string)

  /** What the generator produces: nothing for no columns, otherwise the class file. */
  function Migration(tableName: string, columns: seq<ColumnDefinition>, timestamp: string): (r: Option<MigrationFile>)
    ensures r.None? <==> columns == []
    ensures r.Some? ==> r.value.fileName == "Migracao_" + timestamp + "_AlterTable_Movimento.cs"
  {
    if columns == [] then None
    else Some(MigrationFile(ClassName(timestamp) + ".cs", Text(MigrationLines(tableName, columns, timestamp))))
  }

  lemma TextAppend(lines: seq<string>, line: string)
    ensures Text(lines + [line]) == Text(lines) + line + "\n"
  {
    assert (lines + [line])[..|lines|] == lines;
  }

  /** A string builder that is only ever appended to line by line. */
  class StringBuilder {
    var text: string
    ghost var lines: seq<string>

    ghost predicate Valid()
      reads this
    {
      text == Text(lines)
    }

    constructor ()
      ensures Valid() && lines == []
    {
      text := "";
      lines := [];
    }

    method AppendLine(line: string)
      requires Valid()
      modifies this
      ensures Valid() && lines == old(lines) + [line]
    {
      TextAppend(lines, line);
      text := text + line + "\n";
      lines := lines + [line];
    }
  }

  /**
    Four single-line appends are one append of the four lines; as a lemma it
    keeps the string contents out of the sequence reasoning of the caller.
  */
  lemma AppendedFour<T>(xs: seq<T>, ys: seq<T>)
    requires |ys| == 4
    ensures xs + [ys[0]] + [ys[1]] + [ys[2]] + [ys[3]] == xs + ys
  {
  }

  /** Two single-line appends are one append of the two lines. */
  lemma AppendedTwo<T>(xs: seq<T>, ys: seq<T>)
    requires |ys| == 2
    ensures xs + [ys[0]] + [ys[1]] == xs + ys
  {
  }

  /** The `Up()` loop: one `Add.Column` line per column. */
  method AppendAddColumns(sb: StringBuilder, tableName: string, columns: seq<ColumnDefinition>)
    requires sb.Valid()
    modifies sb
    ensures sb.Valid() && sb.lines == old(sb.lines) + AddLines(tableName, columns)
  {
    ghost var before := sb.lines;
    for i := 0 to |columns|
      invariant sb.Valid()
      invariant |sb.lines| == |before| + i && sb.lines[..|before|] == before
      invariant forall k :: 0 <= k < i ==> sb.lines[|before| + k] == AddColumnLine(tableName, columns[k])
    {
      ghost var prev := sb.lines;
      var columnDefinition := MapComponentTypeToSqlType(columns[i]);
      sb.AppendLine(AddPrefix + columnDefinition + ").ToTable(" + Quoted(tableName) + ");");
      forall k | 0 <= k < i + 1
        ensures sb.lines[|before| + k] == AddColumnLine(tableName, columns[k])
      {
        if k < i {
          assert sb.lines[|before| + k] == prev[|before| + k];
        }
      }
    }
    assert sb.lines == before + AddLines(tableName, columns);
  }

  /** The `Down()` loop: one `Remove.Column` line per column. */
  method AppendRemoveColumns(sb: StringBuilder, tableName: string, columns: seq<ColumnDefinition>)
    requires sb.Valid()
    modifies sb
    ensures sb.Valid() && sb.lines == old(sb.lines) + RemoveLines(tableName, columns)
  {
    ghost var before := sb.lines;
    for i := 0 to |columns|
      invariant sb.Valid()
      invariant |sb.lines| == |before| + i && sb.lines[..|before|] == before
      invariant forall k :: 0 <= k < i ==> sb.lines[|before| + k] == RemoveColumnLine(tableName, columns[k])
    {
      ghost var prev := sb.lines;
      sb.AppendLine(RemovePrefix + Quoted(columns[i].name) + ").FromTable(" + Quoted(tableName) + ");");
      forall k | 0 <= k < i + 1
        ensures sb.lines[|before| + k] == RemoveColumnLine(tableName, columns[k])
      {
        if k < i {
          assert sb.lines[|before| + k] == prev[|before| + k];
        }
      }
    }
    assert sb.lines == before + RemoveLines(tableName, columns);
  }

  /**
    Builds the migration text as the C# code does, appending to a string
    builder line by line, with one loop over the columns for `Up()` and one
    for `Down()`. Returns None (the C# code returns the empty string and
    writes nothing) when there are no columns.
  */
  method GenerateAddColumnsMigration(tableName: string, columns: seq<ColumnDefinition>, timestamp: string)
    returns (r: Option<MigrationFile>)
    ensures r == Migration(tableName, columns, timestamp)
  {
    if |columns| == 0 {
      return None;
    }
    var sb := new StringBuilder();
    var className := ClassName(timestamp);

    sb.AppendLine("using SharpData.Filters;");
    sb.AppendLine("using SharpMigrations;");
    sb.AppendLine("");
    sb.AppendLine("namespace MPS.FolhaMais.Migracoes;");
    sb.AppendLine("");
    sb.AppendLine("public class " + className + " : SchemaMigration");
    sb.AppendLine("{");

    sb.AppendLine("    public override void Up()");
    sb.AppendLine("    {");
    assert sb.lines == Header(className);
    AppendAddColumns(sb, tableName, columns);
    ghost var up := sb.lines;
    sb.AppendLine("    }");
    sb.AppendLine("");

    sb.AppendLine("    public override void Down()");
    sb.AppendLine("    {");
    AppendedFour(up, BetweenUpAndDown);
    AppendRemoveColumns(sb, tableName, columns);
    ghost var down := sb.lines;
    sb.AppendLine("    }");

    sb.AppendLine("}");
    AppendedTwo(down, Footer);
    assert sb.lines == MigrationLines(tableName, columns, timestamp);

    var fileName := className + ".cs";
    r := Some(MigrationFile(fileName, sb.text));
  }

  // ---------------------------------------------------------------------------
  // What the migration text says

  predicate IsAddLine(line: string)
  {
    AddPrefix <= line
  }

  predicate IsRemoveLine(line: string)
  {
    RemovePrefix <= line
  }

  /** A line with something other than a space within its first eight characters is no column line. */
  lemma Unindented(line: string, k: nat)
    requires k < 8 && (k >= |line| || line[k] != ' ')
    ensures !IsAddLine(line) && !IsRemoveLine(line)
  {
    assert AddPrefix[k] == ' ' && RemovePrefix[k] == ' ';
  }

  /** The fixed lines around the two column lists are not column lines. */
  lemma FrameLines(className: string)
    ensures forall line :: line in Header(className) + BetweenUpAndDown + Footer ==>
      !IsAddLine(line) && !IsRemoveLine(line)
  {
    var h := Header(className);
    Unindented(h[0], 0);
    Unindented(h[1], 0);
    Unindented(h[2], 0);
    Unindented(h[3], 0);
    Unindented(h[4], 0);
    assert h[5][0] == 'p';
    Unindented(h[5], 0);
    Unindented(h[6], 0);
    Unindented(h[7], 4);
    Unindented(h[8], 4);
    Unindented(BetweenUpAndDown[0], 4);
    Unindented(BetweenUpAndDown[1], 0);
    Unindented(BetweenUpAndDown[2], 4);
    Unindented(BetweenUpAndDown[3], 4);
    Unindented(Footer[0], 4);
    Unindented(Footer[1], 0);
  }

  lemma ColumnLinesKind(tableName: string, c: ColumnDefinition)
    ensures IsAddLine(AddColumnLine(tableName, c)) && !IsRemoveLine(AddColumnLine(tableName, c))
    ensures IsRemoveLine(RemoveColumnLine(tableName, c)) && !IsAddLine(RemoveColumnLine(tableName, c))
  {
    var add, remove := AddColumnLine(tableName, c), RemoveColumnLine(tableName, c);
    assert add[..|AddPrefix|] == AddPrefix;
    assert remove[..|RemovePrefix|] == RemovePrefix;
    assert add[8] == 'A' && RemovePrefix[8] == 'R';
    assert remove[8] == 'R' && AddPrefix[8] == 'A';
  }

  /** The lines that satisfy `p`, in order. */
  function Select(lines: seq<string>, p: string -> bool): (r: seq<string>)
    ensures |r| <= |lines|
  {
    if lines == [] then []
    else Select(lines[..|lines| - 1], p) + (if p(lines[|lines| - 1]) then [lines[|lines| - 1]] else [])
  }

  lemma {:induction false} SelectAppend(xs: seq<string>, ys: seq<string>, p: string -> bool)
    ensures Select(xs + ys, p) == Select(xs, p) + Select(ys, p)
    decreases |ys|
  {
    if ys != [] {
      var n := |ys| - 1;
      var zs := xs + ys;
      assert zs[..|zs| - 1] == xs + ys[..n];
      assert zs[|zs| - 1] == ys[n];
      var last := if p(ys[n]) then [ys[n]] else [];
      SelectAppend(xs, ys[..n], p);
      assert Select(zs, p) == Select(xs + ys[..n], p) + last;
      assert Select(ys, p) == Select(ys[..n], p) + last;
      assert Select(zs, p) == Select(xs, p) + (Select(ys[..n], p) + last);
    } else {
      assert xs + ys == xs;
    }
  }

  lemma {:induction false} SelectAll(lines: seq<string>, p: string -> bool)
    requires forall i :: 0 <= i < |lines| ==> p(lines[i])
    ensures Select(lines, p) == lines
  {
    if lines != [] {
      SelectAll(lines[..|lines| - 1], p);
    }
  }

  lemma {:induction false} SelectNone(lines: seq<string>, p: string -> bool)
    requires forall i :: 0 <= i < |lines| ==> !p(lines[i])
    ensures Select(lines, p) == []
  {
    if lines != [] {
      SelectNone(lines[..|lines| - 1], p);
    }
  }

  lemma SelectBetween(header: seq<string>, adds: seq<string>, middle: seq<string>, removes: seq<string>,
                      footer: seq<string>, p: string -> bool)
    requires Select(header, p) == [] && Select(middle, p) == [] && Select(footer, p) == []
    ensures Select(header + adds + middle + removes + footer, p) == Select(adds, p) + Select(removes, p)
  {
    var sa, sr := Select(adds, p), Select(removes, p);
    SelectAppend(header, adds, p);
    assert Select(header + adds, p) == sa;
    SelectAppend(header + adds, middle, p);
    assert Select(header + adds + middle, p) == sa;
    SelectAppend(header + adds + middle, removes, p);
    assert Select(header + adds + middle + removes, p) == sa + sr;
    SelectAppend(header + adds + middle + removes, footer, p);
  }

  lemma SelectNoneIn(lines: seq<string>, p: string -> bool, frame: seq<string>)
    requires forall line :: line in frame ==> !p(line)
    requires forall line :: line in lines ==> line in frame
    ensures Select(lines, p) == []
  {
    forall i | 0 <= i < |lines| ensures !p(lines[i]) {
      assert lines[i] in lines;
    }
    SelectNone(lines, p);
  }

  /** Selecting column lines from the whole file selects them from the two column lists only. */
  lemma SelectFromMigration(tableName: string, columns: seq<ColumnDefinition>, timestamp: string, p: string -> bool)
    requires forall line :: line in Header(ClassName(timestamp)) + BetweenUpAndDown + Footer ==> !p(line)
    ensures Select(MigrationLines(tableName, columns, timestamp), p)
         == Select(AddLines(tableName, columns), p) + Select(RemoveLines(tableName, columns), p)
  {
    var header := Header(ClassName(timestamp));
    var frame := header + BetweenUpAndDown + Footer;
    SelectNoneIn(header, p, frame);
    SelectNoneIn(BetweenUpAndDown, p, frame);
    SelectNoneIn(Footer, p, frame);
    SelectBetween(header, AddLines(tableName, columns), BetweenUpAndDown, RemoveLines(tableName, columns), Footer, p);
  }

  /** The file holds exactly one `Add.Column` line per column, in column order, all of them in `Up()`. */
  lemma AddLinesAreTheColumns(tableName: string, columns: seq<ColumnDefinition>, timestamp: string)
    ensures Select(MigrationLines(tableName, columns, timestamp), IsAddLine) == AddLines(tableName, columns)
  {
    var adds, removes := AddLines(tableName, columns), RemoveLines(tableName, columns);
    FrameLines(ClassName(timestamp));
    forall i | 0 <= i < |columns| ensures IsAddLine(adds[i]) && !IsAddLine(removes[i]) {
      ColumnLinesKind(tableName, columns[i]);
    }
    SelectAll(adds, IsAddLine);
    SelectNone(removes, IsAddLine);
    SelectFromMigration(tableName, columns, timestamp, IsAddLine);
  }

  /** The file holds exactly one `Remove.Column` line per column, in column order, all of them in `Down()`. */
  lemma RemoveLinesAreTheColumns(tableName: string, columns: seq<ColumnDefinition>, timestamp: string)
    ensures Select(MigrationLines(tableName, columns, timestamp), IsRemoveLine) == RemoveLines(tableName, columns)
  {
    var adds, removes := AddLines(tableName, columns), RemoveLines(tableName, columns);
    FrameLines(ClassName(timestamp));
    forall i | 0 <= i < |columns| ensures !IsRemoveLine(adds[i]) && IsRemoveLine(removes[i]) {
      ColumnLinesKind(tableName, columns[i]);
    }
    SelectNone(adds, IsRemoveLine);
    SelectAll(removes, IsRemoveLine);
    SelectFromMigration(tableName, columns, timestamp, IsRemoveLine);
  }

  /** `Up()` adds and `Down()` removes the same columns, in the same order, on the given table. */
  lemma UpAndDownNameTheSameColumns(tableName: string, columns: seq<ColumnDefinition>, i: nat)
    requires i < |columns| && '"' !in columns[i].name
    ensures QuotedName(AddLines(tableName, columns)[i]) == Some(columns[i].name)
    ensures QuotedName(RemoveLines(tableName, columns)[i]) == Some(columns[i].name)
  {
    var c := columns[i];
    var k := SharpTypeOf(c.componentType);
    var addPrefix := AddPrefix + ("Column." + FactoryName(k) + "(");
    var addSuffix := Arguments(k) + ").ToTable(" + Quoted(tableName) + ");";
    assert AddColumnLine(tableName, c) == addPrefix + Quoted(c.name) + addSuffix;
    QuotedNameAfter(addPrefix, c.name, addSuffix);
    var removeSuffix := ").FromTable(" + Quoted(tableName) + ");";
    assert RemoveColumnLine(tableName, c) == RemovePrefix + Quoted(c.name) + removeSuffix;
    QuotedNameAfter(RemovePrefix, c.name, removeSuffix);
  }
}
