/** The schema of the five tables: their column lists (`TABLES`) and the DDL text
    that creates them (`table` and `CREATE`). */
module Tables {
  import opened Text

  datatype TableName = Person | Course | Family | Signup | Record

  function Name(t: TableName): string {
    match t
    case Person => "person"
    case Course => "course"
    case Family => "family"
    case Signup => "signup"
    case Record => "record"
  }

  /** The order in which `CREATE` creates the tables. */
  const Order: seq<TableName> := [Person, Course, Family, Signup, Record]

  /** The metadata columns every table starts with (`META`). */
  const Meta: seq<string> := ["id", "created", "updated", "note"]

  /** The columns each table declares after the metadata. */
  function Domain(t: TableName): seq<string> {
    match t
    case Person => ["name", "info"]
    case Course => ["name", "info"]
    case Family => ["upper", "lower"]
    case Signup => ["course", "person"]
    case Record => ["signup", "began", "ended"]
  }

  /** The property keys of a table's schema object, in declaration order. */
  function Properties(t: TableName): seq<string> {
    Meta + Domain(t)
  }

  /** `TABLES`: table name to its property keys. */
  function Tables(): (m: map<string, seq<string>>)
    ensures m.Keys == {"person", "course", "family", "signup", "record"}
    ensures forall t :: Name(t) in m && m[Name(t)] == Properties(t)
  {
    map[
      "person" := Properties(Person),
      "course" := Properties(Course),
      "family" := Properties(Family),
      "signup" := Properties(Signup),
      "record" := Properties(Record)
    ]
  }

  lemma {:induction false} NamesDistinct(t: TableName, u: TableName)
    ensures Name(t) == Name(u) <==> t == u
  {
  }

  /** Every schema starts with `id, created, updated, note`, has no key twice and
      none of its domain columns is a metadata column. */
  lemma {:induction false} PropertiesShape(t: TableName)
    ensures Properties(t)[..4] == ["id", "created", "updated", "note"]
    ensures |Properties(t)| == 4 + |Domain(t)|
    ensures forall i, j :: 0 <= i < j < |Properties(t)| ==> Properties(t)[i] != Properties(t)[j]
    ensures forall k :: k in Domain(t) ==> k !in Meta
  {
  }

  // ---------------------------------------------------------------------------
  // DDL generation

  /** An interpolated column of a `table` template: a name emitted verbatim, or a
      `[column, target]` pair that becomes a deferred foreign key. */
  datatype Column = Plain(name: string) | Ref(name: string, target: string)

  const CreateTable := "CREATE TABLE IF NOT EXISTS "

  /** The four metadata column definitions, each on its own line. */
  const MetaDefinitions :=
    " (\n  id INTEGER PRIMARY KEY AUTOINCREMENT NOT NULL,\n  created TIMESTAMP NOT NULL DEFAULT CURRENT_TIMESTAMP,\n  updated TIMESTAMP NOT NULL DEFAULT CURRENT_TIMESTAMP,\n  note TEXT NOT NULL DEFAULT '',"

  const References := " INTEGER NOT NULL REFERENCES "
  const Deferred := "(id) DEFERRABLE INITIALLY DEFERRED"

  function ColumnSql(c: Column): string {
    match c
    case Plain(n) => n
    case Ref(n, target) => n + References + target + Deferred
  }

  /** The opening of every table's DDL, up to and including the `note` column. */
  function Header(name: string): string {
    CreateTable + name + MetaDefinitions
  }

  /** The DDL text up to column `|columns|`: the header, then `parts[z]` followed by
      column `z`, for each column in turn. */
  function Opening(name: string, parts: seq<string>, columns: seq<Column>): string
    requires |columns| <= |parts|
    decreases |columns|
  {
    if columns == [] then Header(name)
    else
      var z := |columns| - 1;
      Opening(name, parts, columns[..z]) + (parts[z] + ColumnSql(columns[z]))
  }

  /** The names the trigger watches: a pair contributes its first element. */
  function TriggerColumns(columns: seq<Column>): (names: seq<string>)
    ensures |names| == |columns|
    ensures forall i :: 0 <= i < |columns| ==> names[i] == columns[i].name
  {
    seq(|columns|, i requires 0 <= i < |columns| => columns[i].name)
  }

  const TriggerPrefix := "CREATE TRIGGER IF NOT EXISTS update_timestamp_"
  const TouchUpdated := " SET updated = CURRENT_TIMESTAMP WHERE id = NEW.id;\nEND;"

  function Trigger(name: string, columns: seq<Column>): string {
    TriggerPrefix + name + "\nAFTER UPDATE OF " + Join(TriggerColumns(columns), ", ")
    + " ON " + name + "\nBEGIN\n  UPDATE " + name + TouchUpdated
  }

  const CreateIndex := "CREATE UNIQUE INDEX IF NOT EXISTS "

  function IndexStatement(name: string, index: seq<string>): string {
    CreateIndex + Join(index, "_") + "_" + name + " ON " + name + " (" + Join(index, ", ") + ");"
  }

  function IndexLines(name: string, indexes: seq<seq<string>>): (lines: seq<string>)
    ensures |lines| == |indexes|
    ensures forall i :: 0 <= i < |indexes| ==> lines[i] == IndexStatement(name, indexes[i])
  {
    seq(|indexes|, i requires 0 <= i < |indexes| => IndexStatement(name, indexes[i]))
  }

  function IndexStatements(name: string, indexes: seq<seq<string>>): (r: string)
    ensures indexes == [] ==> r == ""
  {
    Join(IndexLines(name, indexes), "\n")
  }

  /** Everything after the last interpolated column: the final template part without
      its trailing comma, the closing parenthesis, the trigger and the indexes. */
  function Closing(name: string, indexes: seq<seq<string>>, last: string, columns: seq<Column>): string {
    TrimSuffix(last, ",") + "\n);\n" + Trigger(name, columns) + "\n" + IndexStatements(name, indexes)
  }

  /** The text `table(name, ...indexes)` returns for the template `parts` with
      interpolated `columns`. */
  function TableDdl(name: string, indexes: seq<seq<string>>, parts: seq<string>, columns: seq<Column>): string
    requires |parts| == |columns| + 1
  {
    Opening(name, parts, columns) + Closing(name, indexes, parts[|columns|], columns)
  }

  /** `table(name, ...indexes)` applied to a template: a template literal always
      has one more part than it has interpolations. */
  method Table(name: string, indexes: seq<seq<string>>, parts: seq<string>, columns: seq<Column>)
    returns (sql: string)
    requires |parts| == |columns| + 1
    ensures sql == TableDdl(name, indexes, parts, columns)
  {
    sql := Header(name);
    for z := 0 to |columns|
      invariant sql == Opening(name, parts, columns[..z])
    {
      assert columns[..z + 1][..z] == columns[..z];
      var column := columns[z];
      var definition;
      if column.Ref? {
        definition := column.name + References + column.target + Deferred;
      } else {
        definition := column.name;
      }
      sql := sql + (parts[z] + definition);
    }
    assert columns[..|columns|] == columns;
    sql := sql + Closing(name, indexes, parts[|columns|], columns);
  }

  // ---------------------------------------------------------------------------
  // Properties of the generated DDL

  /** The DDL opens with the table and its four metadata columns, and closes with
      the index statements. */
  lemma {:induction false} DdlFraming(name: string, indexes: seq<seq<string>>, parts: seq<string>, columns: seq<Column>)
    requires |parts| == |columns| + 1
    ensures Header(name) <= TableDdl(name, indexes, parts, columns)
    ensures EndsWith(TableDdl(name, indexes, parts, columns), IndexStatements(name, indexes))
  {
    OpeningStartsWithHeader(name, parts, columns);
    var closing := Closing(name, indexes, parts[|columns|], columns);
    var front := TrimSuffix(parts[|columns|], ",") + "\n);\n" + Trigger(name, columns) + "\n";
    var tail := IndexStatements(name, indexes);
    assert closing == front + tail;
    assert closing[|closing| - |tail|..] == tail;
  }

  lemma {:induction false} OpeningStartsWithHeader(name: string, parts: seq<string>, columns: seq<Column>)
    requires |columns| <= |parts|
    ensures Header(name) <= Opening(name, parts, columns)
    decreases |columns|
  {
    if columns != [] {
      OpeningStartsWithHeader(name, parts, columns[..|columns| - 1]);
    }
  }

  /** The final template part loses one trailing comma and nothing else. */
  lemma {:induction false} TrimOneComma(s: string)
    ensures TrimSuffix(s + ",", ",") == s
    ensures TrimSuffix(s + ",,", ",") == s + ","
  {
    assert (s + ",")[|s + ","| - 1..] == ",";
    assert (s + ",,")[|s + ",,"| - 1..] == ",";
    assert (s + ",,")[..|s + ",,"| - 1] == s + ",";
  }

  /** One index statement per index list, one line each. */
  lemma {:induction false} IndexStatementsLines(name: string, indexes: seq<seq<string>>)
    requires '\n' !in name
    requires forall i, j :: 0 <= i < |indexes| && 0 <= j < |indexes[i]| ==> '\n' !in indexes[i][j]
    ensures indexes != [] ==> Occurrences('\n', IndexStatements(name, indexes)) == |indexes| - 1
  {
    var lines := IndexLines(name, indexes);
    forall i | 0 <= i < |lines|
      ensures '\n' !in lines[i]
    {
      IndexStatementOneLine(name, indexes[i]);
    }
    NoLineBreaks(lines);
    JoinOccurrences('\n', lines, "\n");
    var one := Occurrences('\n', "\n");
    assert one == 1 by {
      assert multiset("\n") == multiset{'\n'};
    }
    assert (|lines| - 1) * one == |lines| - 1;
  }

  lemma {:induction false} IndexStatementOneLine(name: string, index: seq<string>)
    requires '\n' !in name
    requires forall j :: 0 <= j < |index| ==> '\n' !in index[j]
    ensures '\n' !in IndexStatement(name, index)
  {
    JoinAbsent('\n', index, "_");
    JoinAbsent('\n', index, ", ");
    assert '\n' !in CreateIndex;
  }

  lemma {:induction false} NoLineBreaks(xs: seq<string>)
    requires forall i :: 0 <= i < |xs| ==> '\n' !in xs[i]
    ensures Total('\n', xs) == 0
  {
    if xs != [] {
      NoLineBreaks(xs[..|xs| - 1]);
      AbsentOccurrences('\n', xs[|xs| - 1]);
    }
  }

  // ---------------------------------------------------------------------------
  // CREATE

  const Pragma := "PRAGMA foreign_keys = ON;"

  /** The literal template parts of each table's definition in `CREATE`. */
  function Parts(t: TableName): (parts: seq<string>)
    ensures |parts| == |Columns(t)| + 1
  {
    match t
    case Person => ["\n  ", " VARCHAR(255),\n  ", " TEXT NOT NULL,"]
    case Course => ["\n  ", " VARCHAR(255),\n  ", " TEXT NOT NULL,"]
    case Family => ["\n  ", ",\n  ", ",\n  UNIQUE(upper, lower),"]
    case Signup => ["\n  ", ",\n  ", ","]
    case Record => ["\n  ", ",\n  ", " TIMESTAMP,\n  ", " TIMESTAMP,"]
  }

  /** The interpolated columns of each table's definition in `CREATE`. */
  function Columns(t: TableName): seq<Column> {
    match t
    case Person => [Plain("name"), Plain("info")]
    case Course => [Plain("name"), Plain("info")]
    case Family => [Ref("upper", "person"), Ref("lower", "person")]
    case Signup => [Ref("course", "course"), Ref("person", "person")]
    case Record => [Ref("signup", "signup"), Plain("began"), Plain("ended")]
  }

  /** The index lists passed to `table` for each table. */
  function Indexes(t: TableName): seq<seq<string>> {
    match t
    case Person => [["id"], ["name"]]
    case Course => [["id"], ["name"]]
    case Family => [["upper", "lower"]]
    case Signup => [["course", "person"]]
    case Record => [["signup"], ["began", "ended"]]
  }

  function Ddl(t: TableName): string {
    TableDdl(Name(t), Indexes(t), Parts(t), Columns(t))
  }

  /** `CREATE`: the pragma, then each table's DDL in `Order`. */
  function Create(): (create: seq<string>)
    ensures |create| == 6
    ensures create[0] == Pragma
    ensures forall i :: 0 <= i < 5 ==> create[i + 1] == Ddl(Order[i])
  {
    [Pragma] + seq(5, i requires 0 <= i < 5 => Ddl(Order[i]))
  }

  /** Each table's entry in `CREATE` opens with that table's header. */
  lemma {:induction false} CreateNamesTables(i: nat)
    requires i < 5
    ensures Header(Name(Order[i])) <= Create()[i + 1]
  {
    var t := Order[i];
    assert Create()[i + 1] == Ddl(t);
    DdlFraming(Name(t), Indexes(t), Parts(t), Columns(t));
  }

  /** The trigger of each table watches exactly its schema's domain columns, in order. */
  lemma {:induction false} TriggerWatchesDomain(t: TableName)
    ensures TriggerColumns(Columns(t)) == Domain(t)
  {
  }

  /** Every foreign key names a table that `CREATE` creates earlier. */
  lemma {:induction false} ReferencesPrecede(i: nat, c: Column)
    requires i < 5
    requires c in Columns(Order[i]) && c.Ref?
    ensures exists j :: 0 <= j < i && Name(Order[j]) == c.target
  {
    if i == 2 {
      assert Name(Order[0]) == c.target;
    } else if i == 3 {
      if c.target == "course" { assert Name(Order[1]) == c.target; }
      else { assert Name(Order[0]) == c.target; }
    } else {
      assert Name(Order[3]) == c.target;
    }
  }
}
