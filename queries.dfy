/** The parameterised statements the handlers run: a multi-row `INSERT` and a
    column-masked `SELECT` over the tables of the schema. */
module Queries {
  import opened Text
  import opened Tables

  /** A value bound to a positional parameter: `null`, a number (modelled as an
      integer), a bigint (which the driver also accepts) or a string. */
  datatype Value = Null | Number(n: int) | BigInt(b: int) | Str(s: string)

  /** SQL text with the values of its `?` placeholders, in placeholder order. */
  datatype Statement = Statement(sql: string, args: seq<Value>)

  /** The statement has exactly one value per placeholder. */
  predicate Balanced(s: Statement) {
    Placeholders(s.sql) == |s.args|
  }

  /** `repeat(s, n)`: `n` copies of `s` joined with ", ". */
  function Repeat(s: string, n: nat): string {
    Join(Copies(s, n), ", ")
  }

  /** Repeat builds its text one copy at a time: nothing for none, the text itself
      for one, and one more separator and copy for each further copy. */
  lemma {:induction false} RepeatUnfold(s: string, n: nat)
    ensures Repeat(s, 0) == ""
    ensures Repeat(s, 1) == s
    ensures n > 0 ==> Repeat(s, n + 1) == Repeat(s, n) + ", " + s
  {
    assert Copies(s, 1) == [s];
    if n > 0 {
      assert Copies(s, n + 1) == Copies(s, n) + [s];
      JoinSnoc(Copies(s, n), s, ", ");
    }
  }

  /** The separator holds no placeholder, so `n` copies hold `n` times as many. */
  lemma {:induction false} RepeatPlaceholders(s: string, n: nat)
    ensures Placeholders(Repeat(s, n)) == n * Placeholders(s)
  {
    JoinOccurrences('?', Copies(s, n), ", ");
    TotalCopies('?', s, n);
    AbsentOccurrences('?', ", ");
  }

  // ---------------------------------------------------------------------------
  // insert

  /** The columns the server assigns, which an insert never lists. */
  const Generated: set<string> := {"id", "created", "updated"}

  /** The elements of `xs` that are not in `drop`, in their order. */
  function Without(xs: seq<string>, drop: set<string>): (r: seq<string>)
    ensures |r| <= |xs|
    ensures forall k :: k in r <==> k in xs && k !in drop
  {
    if xs == [] then []
    else (if xs[0] in drop then [] else [xs[0]]) + Without(xs[1..], drop)
  }

  lemma {:induction false} WithoutConcat(xs: seq<string>, ys: seq<string>, drop: set<string>)
    ensures Without(xs + ys, drop) == Without(xs, drop) + Without(ys, drop)
  {
    if xs != [] {
      assert (xs + ys)[0] == xs[0];
      assert (xs + ys)[1..] == xs[1..] + ys;
      WithoutConcat(xs[1..], ys, drop);
      var head := if xs[0] in drop then [] else [xs[0]];
      assert Without(xs + ys, drop) == head + Without(xs[1..] + ys, drop);
      assert Without(xs, drop) == head + Without(xs[1..], drop);
      assert head + (Without(xs[1..], drop) + Without(ys, drop))
          == (head + Without(xs[1..], drop)) + Without(ys, drop);
    } else {
      assert xs + ys == ys;
    }
  }

  lemma {:induction false} WithoutNone(xs: seq<string>, drop: set<string>)
    requires forall i :: 0 <= i < |xs| ==> xs[i] !in drop
    ensures Without(xs, drop) == xs
  {
    if xs != [] {
      WithoutNone(xs[1..], drop);
    }
  }

  /** The columns `insert` lists for a table: its property keys in declaration order
      without the generated ones. */
  function InsertKeys(t: TableName): seq<string> {
    Without(Properties(t), Generated)
  }

  /** Exactly `id`, `created` and `updated` are left out: `note` stays first, then
      the domain columns. */
  lemma {:induction false} InsertKeysShape(t: TableName)
    ensures InsertKeys(t) == ["note"] + Domain(t)
    ensures forall k :: k in InsertKeys(t) <==> k in Properties(t) && k !in Generated
  {
    WithoutConcat(Meta, Domain(t), Generated);
    MetaWithoutGenerated();
    DomainNotGenerated(t);
    WithoutNone(Domain(t), Generated);
  }

  /** Every generated column name has 2 or 7 letters; no domain column does. */
  lemma {:induction false} DomainNotGenerated(t: TableName)
    ensures forall i :: 0 <= i < |Domain(t)| ==> Domain(t)[i] !in Generated
  {
    forall i | 0 <= i < |Domain(t)|
      ensures Domain(t)[i] !in Generated
    {
      var k := Domain(t)[i];
      assert |k| != 2 && |k| != 7;
    }
  }

  lemma {:induction false} MetaWithoutGenerated()
    ensures Without(Meta, Generated) == ["note"]
  {
    var note := ["note"];
    assert |"note"| == 4;
    assert "note" !in Generated;
    assert Without(note, Generated) == note by {
      assert note[1..] == [];
    }
    assert Meta == ["id", "created", "updated"] + note;
    WithoutConcat(["id", "created", "updated"], note, Generated);
    assert Without(["id", "created", "updated"], Generated) == [] by {
      var g := ["id", "created", "updated"];
      assert g[1..] == ["created", "updated"];
      assert g[1..][1..] == ["updated"];
      assert g[1..][1..][1..] == [];
    }
  }

  /** A row as the handler passes it: the keys it has, with their values. */
  type Row = map<string, Value>

  /** The value bound for `key`: nullish coalescing turns an absent key (undefined)
      or a null value into null. */
  function Field(row: Row, key: string): (v: Value)
    ensures v == Null <==> key !in row || row[key] == Null
    ensures key in row ==> v == row[key]
  {
    if key in row then row[key] else Null
  }

  /** One row's values in key order. */
  function RowArgs(row: Row, keys: seq<string>): (vs: seq<Value>)
    ensures |vs| == |keys|
    ensures forall j :: 0 <= j < |keys| ==> vs[j] == Field(row, keys[j])
  {
    seq(|keys|, j requires 0 <= j < |keys| => Field(row, keys[j]))
  }

  /** Every row's values, row by row: the grid `args` is laid out from. */
  function Grid(rows: seq<Row>, keys: seq<string>): (g: seq<seq<Value>>)
    ensures |g| == |rows|
    ensures forall i :: 0 <= i < |rows| ==> g[i] == RowArgs(rows[i], keys)
  {
    seq(|rows|, i requires 0 <= i < |rows| => RowArgs(rows[i], keys))
  }

  /** Every row's values in key order, one row after another. */
  function Args(rows: seq<Row>, keys: seq<string>): seq<Value> {
    if rows == [] then [] else RowArgs(rows[0], keys) + Args(rows[1..], keys)
  }

  /** `a` cut into consecutive pieces of width `w`, the last one possibly shorter. */
  function Chunks(a: seq<Value>, w: nat): seq<seq<Value>>
    requires w > 0
    decreases |a|
  {
    if a == [] then []
    else if |a| <= w then [a]
    else [a[..w]] + Chunks(a[w..], w)
  }

  lemma {:induction false} ArgsLength(rows: seq<Row>, keys: seq<string>)
    ensures |Args(rows, keys)| == |rows| * |keys|
  {
    if rows != [] {
      ArgsLength(rows[1..], keys);
      MulSucc(|rows| - 1, |keys|);
    }
  }

  /** Cutting the flattened values back into rows gives every row's values. */
  lemma {:induction false} ArgsChunks(rows: seq<Row>, keys: seq<string>)
    requires |keys| > 0
    ensures Chunks(Args(rows, keys), |keys|) == Grid(rows, keys)
  {
    if rows != [] {
      var first, rest := RowArgs(rows[0], keys), Args(rows[1..], keys);
      var a := first + rest;
      assert a[..|keys|] == first;
      assert a[|keys|..] == rest;
      ArgsChunks(rows[1..], keys);
      if rows[1..] == [] {
        assert rest == [];
        assert a == first;
        assert Grid(rows, keys) == [first];
      } else {
        assert rest == RowArgs(rows[1..][0], keys) + Args(rows[1..][1..], keys);
        assert Grid(rows, keys) == [first] + Grid(rows[1..], keys);
      }
    }
  }

  const InsertInto := "INSERT INTO "
  const ValuesClause := ") VALUES "

  /** One `(?, ..., ?)` group per row. */
  function RowPlaceholders(width: nat): string {
    "(" + Repeat("?", width) + ")"
  }

  /** `INSERT INTO <table> (<columns>) VALUES `: everything before the groups. */
  function InsertHead(t: TableName): string {
    InsertInto + Name(t) + " (" + Join(InsertKeys(t), ", ") + ValuesClause
  }

  /** `insert(into, rows)`: one multi-row INSERT for all the rows. */
  function Insert(t: TableName, rows: seq<Row>): Statement {
    var keys := InsertKeys(t);
    Statement(InsertHead(t) + Repeat(RowPlaceholders(|keys|), |rows|), Args(rows, keys))
  }

  lemma {:induction false} InsertArgsLength(t: TableName, rows: seq<Row>)
    ensures |Insert(t, rows).args| == |rows| * (1 + |Domain(t)|)
  {
    InsertKeysShape(t);
    ArgsLength(rows, InsertKeys(t));
  }

  /** Chunk `i` of `args`, of the width of the column list, is row `i`'s values in
      column order. */
  lemma {:induction false} InsertRowsRoundTrip(t: TableName, rows: seq<Row>)
    ensures |InsertKeys(t)| == 1 + |Domain(t)|
    ensures Chunks(Insert(t, rows).args, |InsertKeys(t)|) == Grid(rows, InsertKeys(t))
  {
    InsertKeysShape(t);
    ArgsChunks(rows, InsertKeys(t));
  }

  /** A row without `note` (which the row type of `insert` omits) binds null for it. */
  lemma {:induction false} InsertNoteIsNull(t: TableName, rows: seq<Row>, i: nat)
    requires i < |rows|
    requires "note" !in rows[i]
    ensures Grid(rows, InsertKeys(t))[i][0] == Null
  {
    InsertKeysShape(t);
  }

  /** The INSERT has one placeholder per bound value. */
  lemma {:induction false} InsertBalanced(t: TableName, rows: seq<Row>)
    ensures Balanced(Insert(t, rows))
  {
    var keys := InsertKeys(t);
    var groups := Repeat(RowPlaceholders(|keys|), |rows|);
    InsertHeadUnbound(t);
    OccurrencesConcat('?', InsertHead(t), groups);
    AbsentOccurrences('?', InsertHead(t));
    GroupPlaceholders(|keys|);
    RepeatPlaceholders(RowPlaceholders(|keys|), |rows|);
    ArgsLength(rows, keys);
  }

  /** The table and column names hold no `?`. */
  lemma {:induction false} InsertHeadUnbound(t: TableName)
    ensures '?' !in InsertHead(t)
  {
    var keys := ["note"] + Domain(t);
    assert '?' !in Join(keys, ", ") by {
      forall i | 0 <= i < |keys|
        ensures '?' !in keys[i]
      {
        if i == 0 {
          assert keys[i] == "note";
        } else {
          assert keys[i] == Domain(t)[i - 1];
          DomainUnbound(t, i - 1);
        }
      }
      JoinAbsent('?', keys, ", ");
    }
    InsertKeysShape(t);
    NameUnbound(t);
    InsertLiteralsUnbound();
  }

  lemma {:induction false} InsertLiteralsUnbound()
    ensures '?' !in InsertInto && '?' !in ValuesClause && '?' !in " ("
  {
  }

  lemma {:induction false} NameUnbound(t: TableName)
    ensures '?' !in Name(t)
  {
  }

  lemma {:induction false} DomainUnbound(t: TableName, i: nat)
    requires i < |Domain(t)|
    ensures '?' !in Domain(t)[i]
  {
  }

  /** A group `(?, ..., ?)` of width `w` holds `w` placeholders. */
  lemma {:induction false} GroupPlaceholders(w: nat)
    ensures Placeholders(RowPlaceholders(w)) == w
  {
    var inner := Repeat("?", w);
    assert Placeholders(inner) == w by {
      RepeatPlaceholders("?", w);
      assert multiset("?") == multiset{'?'};
    }
    assert Placeholders("(") == 0 && Placeholders(")") == 0 by {
      AbsentOccurrences('?', "(");
      AbsentOccurrences('?', ")");
    }
    OccurrencesConcat('?', "(", inner);
    OccurrencesConcat('?', "(" + inner, ")");
  }

  /** The INSERT carries no terminating `;`: for at least one row it ends with the
      closing parenthesis of the last group, and for none with the space after
      `VALUES`. */
  lemma {:induction false} InsertUnterminated(t: TableName, rows: seq<Row>)
    ensures rows != [] ==> EndsWith(Insert(t, rows).sql, ")")
    ensures !EndsWith(Insert(t, rows).sql, ";")
  {
    var group := RowPlaceholders(|InsertKeys(t)|);
    var r := Repeat(group, |rows|);
    var sql := Insert(t, rows).sql;
    assert sql == InsertHead(t) + r;
    if rows == [] {
      RepeatUnfold(group, 0);
      assert sql == InsertHead(t);
      assert InsertHead(t)[|InsertHead(t)| - 1] == ValuesClause[|ValuesClause| - 1] == ' ';
      assert sql[|sql| - 1..][0] == ' ';
    } else {
      assert group[|group| - 1] == ')';
      RepeatEndsWithGroup(group, |rows|);
      assert sql[|sql| - 1] == ')';
      assert sql[|sql| - 1..] == ")";
    }
  }

  /** A nonempty repetition of a text ending in `)` ends in `)`. */
  lemma {:induction false} RepeatEndsWithGroup(group: string, n: nat)
    requires n > 0
    requires |group| > 0 && group[|group| - 1] == ')'
    ensures |Repeat(group, n)| > 0 && Repeat(group, n)[|Repeat(group, n)| - 1] == ')'
  {
    var r := Repeat(group, n);
    RepeatUnfold(group, n - 1);
    if n == 1 {
      assert r == group;
    } else {
      assert r == Repeat(group, n - 1) + ", " + group;
    }
  }

  // ---------------------------------------------------------------------------
  // select

  /** A column mask as `Object.keys` lists it: each key with its flag, in key order
      (a key set to `undefined` is a key with a false flag). */
  type Mask = seq<(string, bool)>

  function Qualify(t: TableName, key: string): string {
    Name(t) + "." + key
  }

  /** `table.key` for each key whose flag is true, in mask order. */
  function Selected(t: TableName, mask: Mask): seq<string>
    decreases |mask|
  {
    if mask == [] then []
    else
      var last := mask[|mask| - 1];
      Selected(t, mask[..|mask| - 1]) + (if last.1 then [Qualify(t, last.0)] else [])
  }

  /** What `select(table, columns)` returns. */
  function SelectSql(t: TableName, mask: Mask): string {
    "SELECT " + Join(Selected(t, mask), ", ") + " FROM " + Name(t)
  }

  /** Each of `xs` followed by ", ": what the loop of `select` accumulates. */
  function Terms(xs: seq<string>): string
    decreases |xs|
  {
    if xs == [] then "" else Terms(xs[..|xs| - 1]) + (xs[|xs| - 1] + ", ")
  }

  lemma {:induction false} TermsJoin(xs: seq<string>)
    requires xs != []
    ensures Terms(xs) == Join(xs, ", ") + ", "
    decreases |xs|
  {
    var init := xs[..|xs| - 1];
    if init != [] {
      TermsJoin(init);
    }
  }

  /** Trimming the one trailing separator off the accumulated terms gives the join. */
  lemma {:induction false} TrimTerms(xs: seq<string>)
    ensures TrimSuffix(Terms(xs), ", ") == Join(xs, ", ")
  {
    if xs != [] {
      TermsJoin(xs);
      var j := Join(xs, ", ");
      assert (j + ", ")[|j + ", "| - 2..] == ", ";
      assert (j + ", ")[..|j + ", "| - 2] == j;
    }
  }

  /** `select(table, columns)`: appends `table.key, ` for each true flag, then
      removes the final separator. */
  method Select(t: TableName, mask: Mask) returns (sql: string)
    ensures sql == SelectSql(t, mask)
  {
    var selected := "";
    for z := 0 to |mask|
      invariant selected == Terms(Selected(t, mask[..z]))
    {
      assert mask[..z + 1][..z] == mask[..z];
      ghost var before := Selected(t, mask[..z]);
      if mask[z].1 {
        assert Selected(t, mask[..z + 1]) == before + [Qualify(t, mask[z].0)];
        assert (before + [Qualify(t, mask[z].0)])[..|before|] == before;
        selected := selected + (Name(t) + "." + mask[z].0 + ", ");
      } else {
        assert Selected(t, mask[..z + 1]) == before + [] == before;
      }
    }
    assert mask[..|mask|] == mask;
    TrimTerms(Selected(t, mask));
    sql := "SELECT " + TrimSuffix(selected, ", ") + " FROM " + Name(t);
  }

  /** A column is selected exactly when some entry of the mask names it with a true flag. */
  lemma {:induction false} SelectedExactly(t: TableName, mask: Mask, q: string)
    ensures q in Selected(t, mask) <==> exists i :: 0 <= i < |mask| && mask[i].1 && q == Qualify(t, mask[i].0)
    decreases |mask|
  {
    if mask != [] {
      var init := mask[..|mask| - 1];
      SelectedExactly(t, init, q);
      if q in Selected(t, init) {
        var i :| 0 <= i < |init| && init[i].1 && q == Qualify(t, init[i].0);
        assert mask[i] == init[i];
      }
      if exists i :: 0 <= i < |mask| && mask[i].1 && q == Qualify(t, mask[i].0) {
        var i :| 0 <= i < |mask| && mask[i].1 && q == Qualify(t, mask[i].0);
        if i < |init| {
          assert init[i] == mask[i];
        }
      }
    }
  }

  /** The selected columns keep the mask's order: selecting over two consecutive
      parts of a mask is selecting over each in turn. */
  lemma {:induction false} SelectedOrder(t: TableName, a: Mask, b: Mask)
    ensures Selected(t, a + b) == Selected(t, a) + Selected(t, b)
    decreases |b|
  {
    if b == [] {
      assert a + b == a;
    } else {
      var init := b[..|b| - 1];
      assert (a + b)[..|a + b| - 1] == a + init;
      SelectedOrder(t, a, init);
    }
  }

  /** With no true flag the query selects nothing: `SELECT  FROM table`. */
  lemma {:induction false} SelectNone(t: TableName, mask: Mask)
    requires forall i :: 0 <= i < |mask| ==> !mask[i].1
    ensures Selected(t, mask) == []
    ensures SelectSql(t, mask) == "SELECT  FROM " + Name(t)
    decreases |mask|
  {
    if mask != [] {
      SelectNone(t, mask[..|mask| - 1]);
    }
  }

  /** A select binds nothing: without a `?` in the keys its text has no placeholder. */
  lemma {:induction false} SelectNoPlaceholders(t: TableName, mask: Mask)
    requires forall i :: 0 <= i < |mask| ==> '?' !in mask[i].0
    ensures Placeholders(SelectSql(t, mask)) == 0
  {
    var cols := Selected(t, mask);
    SelectLiteralsUnbound();
    NameUnbound(t);
    forall k | 0 <= k < |cols|
      ensures '?' !in cols[k]
    {
      SelectedExactly(t, mask, cols[k]);
    }
    JoinAbsent('?', cols, ", ");
    assert '?' !in SelectSql(t, mask);
    AbsentOccurrences('?', SelectSql(t, mask));
  }

  /** `WHERE person.id = ?;` binds exactly one value. */
  lemma {:induction false} ByIdPlaceholders()
    ensures Placeholders(" WHERE person.id = ?;") == 1
  {
    ByIdSplit();
    OnePlaceholder(" WHERE person.id = ", ";");
  }

  lemma {:induction false} ByIdSplit()
    ensures " WHERE person.id = ?;" == " WHERE person.id = " + "?" + ";"
    ensures '?' !in " WHERE person.id = " && '?' !in ";"
  {
  }

  lemma {:induction false} OnePlaceholder(before: string, after: string)
    requires '?' !in before && '?' !in after
    ensures Placeholders(before + "?" + after) == 1
  {
    AbsentOccurrences('?', before);
    AbsentOccurrences('?', after);
    assert multiset("?") == multiset{'?'};
    OccurrencesConcat('?', before, "?");
    OccurrencesConcat('?', before + "?", after);
  }

  lemma {:induction false} SelectLiteralsUnbound()
    ensures '?' !in "SELECT " && '?' !in " FROM " && '?' !in "."
  {
  }

  /** A select followed by a filter clause is balanced when the filter holds one
      placeholder per argument. */
  lemma {:induction false} FilteredSelectBalanced(t: TableName, mask: Mask, filter: string, args: seq<Value>)
    requires forall i :: 0 <= i < |mask| ==> '?' !in mask[i].0
    requires Placeholders(filter) == |args|
    ensures Balanced(Statement(SelectSql(t, mask) + filter, args))
  {
    SelectNoPlaceholders(t, mask);
    OccurrencesConcat('?', SelectSql(t, mask), filter);
  }

  /** The columns `GET /v1/person/#id` asks for: every person column. */
  const PersonColumns: Mask :=
    [("id", true), ("created", true), ("updated", true), ("name", true), ("info", true), ("note", true)]

  lemma {:induction false} PersonColumnsUnbound()
    ensures forall i :: 0 <= i < |PersonColumns| ==> '?' !in PersonColumns[i].0
  {
  }

  /** The query of `GET /v1/person/#id`: every person column, filtered by one
      bound id, has exactly one placeholder for its one argument. */
  lemma {:induction false} PersonByIdBalanced(id: string)
    ensures Balanced(Statement(SelectSql(Person, PersonColumns) + " WHERE person.id = ?;", [Str(id)]))
  {
    PersonColumnsUnbound();
    ByIdPlaceholders();
    FilteredSelectBalanced(Person, PersonColumns, " WHERE person.id = ?;", [Str(id)]);
  }
}
