/** The local SQLite driver: a prepared statement that buffers the values bound to
    it, and the single transaction text `batch` composes from several statements. */
module Local {
  import opened Text
  import opened Queries
  import opened Tables

  /** A prepared statement. The driver's statement handle is represented by the SQL
      text it was prepared from; `variables` is the buffer `bind` appends to. */
  class Prepared {
    const query: string
    var variables: seq<Value>

    constructor (query: string)
      ensures this.query == query
      ensures variables == []
    {
      this.query := query;
      variables := [];
    }

    /** `bind(...variables)`: appends to the buffer and returns the same statement. */
    method Bind(vs: seq<Value>) returns (self: Prepared)
      modifies this
      ensures self == this
      ensures variables == old(variables) + vs
    {
      variables := variables + vs;
      self := this;
    }
  }

  /** `prepare(query)`: a fresh statement with nothing bound. */
  method Prepare(query: string) returns (p: Prepared)
    ensures fresh(p)
    ensures p.query == query && p.variables == []
  {
    p := new Prepared(query);
  }

  /** What `p.bind(a).bind(b)` leaves in the buffer: the earlier values first, then
      `a`, then `b`. */
  method BindChain(p: Prepared, a: seq<Value>, b: seq<Value>) returns (q: Prepared)
    modifies p
    ensures q == p
    ensures p.variables == old(p.variables) + a + b
  {
    var r := p.Bind(a);
    q := r.Bind(b);
  }

  /** The script the driver runs when it opens a database: the `CREATE` entries,
      separated by blank lines. */
  function SchemaScript(): string {
    Join(Create(), "\n\n")
  }

  /** Foreign keys are switched on before any table is created. */
  lemma {:induction false} SchemaScriptStartsWithPragma()
    ensures Pragma <= SchemaScript()
  {
    JoinStartsWithFirst(Create(), "\n\n");
  }

  // ---------------------------------------------------------------------------
  // batch

  /** The statement text with a `;` appended unless it already ends with one (the
      lookbehind replacement `batch` applies to each statement). */
  function Terminate(sql: string): (r: string)
    ensures EndsWith(r, ";")
    ensures EndsWith(sql, ";") <==> r == sql
    ensures !EndsWith(sql, ";") ==> r == sql + ";"
  {
    if EndsWith(sql, ";") then sql else sql + ";"
  }

  lemma {:induction false} TerminateIdempotent(sql: string)
    ensures Terminate(Terminate(sql)) == Terminate(sql)
  {
  }

  /** Terminating adds no placeholder. */
  lemma {:induction false} TerminatePlaceholders(sql: string)
    ensures Placeholders(Terminate(sql)) == Placeholders(sql)
  {
    if !EndsWith(sql, ";") {
      OccurrencesConcat('?', sql, ";");
      AbsentOccurrences('?', ";");
    }
  }

  function TerminatedAll(statements: seq<Statement>): (r: seq<string>)
    ensures |r| == |statements|
    ensures forall i :: 0 <= i < |statements| ==> r[i] == Terminate(statements[i].sql)
  {
    seq(|statements|, i requires 0 <= i < |statements| => Terminate(statements[i].sql))
  }

  /** The statements' arguments, one statement after another. */
  function AllArgs(statements: seq<Statement>): seq<Value>
    decreases |statements|
  {
    if statements == [] then []
    else AllArgs(statements[..|statements| - 1]) + statements[|statements| - 1].args
  }

  const Begin := "BEGIN;\n"
  const End := "\nEND;"

  /** The statement `batch` composes: every statement terminated, one per line, inside
      one transaction, with all their arguments in statement order. */
  function Batch(statements: seq<Statement>): Statement {
    Statement(Begin + Join(TerminatedAll(statements), "\n") + End, AllArgs(statements))
  }

  /** The arguments of a batch are those of its statements in input order: batching
      two lists of statements lays out the first list's arguments before the second's. */
  lemma {:induction false} BatchArgsConcat(a: seq<Statement>, b: seq<Statement>)
    ensures Batch(a + b).args == Batch(a).args + Batch(b).args
    decreases |b|
  {
    if b == [] {
      assert a + b == a;
    } else {
      var init := b[..|b| - 1];
      assert (a + b)[..|a + b| - 1] == a + init;
      BatchArgsConcat(a, init);
    }
  }

  lemma {:induction false} BatchArgsSingle(s: Statement)
    ensures Batch([s]).args == s.args
  {
    assert [s][..0] == [];
    assert AllArgs([s]) == AllArgs([]) + s.args;
    assert [] + s.args == s.args;
  }

  /** `|AllArgs|` is the sum of the statements' argument counts; it is what the
      placeholders of the terminated texts add up to when each statement is balanced. */
  lemma {:induction false} BalancedTotals(statements: seq<Statement>)
    requires forall i :: 0 <= i < |statements| ==> Balanced(statements[i])
    ensures Total('?', TerminatedAll(statements)) == |AllArgs(statements)|
    decreases |statements|
  {
    if statements != [] {
      var n := |statements| - 1;
      var init := statements[..n];
      BalancedTotals(init);
      assert TerminatedAll(statements)[..n] == TerminatedAll(init);
      TerminatePlaceholders(statements[n].sql);
    }
  }

  /** A batch of balanced statements is balanced: one value per placeholder. */
  lemma {:induction false} BatchBalanced(statements: seq<Statement>)
    requires forall i :: 0 <= i < |statements| ==> Balanced(statements[i])
    ensures Balanced(Batch(statements))
  {
    var lines := TerminatedAll(statements);
    BalancedTotals(statements);
    JoinOccurrences('?', lines, "\n");
    AbsentOccurrences('?', "\n");
    BatchLiteralsUnbound();
    AbsentOccurrences('?', Begin);
    AbsentOccurrences('?', End);
    OccurrencesConcat('?', Begin, Join(lines, "\n"));
    OccurrencesConcat('?', Begin + Join(lines, "\n"), End);
  }

  lemma {:induction false} BatchLiteralsUnbound()
    ensures '?' !in Begin && '?' !in End && '?' !in "\n"
  {
  }

  /** Every statement of a batch ends with `;`, even one that had none. */
  lemma {:induction false} BatchLinesTerminated(statements: seq<Statement>, i: nat)
    requires i < |statements|
    ensures EndsWith(TerminatedAll(statements)[i], ";")
    ensures EndsWith(statements[i].sql, ";") ==> TerminatedAll(statements)[i] == statements[i].sql
  {
  }
}
