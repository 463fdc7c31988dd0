/** packages/db/src/d1-rest-client.ts: which works are accepted and which count as reads, told from their texts. */
module D1Works {
  import opened Wrappers
  import opened SqlLexer
  import opened D1Counters
  import opened D1Client
  import opened D1Runs
  import opened D1Refusals
  import opened SqlVerdicts
  import SqlLimits
  import SqlSplit

  /** One statement that begins with a word that reads and has none that writes. */
  ghost predicate OnlyReadsOne(s: SqlLimits.Statement) {
    exists stmt: seq<Token> :: IsOne(s.sql, stmt) && OnlyReads(stmt)
  }

  /** The statement fails none of the checks. */
  ghost predicate PassesAll(s: SqlLimits.Statement, tables: seq<string>) {
    forall k :: 0 <= k < |CHECKS| ==> !Fails(s, tables, CHECKS[k])
  }

  /** A batch with a statement, and every statement passes the checks and only reads. */
  ghost predicate IsReadBatch(work: Work, tables: seq<string>) {
    && work.Batch? && work.statements != []
    && forall s :: s in work.statements ==> PassesAll(s, tables) && OnlyReadsOne(s)
  }

  /** The text lexes, holds a statement, and none from first to last token is longer than 100000 bytes. */
  ghost predicate IsScript(sql: string) {
    && Tokens(sql).Some? && SqlSplit.Statements(Tokens(sql).value) != []
    && forall stmt :: stmt in SqlSplit.Statements(Tokens(sql).value) ==> SqlLimits.ByteLength(SqlSplit.TextOf(sql, stmt)) <= 100_000
  }

  ghost predicate IsAccepted(work: Work, tables: seq<string>) {
    match work
    case Batch(statements, raw) =>
      statements != [] && (forall s :: s in statements ==> PassesAll(s, tables)) && (raw ==> IsReadBatch(work, tables))
    case Script(sql) => IsScript(sql)
  }

  lemma StatementMeans(s: SqlLimits.Statement, tables: seq<string>)
    ensures SqlLimits.Fits(s, tables) <==> PassesAll(s, tables)
    ensures SqlLimits.Reads(s) <==> OnlyReadsOne(s)
  {
    hide SqlLimits.Fits, SqlLimits.Reads, Fails, IsOne, OnlyReads;
    CheckedExactly(s, tables);
    ReadsExactly(s);
  }

  lemma BatchMeans(batch: seq<SqlLimits.Statement>, tables: seq<string>)
    ensures SqlLimits.BatchFits(batch, tables) <==> batch != [] && forall s :: s in batch ==> PassesAll(s, tables)
    ensures SqlLimits.BatchVerdict(batch, tables) == SqlLimits.Accepted(true) <==>
            batch != [] && forall s :: s in batch ==> PassesAll(s, tables) && OnlyReadsOne(s)
    ensures SqlLimits.BatchVerdict(batch, tables).Accepted? <==> SqlLimits.BatchFits(batch, tables)
  {
    hide SqlLimits.Fits, SqlLimits.Reads, PassesAll, OnlyReadsOne;
    forall s | s in batch
      ensures SqlLimits.Fits(s, tables) <==> PassesAll(s, tables)
      ensures SqlLimits.Reads(s) <==> OnlyReadsOne(s)
    {
      StatementMeans(s, tables);
    }
    assert forall i :: 0 <= i < |batch| ==> batch[i] in batch;
  }

  lemma ScriptMeans(sql: string)
    ensures ScriptFits(sql) <==> IsScript(sql)
  {
    hide SqlSplit.Statements, Tokens, SqlLimits.ByteLength, SqlSplit.TextOf;
    if Tokens(sql).Some? {
      var statements := SqlSplit.Statements(Tokens(sql).value);
      var texts := SqlSplit.SplitOf(sql).value;
      assert |texts| == |statements| && forall i :: 0 <= i < |texts| ==> texts[i].text == SqlSplit.TextOf(sql, statements[i]);
      assert forall i :: 0 <= i < |statements| ==> statements[i] in statements;
    }
  }

  /** A work is accepted, and counts as a read, exactly so. */
  lemma WorksExactly(work: Work, tables: seq<string>)
    ensures Accepts(work, tables) <==> IsAccepted(work, tables)
    ensures ReadOnlyWork(work, tables) <==> IsReadBatch(work, tables)
  {
    hide SqlLimits.BatchFits, SqlLimits.BatchVerdict, PassesAll, OnlyReadsOne, ScriptFits, IsScript;
    match work {
      case Batch(statements, _) => BatchMeans(statements, tables);
      case Script(sql) => ScriptMeans(sql);
    }
  }

  /**
   * In every run a call is one of the works submitted, in order; it is refused as invalid exactly when the work
   * is not accepted, is a read exactly when the work is a batch that only reads, and has more than one attempt
   * only as a read.
   */
  lemma CallsAreTold(p: Process, labels: seq<Label>, c: nat)
    requires p.Ok() && p.Runs(labels)
    ensures |p.Last(labels).calls| == |Submits(labels)|
    ensures c < |Submits(labels)| ==>
              var call, m := p.Last(labels).calls[c], Submits(labels)[c];
              && call.work == m.work && (call.phase == Ended(Invalid) <==> !IsAccepted(m.work, p.tables))
              && (call.readOnly <==> IsReadBatch(m.work, p.tables))
              && call.maxAttempts == if call.readOnly && m.maxReadAttempts > 1 then m.maxReadAttempts else 1
  {
    hide CanRun, RunAll, Accepts, ReadOnlyWork, IsAccepted, IsReadBatch, SqlLimits.Fits, SqlLimits.Reads, SqlLimits.NamesNoRows,
         ScriptFits;
    LastInv(p, labels, p.start);
    CallsAreSubmits(p.First(), labels, p.tables);
    if c < |Submits(labels)| {
      OnlyCheckedIsSent(p, labels, c);
      WorksExactly(Submits(labels)[c].work, p.tables);
      assert IsCallOf(p.Last(labels).calls[|p.First().calls| + c], Submits(labels)[c], p.tables);
    }
  }
}
