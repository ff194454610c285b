/**
  The WASM SQLite client (wasm-sqlite.ts), one operation at a time: statements, transactions and
  the write-temporary-then-rename persistence. Interleavings of concurrent calls are the subject
  of SqliteQueue.

  The SQL engine is a parameter: a statement either changes the image and returns rows, or fails
  and changes nothing. The database is identified with the image it exports.
 */
module WasmSqlite {

  datatype Option<+T> = None | Some(value: T)

  type Image = seq<bv8>
  type Sql = string
  type Rows = seq<string>

  datatype RunResult = Ran(after: Image, rows: Rows) | Fails

  datatype Engine = Engine(run: (Image, Sql) -> RunResult, commits: Image -> bool, isWrite: Sql -> bool)

  datatype Call = Execute(sql: Sql) | Batch(sqls: seq<Sql>, write: bool)

  datatype Reply = Results(rows: seq<Rows>) | Error

  /** How the file operations of one call end. */
  datatype Io = Completes | MkdirFails | WriteFails | RenameFails

  /** The temporary file: absent, cut short, or a whole image. */
  datatype TempFile = Absent | Partial | Whole(image: Image)

  // ---------------------------------------------------------------- what a call means by itself

  function Statements(c: Call): seq<Sql> {
    match c
    case Execute(sql) => [sql]
    case Batch(sqls, _) => sqls
  }

  /** Only a write-mode batch opens a transaction. */
  predicate Transactional(c: Call) {
    c.Batch? && c.write
  }

  /** The calls after which the file is rewritten. */
  predicate Persists(e: Engine, c: Call) {
    Transactional(c) || exists i :: 0 <= i < |Statements(c)| && e.isWrite(Statements(c)[i])
  }

  /** Running statements in order up to the first failure. */
  datatype Progress = Progress(image: Image, rows: seq<Rows>, failed: bool)

  function RunAll(e: Engine, image: Image, sqls: seq<Sql>): Progress
    decreases |sqls|
  {
    if sqls == [] then Progress(image, [], false)
    else
      var p := RunAll(e, image, sqls[..|sqls| - 1]);
      if p.failed then p
      else
        match e.run(p.image, sqls[|sqls| - 1])
        case Ran(after, rows) => Progress(after, p.rows + [rows], false)
        case Fails => p.(failed := true)
  }

  /** Did the statements, and the commit if there is one, succeed? */
  predicate Succeeds(e: Engine, image: Image, c: Call) {
    var p := RunAll(e, image, Statements(c));
    !p.failed && (Transactional(c) ==> e.commits(p.image))
  }

  /** The image in memory after a call, whatever the file system does. */
  function MemoryAfter(e: Engine, image: Image, c: Call): Image {
    if Transactional(c) && !Succeeds(e, image, c) then image else RunAll(e, image, Statements(c)).image
  }

  function ReplyOf(e: Engine, image: Image, c: Call, io: Io): Reply {
    if Succeeds(e, image, c) && (Persists(e, c) ==> io == Completes)
    then Results(RunAll(e, image, Statements(c)).rows)
    else Error
  }

  /** The image after a serial run of calls. */
  function SerialImage(e: Engine, image: Image, calls: seq<Call>): Image
    decreases |calls|
  {
    if calls == [] then image
    else MemoryAfter(e, SerialImage(e, image, calls[..|calls| - 1]), calls[|calls| - 1])
  }

  // ---------------------------------------------------------------- properties of single calls

  /** Running a list is running its front and then its back. */
  lemma {:induction false} RunAllSplits(e: Engine, image: Image, front: seq<Sql>, back: seq<Sql>)
    ensures var p := RunAll(e, image, front);
            var q := RunAll(e, p.image, back);
            RunAll(e, image, front + back) ==
            if p.failed then p else Progress(q.image, p.rows + q.rows, q.failed)
    decreases |back|
  {
    var p := RunAll(e, image, front);
    if back == [] {
      assert front + back == front;
      assert p.rows + [] == p.rows;
    } else {
      var n := |back| - 1;
      assert (front + back)[..|front + back| - 1] == front + back[..n];
      assert (front + back)[|front + back| - 1] == back[n];
      RunAllSplits(e, image, front, back[..n]);
      if !p.failed {
        var q := RunAll(e, p.image, back[..n]);
        if !q.failed && e.run(q.image, back[n]).Ran? {
          var rows := e.run(q.image, back[n]).rows;
          assert p.rows + (q.rows + [rows]) == (p.rows + q.rows) + [rows];
        }
      }
    }
  }

  /** How many statements of a list run: all of them, or those before the first that fails. */
  lemma {:induction false} StatementsRun(e: Engine, image: Image, sqls: seq<Sql>) returns (k: nat)
    ensures k <= |sqls| && !RunAll(e, image, sqls[..k]).failed
    ensures RunAll(e, image, sqls).image == RunAll(e, image, sqls[..k]).image
    ensures if RunAll(e, image, sqls).failed then k < |sqls| && RunAll(e, image, sqls[..k + 1]).failed else k == |sqls|
    decreases |sqls|
  {
    var n := |sqls| - 1;
    assert sqls[..|sqls|] == sqls;
    if !RunAll(e, image, sqls).failed {
      k := |sqls|;
    } else if RunAll(e, image, sqls[..n]).failed {
      var front := sqls[..n];
      k := StatementsRun(e, image, front);
      assert front[..k] == sqls[..k] && front[..k + 1] == sqls[..k + 1];
    } else {
      k := n;
    }
  }

  /** Exactly when a batch that fails, at its statement k, at the commit or while saving (then k counts all of
      them), leaves memory as it was: in write mode if it failed before the commit, because it is rolled back, and
      otherwise if the statements that ran changed nothing. */
  lemma {:induction false} FailedBatchKeepsMemoryIff(e: Engine, image: Image, sqls: seq<Sql>, write: bool, io: Io)
    returns (k: nat)
    requires ReplyOf(e, image, Batch(sqls, write), io) == Error
    ensures k <= |sqls| && !RunAll(e, image, sqls[..k]).failed
    ensures k < |sqls| ==> RunAll(e, image, sqls[..k + 1]).failed
    ensures var ran := RunAll(e, image, sqls[..k]).image;
            MemoryAfter(e, image, Batch(sqls, write)) == image
            <==> (write && (k < |sqls| || !e.commits(ran))) || ran == image
  {
    k := StatementsRun(e, image, sqls);
    assert sqls[..|sqls|] == sqls;
  }

  // ---------------------------------------------------------------- the client

  /** An engine whose INSERT appends a byte and whose other statements throw. */
  const APPENDING := Engine((image: Image, sql: Sql) => if sql == "INSERT" then Ran(image + [1], []) else Fails,
                            (image: Image) => true, (sql: Sql) => sql == "INSERT")

  /** It really happens: a read-mode batch fails and leaves its first statement's change in memory, which a
      write-mode batch of the same statements takes back. */
  lemma FailedReadBatchKeepsItsChange(image: Image)
    ensures var sqls := ["INSERT", "SELEC"];
            && ReplyOf(APPENDING, image, Batch(sqls, false), Completes) == Error
            && MemoryAfter(APPENDING, image, Batch(sqls, false)) == image + [1] != image
            && ReplyOf(APPENDING, image, Batch(sqls, true), Completes) == Error
            && MemoryAfter(APPENDING, image, Batch(sqls, true)) == image
  {
    var sqls := ["INSERT", "SELEC"];
    assert sqls[..1] == ["INSERT"] && ["INSERT"][..0] == [];
    assert RunAll(APPENDING, image, []) == Progress(image, [], false);
    assert RunAll(APPENDING, image, ["INSERT"]) == Progress(image + [1], [] + [[]], false);
    assert RunAll(APPENDING, image, sqls).failed;
  }

  /** It also happens in write mode, when the file cannot be replaced: the transaction is committed by then. */
  lemma FailedSaveKeepsItsChange(image: Image)
    ensures var c := Batch(["INSERT"], true);
            && ReplyOf(APPENDING, image, c, RenameFails) == Error
            && MemoryAfter(APPENDING, image, c) == image + [1] != image
  {
    var sqls := ["INSERT"];
    assert sqls[..0] == [];
    assert RunAll(APPENDING, image, []) == Progress(image, [], false);
    assert RunAll(APPENDING, image, sqls) == Progress(image + [1], [] + [[]], false);
  }

  class Client {
    const engine: Engine
    var memory: Image
    /** The image to return to while a transaction is open. */
    var transaction: Option<Image>
    var disk: Image
    var temp: TempFile

    constructor (engine: Engine, contents: Image)
      ensures this.engine == engine && memory == contents && disk == contents
      ensures transaction == None && temp == Absent
    {
      this.engine := engine;
      memory, disk := contents, contents;
      transaction, temp := None, Absent;
    }

    method Run(sql: Sql) returns (rows: Option<Rows>)
      modifies this`memory
      ensures match engine.run(old(memory), sql)
              case Ran(after, r) => memory == after && rows == Some(r)
              case Fails => memory == old(memory) && rows == None
    {
      match engine.run(memory, sql)
      case Ran(after, r) =>
        memory := after;
        rows := Some(r);
      case Fails =>
        rows := None;
    }

    /** persist: write the export beside the file, then rename it over the file. */
    method Persist(io: Io) returns (ok: bool)
      modifies this`disk, this`temp
      ensures ok <==> io == Completes
      ensures disk == if ok then memory else old(disk)
    {
      if io == MkdirFails {
        return false;
      }
      temp := Partial;
      if io == WriteFails {
        return false;
      }
      temp := Whole(memory);
      if io == RenameFails {
        return false;
      }
      disk := temp.image;
      temp := Absent;
      ok := true;
    }

    method ExecuteCall(sql: Sql, io: Io) returns (reply: Reply)
      requires transaction == None
      modifies this
      ensures transaction == None
      ensures memory == MemoryAfter(engine, old(memory), Execute(sql))
      ensures reply == ReplyOf(engine, old(memory), Execute(sql), io)
      ensures disk == if reply.Results? && Persists(engine, Execute(sql)) then memory else old(disk)
    {
      assert [sql][..0] == [];
      assert RunAll(engine, memory, []) == Progress(memory, [], false);
      var rows := Run(sql);
      if rows == None {
        return Error;
      }
      assert [] + [rows.value] == [rows.value];
      if engine.isWrite(sql) {
        assert Statements(Execute(sql))[0] == sql;
        var ok := Persist(io);
        if !ok {
          return Error;
        }
      }
      reply := Results([rows.value]);
    }

    /** The statements of a batch, up to the first that throws. */
    method RunStatements(sqls: seq<Sql>) returns (results: seq<Rows>, failed: bool)
      modifies this`memory
      ensures RunAll(engine, old(memory), sqls) ==
              Progress(memory, if failed then RunAll(engine, old(memory), sqls).rows else results, failed)
    {
      ghost var start := memory;
      results, failed := [], false;
      for i := 0 to |sqls|
        invariant !failed && RunAll(engine, start, sqls[..i]) == Progress(memory, results, false)
      {
        assert sqls[..i + 1][..i] == sqls[..i];
        var rows := Run(sqls[i]);
        if rows == None {
          failed := true;
          RunAllSplits(engine, start, sqls[..i + 1], sqls[i + 1..]);
          assert sqls[..i + 1] + sqls[i + 1..] == sqls;
          return;
        }
        results := results + [rows.value];
      }
      assert sqls[..|sqls|] == sqls;
    }

    /** statements.some(isWrite) */
    method SomeWrite(sqls: seq<Sql>) returns (found: bool)
      ensures found <==> exists i :: 0 <= i < |sqls| && engine.isWrite(sqls[i])
    {
      for i := 0 to |sqls|
        invariant forall j :: 0 <= j < i ==> !engine.isWrite(sqls[j])
      {
        if engine.isWrite(sqls[i]) {
          return true;
        }
      }
      found := false;
    }

    method BatchCall(sqls: seq<Sql>, write: bool, io: Io) returns (reply: Reply)
      requires transaction == None
      modifies this
      ensures transaction == None
      ensures memory == MemoryAfter(engine, old(memory), Batch(sqls, write))
      ensures reply == ReplyOf(engine, old(memory), Batch(sqls, write), io)
      ensures disk == if reply.Results? && Persists(engine, Batch(sqls, write)) then memory else old(disk)
    {
      var transactionOpen := false;
      if write {
        transaction := Some(memory);
        transactionOpen := true;
      }
      var results, failed := RunStatements(sqls);
      if !failed && transactionOpen {
        if engine.commits(memory) {
          transaction := None;
          transactionOpen := false;
        } else {
          failed := true;
        }
      }
      if failed {
        if transactionOpen {
          memory := transaction.value;
          transaction := None;
        }
        return Error;
      }
      var writes := SomeWrite(sqls);
      if write || writes {
        var ok := Persist(io);
        if !ok {
          return Error;
        }
      }
      reply := Results(results);
    }
  }
}
