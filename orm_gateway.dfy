/**
 * The SQLAlchemy gateway: a lazily created session, a LIFO stack of open
 * transaction frames (a root transaction or a savepoint), the auto-commit
 * policy for writes, and `execute_query`, which rewrites `?` placeholders
 * into named parameters and shapes the result by operation.
 *
 * The session is abstract: whether one exists, whether it reports
 * `in_transaction()`, and the log of calls made on it. Backend replies
 * (rows, scalars, stored entities) and backend failures are inputs.
 */
module OrmGateway {
  import opened Wrappers
  import opened Strings
  import opened Dicts
  import opened Values
  import QueryBuilder

  /** A hydrated entity, built from its column-to-value map. */
  type Entity = Dict<string, Value>

  /** A transaction frame on the stack: `session.begin()` or `session.begin_nested()`. */
  datatype Frame = Root | Nested

  /** The calls the gateway makes on the session, in order. */
  datatype Action =
    | OpenSession                  // `session_factory()`
    | BeginRoot                    // `session.begin()`
    | BeginSavepoint               // `session.begin_nested()`
    | CommitFrame(frame: Frame)    // `txn.commit()`
    | RollbackFrame(frame: Frame)  // `txn.rollback()`
    | CommitSession                // `session.commit()`
    | RollbackSession              // `session.rollback()`
    | AddEntity | Flush | Refresh | DeleteEntity | MergeEntity
    | GetById | SelectAll
    | Execute(sql: string, params: Dict<string, Value>)
    | CloseSession

  datatype GatewayState = GatewayState(hasSession: bool, inTxn: bool, stack: seq<Frame>, log: seq<Action>)

  function Log1(s: GatewayState, a: Action): GatewayState {
    s.(log := s.log + [a])
  }

  /** The `session` property: create the session on first use. A fresh session is not in a transaction. */
  function WithSession(s: GatewayState): GatewayState {
    if s.hasSession then s else GatewayState(true, false, s.stack, s.log + [OpenSession])
  }

  /** `begin_transaction`: a root frame iff the session is not in a transaction, a savepoint otherwise. */
  function BeginSpec(s: GatewayState, fails: bool): GatewayState {
    var s1 := WithSession(s);
    if !s1.inTxn then
      var s2 := Log1(s1, BeginRoot);
      if fails then s2 else s2.(inTxn := true, stack := s2.stack + [Root])
    else
      var s2 := Log1(s1, BeginSavepoint);
      if fails then s2 else s2.(stack := s2.stack + [Nested])
  }

  /**
   * `commit`: pop the top frame and commit it, or commit the whole session
   * when no frame is open. The frame is popped before its commit runs, so a
   * failing commit still removes it. Ending a root frame or the session
   * leaves the session outside any transaction.
   */
  function CommitSpec(s: GatewayState, fails: bool): GatewayState {
    if s.stack != [] then
      var top := s.stack[|s.stack| - 1];
      var s1 := s.(stack := s.stack[..|s.stack| - 1], log := s.log + [CommitFrame(top)]);
      if !fails && top == Root then s1.(inTxn := false) else s1
    else
      var s1 := Log1(WithSession(s), CommitSession);
      if fails then s1 else s1.(inTxn := false)
  }

  /** `rollback`, which mirrors `commit`. */
  function RollbackSpec(s: GatewayState, fails: bool): GatewayState {
    if s.stack != [] then
      var top := s.stack[|s.stack| - 1];
      var s1 := s.(stack := s.stack[..|s.stack| - 1], log := s.log + [RollbackFrame(top)]);
      if !fails && top == Root then s1.(inTxn := false) else s1
    else
      var s1 := Log1(WithSession(s), RollbackSession);
      if fails then s1 else s1.(inTxn := false)
  }

  /** `_auto_commit`: the session is consulted only when no frame is open. */
  function AutoCommitSpec(s: GatewayState): GatewayState {
    if s.stack != [] then s
    else
      var s1 := WithSession(s);
      if !s1.inTxn then Log1(s1, CommitSession) else s1
  }

  function SaveSpec(s: GatewayState): GatewayState {
    AutoCommitSpec(Log1(Log1(Log1(WithSession(s), AddEntity), Flush), Refresh))
  }

  function DeleteSpec(s: GatewayState): GatewayState {
    AutoCommitSpec(Log1(WithSession(s), DeleteEntity))
  }

  function UpdateSpec(s: GatewayState): GatewayState {
    AutoCommitSpec(Log1(Log1(WithSession(s), MergeEntity), Flush))
  }

  /** A read (`session.get`, `select`) only touches the session. */
  function ReadSpec(s: GatewayState, a: Action): GatewayState {
    Log1(WithSession(s), a)
  }

  /** `close`: only an existing session is closed, and closing it also forgets every frame. */
  function CloseSpec(s: GatewayState): GatewayState {
    if s.hasSession then GatewayState(false, false, [], s.log + [CloseSession]) else s
  }

  // ---------------------------------------------------------------------
  // Placeholder rewriting and result shaping

  /** Each name in turn replaces the first remaining `?` with `:name`. */
  function Rewrite(sql: string, names: seq<string>): string
    decreases |names|
  {
    if names == [] then sql else Rewrite(ReplaceFirstChar(sql, '?', ":" + names[0]), names[1..])
  }

  /** `zip(cols, row)`: the column-value pairs, as long as the shorter of the two. */
  function Zip(cols: seq<string>, row: seq<Value>): Dict<string, Value> {
    seq(if |cols| < |row| then |cols| else |row|, i requires 0 <= i < |cols| && i < |row| => (cols[i], row[i]))
  }

  /** `{col: val for col, val in zip(cols, row)}`: the pairs assigned in order. */
  function RowEntity(cols: seq<string>, row: seq<Value>): Entity {
    Update([], Zip(cols, row))
  }

  datatype QueryResult = Entities(items: seq<Entity>) | Scalar(n: int) | Flag(b: bool) | NoResult

  /** What `execute_query` returns for each operation, given the rows and the scalar the backend produced. */
  function ExecuteResult(op: QueryBuilder.QueryOperation, cols: seq<string>, rows: seq<seq<Value>>, scalar: int): QueryResult {
    match op
    case Find => Entities(seq(|rows|, k requires 0 <= k < |rows| => RowEntity(cols, rows[k])))
    case Count => Scalar(scalar)
    case Exists => Flag(scalar > 0)
    case Delete => NoResult
  }

  /** The session side of `execute_query`. */
  function ExecuteSpec(s: GatewayState, sql: string, params: Dict<string, Value>, op: QueryBuilder.QueryOperation): GatewayState {
    var s1 := Log1(WithSession(s), Execute(Rewrite(sql, Keys(params)), params));
    if op == QueryBuilder.Delete then AutoCommitSpec(s1) else s1
  }

  // ---------------------------------------------------------------------
  // The gateway invariant

  /** Sessions opened since the last close. */
  function OpensSinceClose(log: seq<Action>): nat {
    if log == [] then 0
    else if log[|log| - 1] == CloseSession then 0
    else OpensSinceClose(log[..|log| - 1]) + (if log[|log| - 1] == OpenSession then 1 else 0)
  }

  lemma OpensAppend(log: seq<Action>, a: Action)
    ensures OpensSinceClose(log + [a]) ==
      if a == CloseSession then 0 else OpensSinceClose(log) + (if a == OpenSession then 1 else 0)
  {
    assert (log + [a])[..|log|] == log;
  }

  /**
   * Without a session there are no frames and no transaction; only the
   * bottom frame can be a root; an open frame means the session is in a
   * transaction; and exactly one session was opened since the last close
   * iff a session exists.
   */
  predicate Inv(s: GatewayState) {
    (!s.hasSession ==> s.stack == [] && !s.inTxn)
    && (forall i :: 0 < i < |s.stack| ==> s.stack[i] == Nested)
    && (s.stack != [] ==> s.inTxn)
    && OpensSinceClose(s.log) == (if s.hasSession then 1 else 0)
  }

  lemma InvWithSession(s: GatewayState)
    requires Inv(s)
    ensures Inv(WithSession(s)) && WithSession(s).hasSession
  {
    OpensAppend(s.log, OpenSession);
  }

  lemma InvLog1(s: GatewayState, a: Action)
    requires Inv(s) && a != OpenSession && a != CloseSession
    ensures Inv(Log1(s, a))
  {
    OpensAppend(s.log, a);
  }

  lemma InvBegin(s: GatewayState, fails: bool)
    requires Inv(s)
    ensures Inv(BeginSpec(s, fails))
  {
    InvWithSession(s);
    InvLog1(WithSession(s), BeginRoot);
    InvLog1(WithSession(s), BeginSavepoint);
  }

  /** A root frame goes on an empty stack outside a transaction, a savepoint on top of an open transaction. */
  lemma InvPush(s: GatewayState, f: Frame)
    requires Inv(s) && s.hasSession && (f == Root <==> !s.inTxn)
    ensures Inv(s.(inTxn := true, stack := s.stack + [f]))
  {
    var t := s.(inTxn := true, stack := s.stack + [f]);
    forall i | 0 < i < |t.stack| ensures t.stack[i] == Nested {
      if i < |s.stack| { assert t.stack[i] == s.stack[i]; }
    }
  }

  lemma InvCommit(s: GatewayState, fails: bool)
    requires Inv(s)
    ensures Inv(CommitSpec(s, fails))
  {
    if s.stack != [] {
      OpensAppend(s.log, CommitFrame(s.stack[|s.stack| - 1]));
    } else {
      InvWithSession(s);
      InvLog1(WithSession(s), CommitSession);
    }
  }

  lemma InvRollback(s: GatewayState, fails: bool)
    requires Inv(s)
    ensures Inv(RollbackSpec(s, fails))
  {
    if s.stack != [] {
      OpensAppend(s.log, RollbackFrame(s.stack[|s.stack| - 1]));
    } else {
      InvWithSession(s);
      InvLog1(WithSession(s), RollbackSession);
    }
  }

  lemma InvClose(s: GatewayState)
    requires Inv(s)
    ensures Inv(CloseSpec(s))
  {
    OpensAppend(s.log, CloseSession);
  }

  lemma InvAutoCommit(s: GatewayState)
    requires Inv(s)
    ensures Inv(AutoCommitSpec(s))
  {
    InvWithSession(s);
    InvLog1(WithSession(s), CommitSession);
  }

  lemma InvWrites(s: GatewayState)
    requires Inv(s)
    ensures Inv(SaveSpec(s)) && Inv(DeleteSpec(s)) && Inv(UpdateSpec(s))
  {
    InvWithSession(s);
    var s1 := WithSession(s);
    InvLog1(s1, AddEntity);
    InvLog1(Log1(s1, AddEntity), Flush);
    InvLog1(Log1(Log1(s1, AddEntity), Flush), Refresh);
    InvAutoCommit(Log1(Log1(Log1(s1, AddEntity), Flush), Refresh));
    InvLog1(s1, DeleteEntity);
    InvAutoCommit(Log1(s1, DeleteEntity));
    InvLog1(s1, MergeEntity);
    InvLog1(Log1(s1, MergeEntity), Flush);
    InvAutoCommit(Log1(Log1(s1, MergeEntity), Flush));
  }

  lemma InvRead(s: GatewayState, a: Action)
    requires Inv(s) && a != OpenSession && a != CloseSession
    ensures Inv(ReadSpec(s, a))
  {
    InvWithSession(s);
    InvLog1(WithSession(s), a);
  }

  lemma InvExecute(s: GatewayState, sql: string, params: Dict<string, Value>, op: QueryBuilder.QueryOperation)
    requires Inv(s)
    ensures Inv(ExecuteSpec(s, sql, params, op))
  {
    var a := Execute(Rewrite(sql, Keys(params)), params);
    InvRead(s, a);
    InvAutoCommit(ReadSpec(s, a));
  }

  // ---------------------------------------------------------------------
  // Properties of the transitions

  /**
   * `begin_transaction` pushes exactly one frame (none if the backend call
   * fails): a root iff the session is not yet in a transaction, whatever the
   * stack holds.
   */
  lemma BeginPushesOneFrame(s: GatewayState, fails: bool)
    ensures fails ==> BeginSpec(s, fails).stack == s.stack
    ensures !fails ==> BeginSpec(s, fails).stack == s.stack + [if s.hasSession && s.inTxn then Nested else Root]
    ensures BeginSpec(s, fails).hasSession
  {
  }

  /** The frame kind depends on the session, not the stack: an empty stack inside a transaction gets a savepoint. */
  lemma BeginOnEmptyStackInTransaction(s: GatewayState)
    requires s.hasSession && s.inTxn && s.stack == []
    ensures BeginSpec(s, false).stack == [Nested]
  {
  }

  /**
   * `commit` on a non-empty stack pops and commits exactly the top frame and
   * leaves the frames below it; on an empty stack it commits the session and
   * the stack stays empty.
   */
  lemma CommitPopsTop(s: GatewayState, fails: bool)
    ensures s.stack != [] ==> (CommitSpec(s, fails).stack == s.stack[..|s.stack| - 1]
      && CommitSpec(s, fails).log == s.log + [CommitFrame(s.stack[|s.stack| - 1])])
    ensures s.stack == [] ==> (CommitSpec(s, fails).stack == []
      && CommitSpec(s, fails).log == WithSession(s).log + [CommitSession])
  {
  }

  /** `rollback` mirrors `commit`. */
  lemma RollbackPopsTop(s: GatewayState, fails: bool)
    ensures s.stack != [] ==> (RollbackSpec(s, fails).stack == s.stack[..|s.stack| - 1]
      && RollbackSpec(s, fails).log == s.log + [RollbackFrame(s.stack[|s.stack| - 1])])
    ensures s.stack == [] ==> (RollbackSpec(s, fails).stack == []
      && RollbackSpec(s, fails).log == WithSession(s).log + [RollbackSession])
  {
  }

  /** `begin; begin; commit; commit` leaves the stack as it was. */
  lemma NestedCommitsBalance(s: GatewayState)
    ensures CommitSpec(CommitSpec(BeginSpec(BeginSpec(s, false), false), false), false).stack == s.stack
  {
    var b1 := BeginSpec(s, false);
    var b2 := BeginSpec(b1, false);
    assert b2.stack[..|b2.stack| - 1] == b1.stack;
    assert b1.stack[..|b1.stack| - 1] == s.stack;
  }

  /** `begin; begin; rollback` from no open transaction leaves exactly the outer, root frame. */
  lemma InnerRollbackKeepsOuter(s: GatewayState)
    requires Inv(s) && s.stack == [] && !s.inTxn
    ensures RollbackSpec(BeginSpec(BeginSpec(s, false), false), false).stack == [Root]
  {
    var b1 := BeginSpec(s, false);
    var b2 := BeginSpec(b1, false);
    assert b1.stack == [Root] && b1.inTxn;
    assert b2.stack == [Root, Nested];
  }

  /** How many times the call `a` occurs in a log. */
  function Occurrences(log: seq<Action>, a: Action): nat {
    if log == [] then 0 else Occurrences(log[..|log| - 1], a) + (if log[|log| - 1] == a then 1 else 0)
  }

  lemma OccurrencesAppend(log: seq<Action>, b: Action, a: Action)
    ensures Occurrences(log + [b], a) == Occurrences(log, a) + (if b == a then 1 else 0)
  {
    assert (log + [b])[..|log|] == log;
  }

  lemma {:induction false} OccurrencesConcat(log: seq<Action>, more: seq<Action>, a: Action)
    ensures Occurrences(log + more, a) == Occurrences(log, a) + Occurrences(more, a)
    decreases |more|
  {
    if more == [] {
      assert log + more == log;
    } else {
      var init := more[..|more| - 1];
      OccurrencesConcat(log, init, a);
      assert log + more == (log + init) + [more[|more| - 1]];
      OccurrencesAppend(log + init, more[|more| - 1], a);
    }
  }

  /**
   * `_auto_commit` commits the session exactly when no frame is open and the
   * session is not in a transaction, and changes neither the frames nor the
   * transaction flag.
   */
  lemma AutoCommitWhenIdle(s: GatewayState)
    requires Inv(s)
    ensures Occurrences(AutoCommitSpec(s).log, CommitSession) ==
      Occurrences(s.log, CommitSession) + (if s.stack == [] && !(s.hasSession && s.inTxn) then 1 else 0)
    ensures AutoCommitSpec(s).stack == s.stack
    ensures AutoCommitSpec(s).inTxn == (s.hasSession && s.inTxn)
  {
    OccurrencesAppend(s.log, OpenSession, CommitSession);
    OccurrencesAppend(WithSession(s).log, CommitSession, CommitSession);
  }

  /** `save` writes, then runs `_auto_commit` once: its log is the write followed by at most that commit. */
  lemma SaveThenAutoCommit(s: GatewayState)
    ensures var w := WithSession(s).log + [AddEntity, Flush, Refresh];
      SaveSpec(s).log == w + (if s.stack == [] && !(s.hasSession && s.inTxn) then [CommitSession] else [])
  {
  }

  lemma DeleteThenAutoCommit(s: GatewayState)
    ensures var w := WithSession(s).log + [DeleteEntity];
      DeleteSpec(s).log == w + (if s.stack == [] && !(s.hasSession && s.inTxn) then [CommitSession] else [])
  {
  }

  lemma UpdateThenAutoCommit(s: GatewayState)
    ensures var w := WithSession(s).log + [MergeEntity, Flush];
      UpdateSpec(s).log == w + (if s.stack == [] && !(s.hasSession && s.inTxn) then [CommitSession] else [])
  {
  }

  /** The session is opened at most once between closes: using it again opens nothing. */
  lemma SessionOpenedOnce(s: GatewayState)
    ensures WithSession(WithSession(s)) == WithSession(s)
    ensures |WithSession(s).log| == |s.log| + (if s.hasSession then 0 else 1)
  {
  }

  /** After `close` there is neither session nor frame, and the next use opens a fresh session. */
  lemma CloseForgetsAll(s: GatewayState)
    requires Inv(s)
    ensures !CloseSpec(s).hasSession && CloseSpec(s).stack == [] && !CloseSpec(s).inTxn
    ensures WithSession(CloseSpec(s)).log == CloseSpec(s).log + [OpenSession]
  {
  }

  /** No name holds a `?`. */
  predicate PlainNames(names: seq<string>) {
    forall k :: 0 <= k < |names| ==> !ContainsChar(names[k], '?')
  }

  /** With k names and q placeholders, min(k, q) placeholders are rewritten and the rest stay. */
  lemma {:induction false} RewriteCount(sql: string, names: seq<string>)
    requires PlainNames(names)
    ensures var q := CountChar(sql, '?');
      CountChar(Rewrite(sql, names), '?') == if |names| <= q then q - |names| else 0
    decreases |names|
  {
    if names != [] {
      var rep := ":" + names[0];
      assert !ContainsChar(rep, '?') by {
        forall i | 0 <= i < |rep| ensures rep[i] != '?' {
          if i > 0 { assert rep[i] == names[0][i - 1]; }
        }
      }
      ReplaceFirstCharCount(sql, '?', rep);
      CountCharPositive(sql, '?');
      assert PlainNames(names[1..]) by {
        forall k | 0 <= k < |names[1..]| ensures !ContainsChar(names[1..][k], '?') {
          assert names[1..][k] == names[k + 1];
        }
      }
      RewriteCount(ReplaceFirstChar(sql, '?', rep), names[1..]);
    }
  }

  /** With more placeholders than parameters, a `?` survives the rewriting. */
  lemma RewriteLeavesPlaceholder(sql: string, names: seq<string>)
    requires PlainNames(names) && |names| < CountChar(sql, '?')
    ensures ContainsChar(Rewrite(sql, names), '?')
  {
    RewriteCount(sql, names);
    CountCharPositive(Rewrite(sql, names), '?');
  }

  /** For distinct column names, each zipped column maps to its own value. */
  lemma RowEntityGet(cols: seq<string>, row: seq<Value>, k: nat)
    requires forall i, j :: 0 <= i < j < |cols| ==> cols[i] != cols[j]
    requires k < |cols| && k < |row|
    ensures Get(RowEntity(cols, row), cols[k]) == Some(row[k])
  {
    var e := Zip(cols, row);
    assert Valid(e) by {
      forall i, j | 0 <= i < j < |e| ensures e[i].0 != e[j].0 {
        assert e[i].0 == cols[i] && e[j].0 == cols[j];
      }
    }
    assert e[k] == (cols[k], row[k]);
    GetIndex(e, k);
    GetUpdate([], e, cols[k]);
  }

  /** `FIND` yields one entity per row, in row order; `EXISTS` is `scalar > 0`; `COUNT` is the scalar. */
  lemma ExecuteResultShape(op: QueryBuilder.QueryOperation, cols: seq<string>, rows: seq<seq<Value>>, scalar: int)
    ensures op == QueryBuilder.Find ==> (ExecuteResult(op, cols, rows, scalar).Entities?
      && |ExecuteResult(op, cols, rows, scalar).items| == |rows|
      && forall k :: 0 <= k < |rows| ==> ExecuteResult(op, cols, rows, scalar).items[k] == RowEntity(cols, rows[k]))
    ensures op == QueryBuilder.Count ==> ExecuteResult(op, cols, rows, scalar) == Scalar(scalar)
    ensures op == QueryBuilder.Exists ==> ExecuteResult(op, cols, rows, scalar) == Flag(scalar > 0)
    ensures op == QueryBuilder.Delete ==> ExecuteResult(op, cols, rows, scalar) == NoResult
  {
  }

  /** Only `DELETE` may commit: every other operation leaves the frames, the flag and the commit count alone. */
  lemma ExecuteCommitsOnlyDelete(s: GatewayState, sql: string, params: Dict<string, Value>, op: QueryBuilder.QueryOperation)
    ensures op != QueryBuilder.Delete ==> Occurrences(ExecuteSpec(s, sql, params, op).log, CommitSession) == Occurrences(s.log, CommitSession)
    ensures ExecuteSpec(s, sql, params, op).stack == s.stack
  {
    var a := Execute(Rewrite(sql, Keys(params)), params);
    OccurrencesAppend(s.log, OpenSession, CommitSession);
    OccurrencesAppend(WithSession(s).log, a, CommitSession);
  }

  // ---------------------------------------------------------------------
  // The gateway object

  /** `SQLAlchemyGateway` */
  class Gateway {
    var hasSession: bool
    var inTxn: bool
    var stack: seq<Frame>
    var log: seq<Action>

    function State(): GatewayState
      reads this
    {
      GatewayState(hasSession, inTxn, stack, log)
    }

    predicate Valid()
      reads this
    {
      Inv(State())
    }

    constructor ()
      ensures State() == GatewayState(false, false, [], [])
      ensures Valid()
    {
      hasSession := false;
      inTxn := false;
      stack := [];
      log := [];
    }

    method SetState(s: GatewayState)
      modifies this
      ensures State() == s
    {
      hasSession := s.hasSession;
      inTxn := s.inTxn;
      stack := s.stack;
      log := s.log;
    }

    /** The `session` property. */
    method Session()
      requires Valid()
      modifies this
      ensures State() == WithSession(old(State()))
      ensures Valid()
    {
      InvWithSession(State());
      if !hasSession {
        hasSession := true;
        inTxn := false;
        log := log + [OpenSession];
      }
    }

    /** One call on the open session, recorded in the log. */
    method Record(a: Action)
      requires Valid() && a != OpenSession && a != CloseSession
      modifies this
      ensures State() == Log1(old(State()), a)
      ensures Valid()
    {
      InvLog1(State(), a);
      log := log + [a];
    }

    method AutoCommit()
      requires Valid()
      modifies this
      ensures State() == AutoCommitSpec(old(State()))
      ensures Valid()
    {
      if stack == [] {
        Session();
        if !inTxn {
          Record(CommitSession);
        }
      }
    }

    method Save(entity: Entity) returns (r: Entity)
      requires Valid()
      modifies this
      ensures r == entity
      ensures State() == SaveSpec(old(State()))
      ensures Valid()
    {
      Session();
      Record(AddEntity);
      Record(Flush);
      Record(Refresh);
      AutoCommit();
      return entity;
    }

    method Delete(entity: Entity)
      requires Valid()
      modifies this
      ensures State() == DeleteSpec(old(State()))
      ensures Valid()
    {
      Session();
      Record(DeleteEntity);
      AutoCommit();
    }

    /** `merged` is what `session.merge` returns. */
    method Update(entity: Entity, merged: Entity) returns (r: Entity)
      requires Valid()
      modifies this
      ensures r == merged
      ensures State() == UpdateSpec(old(State()))
      ensures Valid()
    {
      Session();
      Record(MergeEntity);
      Record(Flush);
      AutoCommit();
      return merged;
    }

    /** `stored` is what `session.get` returns. */
    method FindById(stored: Option<Entity>) returns (r: Option<Entity>)
      requires Valid()
      modifies this
      ensures r == stored
      ensures State() == ReadSpec(old(State()), GetById)
      ensures Valid()
    {
      Session();
      Record(GetById);
      return stored;
    }

    /** `all` is what the `select` returns. */
    method FindAll(all: seq<Entity>) returns (r: seq<Entity>)
      requires Valid()
      modifies this
      ensures r == all
      ensures State() == ReadSpec(old(State()), SelectAll)
      ensures Valid()
    {
      Session();
      Record(SelectAll);
      return all;
    }

    method Exists(stored: Option<Entity>) returns (r: bool)
      requires Valid()
      modifies this
      ensures r <==> stored.Some?
      ensures State() == ReadSpec(old(State()), GetById)
      ensures Valid()
    {
      Session();
      Record(GetById);
      return stored.Some?;
    }

    /**
     * `execute_query`; `cols`, `rows` and `scalar` are what the statement
     * produces on the backend.
     */
    method ExecuteQuery(sql: string, params: Dict<string, Value>, op: QueryBuilder.QueryOperation,
                        cols: seq<string>, rows: seq<seq<Value>>, scalar: int) returns (r: QueryResult)
      requires Valid() && Dicts.Valid(params)
      modifies this
      ensures r == ExecuteResult(op, cols, rows, scalar)
      ensures State() == ExecuteSpec(old(State()), sql, params, op)
      ensures Valid()
    {
      var sqlAlchemy, paramValues := BindParams(sql, params);
      Session();
      Record(Execute(sqlAlchemy, paramValues));
      match op {
        case Find =>
          var entities := Hydrate(cols, rows);
          return Entities(entities);
        case Count =>
          return Scalar(scalar);
        case Exists =>
          return Flag(scalar > 0);
        case Delete =>
          AutoCommit();
          return NoResult;
      }
    }

    method BeginTransaction(fails: bool) returns (ok: bool)
      requires Valid()
      modifies this
      ensures ok == !fails
      ensures State() == BeginSpec(old(State()), fails)
      ensures Valid()
    {
      Session();
      if !inTxn {
        Record(BeginRoot);
        if fails { return false; }
        InvPush(State(), Root);
        inTxn := true;
        stack := stack + [Root];
      } else {
        Record(BeginSavepoint);
        if fails { return false; }
        InvPush(State(), Nested);
        stack := stack + [Nested];
      }
      return true;
    }

    method Commit(fails: bool) returns (ok: bool)
      requires Valid()
      modifies this
      ensures ok == !fails
      ensures State() == CommitSpec(old(State()), fails)
      ensures Valid()
    {
      InvCommit(State(), fails);
      if stack != [] {
        var txn := stack[|stack| - 1];
        stack := stack[..|stack| - 1];
        log := log + [CommitFrame(txn)];
        if fails { return false; }
        if txn == Root { inTxn := false; }
      } else {
        Session();
        Record(CommitSession);
        if fails { return false; }
        inTxn := false;
      }
      return true;
    }

    method Rollback(fails: bool) returns (ok: bool)
      requires Valid()
      modifies this
      ensures ok == !fails
      ensures State() == RollbackSpec(old(State()), fails)
      ensures Valid()
    {
      InvRollback(State(), fails);
      if stack != [] {
        var txn := stack[|stack| - 1];
        stack := stack[..|stack| - 1];
        log := log + [RollbackFrame(txn)];
        if fails { return false; }
        if txn == Root { inTxn := false; }
      } else {
        Session();
        Record(RollbackSession);
        if fails { return false; }
        inTxn := false;
      }
      return true;
    }

    method Close()
      requires Valid()
      modifies this
      ensures State() == CloseSpec(old(State()))
      ensures Valid()
    {
      InvClose(State());
      if hasSession {
        log := log + [CloseSession];
        hasSession := false;
        inTxn := false;
        stack := [];
      }
    }
  }

  /** The parameter loop of `execute_query`: each key rewrites the next `?`, and the values are collected by name. */
  method BindParams(sql: string, params: Dict<string, Value>) returns (sqlAlchemy: string, paramValues: Dict<string, Value>)
    requires Dicts.Valid(params)
    ensures sqlAlchemy == Rewrite(sql, Keys(params))
    ensures paramValues == params
  {
    var names := Keys(params);
    sqlAlchemy := sql;
    paramValues := [];
    for i := 0 to |params|
      invariant Rewrite(sql, names) == Rewrite(sqlAlchemy, names[i..])
      invariant paramValues == params[..i]
    {
      assert names[i..][1..] == names[i + 1..];
      sqlAlchemy := ReplaceFirstChar(sqlAlchemy, '?', ":" + params[i].0);
      SetPrefix(params, i);
      paramValues := Set(paramValues, params[i].0, params[i].1);
    }
    assert params[..|params|] == params;
  }

  /** The `FIND` branch: one entity per row, in order. */
  method Hydrate(cols: seq<string>, rows: seq<seq<Value>>) returns (entities: seq<Entity>)
    ensures entities == seq(|rows|, k requires 0 <= k < |rows| => RowEntity(cols, rows[k]))
  {
    entities := [];
    for k := 0 to |rows|
      invariant entities == seq(k, j requires 0 <= j < k => RowEntity(cols, rows[j]))
    {
      var data := ZipRow(cols, rows[k]);
      entities := entities + [data];
    }
  }

  /** The dict comprehension over `zip(cols, row)`, as the loop Python runs. */
  method ZipRow(cols: seq<string>, row: seq<Value>) returns (data: Entity)
    ensures data == RowEntity(cols, row)
  {
    var n := if |cols| < |row| then |cols| else |row|;
    ghost var pairs := Zip(cols, row);
    data := [];
    for i := 0 to n
      invariant Update(data, pairs[i..]) == RowEntity(cols, row)
    {
      UpdateStep(data, pairs, i);
      data := Set(data, cols[i], row[i]);
    }
    assert pairs[n..] == [];
  }

  /** `RuntimeError` from `get_orm_gateway` before a gateway is set. */
  const NotInitialized := "ORM gateway not initialized. Call set_orm_gateway() first."

  /** The module-level `_orm_gateway` with `get_orm_gateway` / `set_orm_gateway`. */
  class Registry {
    var gateway: Option<Gateway>

    constructor ()
      ensures gateway == None
    {
      gateway := None;
    }

    method GetGateway() returns (r: Result<Gateway, string>)
      ensures gateway.None? ==> r == Err(NotInitialized)
      ensures gateway.Some? ==> r == Ok(gateway.value)
    {
      if gateway.None? {
        return Err(NotInitialized);
      }
      return Ok(gateway.value);
    }

    method SetGateway(g: Gateway)
      modifies this
      ensures gateway == Some(g)
    {
      gateway := Some(g);
    }
  }
}
