/**
 * The `@Transactional` wrapper: fetch the gateway, then inside one `try`
 * begin a transaction, run the body and commit; on any exception roll back
 * and re-raise. The async and the sync wrapper run the same protocol.
 *
 * The body is abstract: a function from the gateway state before it to the
 * state after it and either its return value or the exception it raised.
 * Each gateway call may fail; which ones do is an input.
 */
module Transaction {
  import opened Wrappers
  import opened OrmGateway

  /** Which of the three gateway calls raise. */
  datatype Failures = Failures(begin: bool, commit: bool, rollback: bool)

  /** The exception that leaves the wrapper. */
  datatype Failure =
    | NotInitialized               // `get_orm_gateway` before `set_orm_gateway`
    | BeginFailed | CommitFailed | RollbackFailed
    | BodyRaised(error: string)

  datatype Outcome<V> = Returned(value: V) | Raised(failure: Failure)

  /** What the body does to the gateway and how it ends. */
  type Body<V> = GatewayState -> (GatewayState, Result<V, string>)

  /** The `except` branch: roll back, then re-raise the caught exception (unless the rollback itself raises). */
  function Recover<V>(s: GatewayState, f: Failures, caught: Failure): (GatewayState, Outcome<V>) {
    (RollbackSpec(s, f.rollback), Raised(if f.rollback then RollbackFailed else caught))
  }

  /** The protocol run by both wrappers once the gateway is found. */
  function TransactionalSpec<V>(s: GatewayState, f: Failures, body: Body<V>): (GatewayState, Outcome<V>) {
    var s1 := BeginSpec(s, f.begin);
    if f.begin then Recover(s1, f, BeginFailed)
    else
      var (s2, out) := body(s1);
      if out.Err? then Recover(s2, f, BodyRaised(out.error))
      else
        var s3 := CommitSpec(s2, f.commit);
        if f.commit then Recover(s3, f, CommitFailed)
        else (s3, Returned(out.value))
  }

  /** Which wrapper `Transactional` returns. */
  datatype Wrapper = AsyncWrapper | SyncWrapper

  function WrapperFor(isCoroutine: bool): (w: Wrapper)
    ensures w == AsyncWrapper <==> isCoroutine
  {
    if isCoroutine then AsyncWrapper else SyncWrapper
  }

  /**
   * Calling the wrapped function. Both wrappers share this body, so the
   * wrapper kind does not influence the result.
   */
  method Call<V>(w: Wrapper, reg: Registry, f: Failures, body: Body<V>) returns (r: Outcome<V>)
    requires reg.gateway.Some? ==> reg.gateway.value.Valid()
    requires forall t :: Inv(t) ==> Inv(body(t).0)
    modifies if reg.gateway.Some? then {reg.gateway.value} else {}
    ensures reg.gateway.None? ==> r == Raised(NotInitialized)
    ensures reg.gateway.Some? ==> (reg.gateway.value.Valid()
      && (reg.gateway.value.State(), r) == TransactionalSpec(old(reg.gateway.value.State()), f, body))
  {
    var found := reg.GetGateway();
    if found.Err? {
      return Raised(NotInitialized);
    }
    var gateway := found.value;
    var ok := gateway.BeginTransaction(f.begin);
    if !ok {
      r := Rollback(gateway, f, BeginFailed);
      return;
    }
    var (after, out) := body(gateway.State());
    gateway.SetState(after);
    if out.Err? {
      r := Rollback(gateway, f, BodyRaised(out.error));
      return;
    }
    ok := gateway.Commit(f.commit);
    if !ok {
      r := Rollback(gateway, f, CommitFailed);
      return;
    }
    return Returned(out.value);
  }

  method Rollback<V>(gateway: Gateway, f: Failures, caught: Failure) returns (r: Outcome<V>)
    requires gateway.Valid()
    modifies gateway
    ensures gateway.Valid()
    ensures (gateway.State(), r) == Recover(old(gateway.State()), f, caught)
  {
    var ok := gateway.Rollback(f.rollback);
    if !ok {
      return Raised(RollbackFailed);
    }
    return Raised(caught);
  }

  // ---------------------------------------------------------------------
  // Properties of the protocol

  /** The body's own calls leave the stack as they found it. */
  predicate Balanced<V>(body: Body<V>, s: GatewayState) {
    body(s).0.stack == s.stack
  }

  /** On normal return of the body the frame is committed once and the body's result comes back unchanged. */
  lemma CommitOnSuccess<V>(s: GatewayState, body: Body<V>)
    requires body(BeginSpec(s, false)).1.Ok?
    ensures var after := body(BeginSpec(s, false)).0;
      TransactionalSpec(s, Failures(false, false, false), body)
        == (CommitSpec(after, false), Returned(body(BeginSpec(s, false)).1.value))
  {
  }

  /** When the body raises, the transaction is rolled back once and the same exception re-raised. */
  lemma RollbackOnRaise<V>(s: GatewayState, f: Failures, body: Body<V>)
    requires !f.begin && !f.rollback && body(BeginSpec(s, false)).1.Err?
    ensures var (after, out) := body(BeginSpec(s, false));
      TransactionalSpec(s, f, body) == (RollbackSpec(after, false), Raised(BodyRaised(out.error)))
  {
  }

  /** A failing `begin` or `commit` is inside the `try`, so it also triggers the rollback. */
  lemma FailureTriggersRollback<V>(s: GatewayState, f: Failures, body: Body<V>)
    requires f.begin || (body(BeginSpec(s, false)).1.Ok? && f.commit)
    ensures f.begin ==> TransactionalSpec(s, f, body) == Recover(BeginSpec(s, true), f, BeginFailed)
    ensures !f.begin ==>
      var after := body(BeginSpec(s, false)).0;
      TransactionalSpec(s, f, body) == Recover(CommitSpec(after, true), f, CommitFailed)
  {
  }

  /**
   * A failed commit has already popped its frame, so the rollback that
   * follows pops a second one: inside an outer transaction, the outer frame
   * is lost.
   */
  lemma FailedCommitPopsTwice<V>(s: GatewayState, body: Body<V>)
    requires Inv(s) && s.stack != []
    requires Balanced(body, BeginSpec(s, false)) && body(BeginSpec(s, false)).1.Ok?
    ensures TransactionalSpec(s, Failures(false, true, false), body).0.stack == s.stack[..|s.stack| - 1]
    ensures TransactionalSpec(s, Failures(false, true, false), body).1 == Raised(CommitFailed)
  {
    var s1 := BeginSpec(s, false);
    assert s1.stack == s.stack + [Nested];
    var s3 := CommitSpec(body(s1).0, true);
    assert s3.stack == s.stack;
  }

  /** With no failing gateway call and a balanced body, the wrapper leaves the stack as long as it found it, whether the body returns or raises. */
  lemma StackRestored<V>(s: GatewayState, body: Body<V>)
    requires Balanced(body, BeginSpec(s, false))
    ensures TransactionalSpec(s, Failures(false, false, false), body).0.stack == s.stack
  {
    var s1 := BeginSpec(s, false);
    assert s1.stack[..|s1.stack| - 1] == s.stack;
  }

  /** A failing `begin` pushes nothing, so its rollback pops a frame that the wrapper did not open. */
  lemma FailedBeginPopsCaller<V>(s: GatewayState, body: Body<V>)
    requires s.stack != []
    ensures TransactionalSpec(s, Failures(true, false, false), body).0.stack == s.stack[..|s.stack| - 1]
  {
  }
}
