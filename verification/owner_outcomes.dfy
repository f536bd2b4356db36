/**
 * What becomes of an operation, record by record: when it takes its gate, when it crosses its
 * effect boundary, when its transport ends, and what a step does to the operations it is not about.
 */
module OwnerOutcomes {
  import opened Prelude
  import opened Permits
  import opened OwnerModel
  import opened OwnerInvariant
  import opened OwnerPreservation
  import opened OwnerSteps
  import opened OwnerProgress
  import opened OwnerTheorems

  // ---- the records ------------------------------------------------------------------------------

  /** Why a read or provider operation that holds its gate is refused: the first that applies. */
  ghost function Refusal(o: Operation, revoked: bool): Option<Reason> {
    if o.cancelRequested then Some(Cancelled)
    else if o.transportLost then Some(LostWhileQueued)
    else if revoked then Some(RevokedOrStale)
    else None
  }

  /** Denied: a connected read answers and holds its gate; anything else settles without an effect. */
  ghost function DeniedRecord(o: Operation, reason: Reason): Operation {
    if o.Kind() == Http && !o.transportLost then
      o.(phase := DeniedPhase, decision := Some(Denied), reason := Some(reason),
         handoffAttempted := true, at := AtHttp(None))
    else
      o.(phase := Settled, decision := Some(Denied), reason := Some(reason), done := true, at := Returned,
         completion := if o.completion.Some? then o.completion else Some(NeverStarted))
  }

  /** Admitted: a read hands its response off and holds its gate; the others settle. */
  ghost function AdmittedRecord(o: Operation): Operation {
    match o.spec
    case HttpCase(_, _, _, fault) =>
      var throws := fault == EndThrowsAfterEnd;
      o.(phase := AdmittedPhase, decision := Some(Admitted), reason := Some(Released), handoffAttempted := true,
         terminalFailure := o.terminalFailure || throws, at := AtHttp(if throws then Some(TerminalResult) else None))
    case ProviderCase(_, _, _, completionGated, succeeds) =>
      o.(phase := Settled, decision := Some(Admitted), reason := Some(Started), done := true,
         at := if completionGated then AtCompletion else Returned,
         completion := if completionGated || o.completion.Some? then o.completion
                       else Some(if succeeds then CompletedOk else CompletedError))
    case RevokeCase =>
      o.(phase := Settled, decision := Some(Admitted), reason := Some(Committed), done := true, at := Returned)
  }

  /** An operation that has taken its gate: committed, refused, or asking its store. */
  ghost function TakenRecord(o: Operation, revoked: bool): Operation {
    if o.spec.RevokeCase? then AdmittedRecord(o)
    else
      match Refusal(o, revoked)
      case Some(reason) => DeniedRecord(o, reason)
      case None => o.(phase := Resolving, at := if o.spec.storeGated then AtStoreBarrier else AfterStore)
  }

  /** An operation that has crossed its effect boundary: refused, denied by its store, or admitted. */
  ghost function DecidedRecord(o: Operation, revoked: bool): Operation
    requires !o.spec.RevokeCase?
  {
    match Refusal(o, revoked)
    case Some(reason) => DeniedRecord(o, reason)
    case None =>
      match o.spec.store
      case Allow => AdmittedRecord(o)
      case Deny => DeniedRecord(o, StoreDenied)
      case Error => DeniedRecord(o, StoreFailed)
  }

  /** An unsettled operation when the owner ends; a decision it already has is kept. */
  ghost function EndedRecord(o: Operation, reason: Reason): Operation {
    if o.done then o
    else if o.decision.Some? then
      o.(done := true, queuedAnswer := Some(o.queuedAnswer.GetOr(false)),
         completion := if o.decision == Some(Admitted) || o.completion.Some? then o.completion else Some(NeverStarted))
    else
      o.(decision := Some(Invalidated), reason := Some(reason), done := true,
         queuedAnswer := Some(o.queuedAnswer.GetOr(false)),
         completion := if o.completion.Some? then o.completion else Some(NeverStarted))
  }

  // ---- one turn of the gate ---------------------------------------------------------------------

  /** A generation is stale exactly when its domain is revoked. */
  lemma AuthorizationIs(s: State, i: nat)
    requires CoreInv(s) && i < |s.ops| && s.ops[i].at != NotStarted
    ensures AuthorizationFailure(s, i) == Refusal(s.ops[i], s.At(s.ops[i].domain).revoked)
  {
    assert Base(s, i) && DomainOk(s, s.ops[i].domain);
  }

  /** The record once its gate is released, if it is. */
  ghost function Freed(o: Operation, releases: bool): Operation {
    if releases then o.(phase := Settled, done := true) else o
  }

  lemma HandOffIs(s: State, i: nat, kind: PermitKind, fault: TransportFault, reason: Reason)
    requires CoreInv(s) && RunsNow(s, i) && s.ops[i].Kind() == Http && !s.ops[i].transportLost
    requires IsAdmittingKind(kind) ==> AuthorizationFailure(s, i).None?
    ensures var r := HttpBoundary(s, i, kind, fault, reason);
      && !r.1 && r.0.ops[i] == HandOff(s.ops[i], kind, fault, reason)
      && forall d :: r.0.At(d) == s.At(d)
  {
    PermitAccepted(s, i, kind);
    HttpBoundaryIs(s, i, kind, fault, reason);
  }

  lemma SilentDenialIs(s: State, i: nat, reason: Reason)
    requires Wf(s) && i < |s.ops| && (s.ops[i].Kind() == Http ==> s.ops[i].transportLost)
    ensures var r := DenyWithoutEffect(s, i, reason);
      && r.1 && Freed(r.0.ops[i], true) == DeniedRecord(s.ops[i], reason)
      && forall d :: r.0.At(d) == s.At(d)
  {
  }

  lemma AnsweredDenialIs(o: Operation, reason: Reason)
    requires o.Kind() == Http && !o.transportLost
    ensures HandOff(o, HttpDenial, NoFault, reason) == DeniedRecord(o, reason)
  {
  }

  lemma DenialIs(s: State, i: nat, reason: Reason)
    requires CoreInv(s) && RunsNow(s, i) && s.ops[i].Kind() != Revoke
    ensures var r := DenyHeld(s, i, reason);
      && Freed(r.0.ops[i], r.1) == DeniedRecord(s.ops[i], reason)
      && forall d :: r.0.At(d) == s.At(d)
  {
    if s.ops[i].Kind() == Http && !s.ops[i].transportLost {
      assert s.ops[i].hasResponse by { assert Base(s, i); }
      HandOffIs(s, i, HttpDenial, NoFault, reason);
      AnsweredDenialIs(s.ops[i], reason);
    } else {
      SilentDenialIs(s, i, reason);
    }
  }

  lemma CommitIs(s: State, i: nat)
    requires CoreInv(s) && RunsNow(s, i) && s.ops[i].spec.RevokeCase?
    ensures var r := RunRevoke(s, i);
      && r.1 && Freed(r.0.ops[i], true) == AdmittedRecord(s.ops[i])
      && r.0.At(s.ops[i].domain).revoked
  {
    assert Base(s, i);
    PermitAccepted(s, i, RevokeCommit);
  }

  /** What the holder does up to its first wait or its end. */
  lemma ExecuteIs(s: State, i: nat)
    requires CoreInv(s) && RunsNow(s, i)
    ensures var (t, releases) := Execute(s, i);
      var (before, after) := (s.At(s.ops[i].domain).revoked, t.At(s.ops[i].domain).revoked);
      && Freed(t.ops[i], releases) == TakenRecord(s.ops[i], before)
      && (after <==> before || s.ops[i].spec.RevokeCase?)
      && (releases ==> s.ops[i].spec.RevokeCase? || Refusal(s.ops[i], before).Some?)
  {
    AuthorizationIs(s, i);
    if s.ops[i].spec.RevokeCase? {
      CommitIs(s, i);
    } else {
      match AuthorizationFailure(s, i)
      case Some(reason) => DenialIs(s, i, reason);
      case None =>
    }
  }

  /** The record of an operation that may have taken its gate: from its queue, and out of it. */
  ghost predicate TakenOrSame(s: State, t: State, d: Domain, i: nat)
    requires i < |s.ops|
  {
    && i < |t.ops|
    && t.ops[i] ==
       if i in s.At(d).queue && i !in t.At(d).queue then TakenRecord(s.ops[i], t.At(d).revoked) else s.ops[i]
  }

  ghost predicate OnlyForward(s: State, t: State, d: Domain) {
    && |t.ops| == |s.ops|
    && (forall k :: k in t.At(d).queue ==> k in s.At(d).queue)
    && (s.At(d).revoked ==> t.At(d).revoked)
  }

  /** Taking a gate sets only where the operation stands. */
  lemma TakenAnyway(o: Operation, revoked: bool)
    ensures TakenRecord(o.(phase := Held, at := Executing), revoked) == TakenRecord(o, revoked)
  {
  }

  /** The head of the queue takes the gate, and runs, and frees it again if it is done. */
  ghost function Turned(s: State, d: Domain): State
    requires Wf(s) && s.At(d).queue != []
  {
    var i := s.At(d).queue[0];
    var (t, releases) := Execute(Take(s, d), i);
    if releases then Free(t, i) else t
  }

  ghost predicate CanTurn(s: State, d: Domain) {
    && CoreInv(s) && s.owner == Running && s.At(d).active.None?
    && forall e :: e != d ==> Quiet(s, e)
  }

  lemma TakeIs(s: State, d: Domain)
    requires Wf(s) && s.At(d).queue != []
    ensures var (i, u) := (s.At(d).queue[0], Take(s, d));
      && i < |s.ops| && u.ops == s.ops[i := s.ops[i].(phase := Held, at := Executing)]
      && u.At(d).queue == s.At(d).queue[1..] && u.At(d).revoked == s.At(d).revoked
  {
    assert s.At(d).queue[0] in s.At(d).queue;
  }

  lemma FreeIs(t: State, i: nat)
    requires Wf(t) && i < |t.ops|
    ensures Free(t, i).ops == t.ops[i := Freed(t.ops[i], true)]
    ensures forall d :: Free(t, i).At(d).queue == t.At(d).queue && Free(t, i).At(d).revoked == t.At(d).revoked
  {
  }

  lemma TurnIs(s: State, d: Domain)
    requires CanTurn(s, d) && s.At(d).queue != []
    ensures var (i, t) := (s.At(d).queue[0], Turned(s, d));
      && |t.ops| == |s.ops| && i < |s.ops| && t.At(d).queue == s.At(d).queue[1..]
      && t.ops[i] == TakenRecord(s.ops[i], s.At(d).revoked)
      && (t.At(d).revoked <==> s.At(d).revoked || s.ops[i].spec.RevokeCase?)
      && (forall k :: 0 <= k < |s.ops| && k != i ==> t.ops[k] == s.ops[k])
      && (Execute(Take(s, d), i).1 ==> s.ops[i].spec.RevokeCase? || Refusal(s.ops[i], s.At(d).revoked).Some?)
  {
    var i := s.At(d).queue[0];
    TakeKeeps(s, d);
    TakeIs(s, d);
    ExecuteKeeps(Take(s, d), i);
    ExecuteIs(Take(s, d), i);
    FreeIs(Execute(Take(s, d), i).0, i);
    TakenAnyway(s.ops[i], s.At(d).revoked);
  }

  lemma TurnGoesOn(s: State, d: Domain)
    requires CanTurn(s, d) && s.At(d).queue != []
    ensures var i := s.At(d).queue[0];
      if Execute(Take(s, d), i).1 then CanTurn(Turned(s, d), d) && Pump(s, d) == Pump(Turned(s, d), d)
      else Pump(s, d) == Turned(s, d)
  {
    var i := s.At(d).queue[0];
    TurnKeeps(s, d);
    var (t, releases) := Execute(Take(s, d), i);
    if releases { FreeTurnKeeps(t, i); }
  }

  /** A later revocation does not change why an operation was refused. */
  lemma RefusedAnyway(o: Operation, before: bool, after: bool)
    requires before ==> after
    requires o.spec.RevokeCase? || Refusal(o, before).Some?
    ensures TakenRecord(o, after) == TakenRecord(o, before)
  {
  }

  /** Pumping a gate: those that left the queue took the gate in turn, and nobody else changed. */
  lemma {:induction false} PumpIs(s: State, d: Domain, i: nat)
    requires CanTurn(s, d) && i < |s.ops|
    ensures OnlyForward(s, Pump(s, d), d) && TakenOrSame(s, Pump(s, d), d, i)
    decreases |s.At(d).queue|
  {
    if s.At(d).queue != [] {
      var head := s.At(d).queue[0];
      var t := Turned(s, d);
      assert Distinct(s.At(d).queue) by { assert DomainOk(s, d); }
      TurnIs(s, d);
      TurnGoesOn(s, d);
      HeadIsGone(s.At(d).queue);
      if Execute(Take(s, d), head).1 {
        PumpIs(t, d, i);
        if i == head { RefusedAnyway(s.ops[i], s.At(d).revoked, Pump(s, d).At(d).revoked); }
      }
    }
  }

  lemma HeadIsGone(queue: seq<nat>)
    requires queue != [] && Distinct(queue)
    ensures forall k :: k in queue[1..] <==> k in queue && k != queue[0]
  {
  }

  // ---- release ----------------------------------------------------------------------------------

  /** A holder that leaves its gate. */
  ghost predicate CanRelease(s: State, j: nat) {
    CoreInv(s) && Releasing(s, j) && forall e :: e != s.ops[j].domain ==> Quiet(s, e)
  }

  lemma ReleaseIs(s: State, j: nat, i: nat)
    requires CanRelease(s, j) && i < |s.ops| && i != j
    ensures OnlyForward(s, Release(s, j), s.ops[j].domain) && TakenOrSame(s, Release(s, j), s.ops[j].domain, i)
  {
    FreeTurnKeeps(s, j);
    FreeIs(s, j);
    PumpIs(Free(s, j), s.ops[j].domain, i);
  }

  // ---- the effect boundary ----------------------------------------------------------------------

  lemma ReleasedReadIs(o: Operation)
    requires o.spec.HttpCase?
    ensures HandOff(o, HttpRelease, o.spec.fault, Released) == AdmittedRecord(o)
  {
  }

  lemma StartIs(s: State, i: nat)
    requires CoreInv(s) && RunsNow(s, i) && s.ops[i].Kind() == Provider && AuthorizationFailure(s, i).None?
    ensures var r := AdmitProvider(s, i);
      && r.1 && r.0.ops[i] == Decide(s.ops[i], AdmittedPhase, Admitted, Started).(at := Returned)
      && forall d :: r.0.At(d) == s.At(d)
  {
    PermitAccepted(s, i, ProviderStart);
    AdmitProviderIs(s, i);
  }

  /** What a job that was started does next, in the same step. */
  ghost function Completed(o: Operation): Operation
    requires o.spec.ProviderCase?
  {
    if o.decision != Some(Admitted) then o
    else if o.spec.completionGated then o.(at := AtCompletion)
    else o.(at := Returned, completion :=
      if o.completion.Some? then o.completion else Some(if o.spec.succeeds then CompletedOk else CompletedError))
  }

  ghost function After(o: Operation, releases: bool): Operation {
    if releases && o.spec.ProviderCase? then Completed(Freed(o, releases)) else Freed(o, releases)
  }

  lemma StartedIs(o: Operation)
    requires o.spec.ProviderCase?
    ensures After(Decide(o, AdmittedPhase, Admitted, Started).(at := Returned), true) == AdmittedRecord(o)
  {
  }

  lemma DeniedStays(o: Operation, r: Operation, releases: bool, reason: Reason)
    requires Freed(r, releases) == DeniedRecord(o, reason)
    ensures After(r, releases) == DeniedRecord(o, reason)
  {
  }

  lemma CrossingIs(s: State, i: nat)
    requires CoreInv(s) && RunsNow(s, i) && s.ops[i].Kind() != Revoke
    ensures var r := CrossBoundary(s, i);
      && After(r.0.ops[i], r.1) == DecidedRecord(s.ops[i], s.At(s.ops[i].domain).revoked)
      && forall d :: r.0.At(d) == s.At(d)
  {
    AuthorizationIs(s, i);
    var o := s.ops[i];
    match AuthorizationFailure(s, i)
    case Some(reason) => CrossingDenied(s, i, reason);
    case None =>
      if o.spec.store != Allow {
        CrossingDenied(s, i, if o.spec.store == Deny then StoreDenied else StoreFailed);
      } else if o.spec.HttpCase? {
        HandOffIs(s, i, HttpRelease, o.spec.fault, Released);
        ReleasedReadIs(o);
      } else {
        StartIs(s, i);
        StartedIs(o);
      }
  }

  lemma CrossingDenied(s: State, i: nat, reason: Reason)
    requires CoreInv(s) && RunsNow(s, i) && s.ops[i].Kind() != Revoke
    ensures var r := DenyHeld(s, i, reason);
      && After(r.0.ops[i], r.1) == DeniedRecord(s.ops[i], reason)
      && forall d :: r.0.At(d) == s.At(d)
  {
    DenialIs(s, i, reason);
    DeniedStays(s.ops[i], DenyHeld(s, i, reason).0.ops[i], DenyHeld(s, i, reason).1, reason);
  }

  lemma DeniedAnyway(o: Operation, reason: Reason)
    ensures DeniedRecord(o.(at := Executing), reason) == DeniedRecord(o, reason)
  {
  }

  lemma AdmittedAnyway(o: Operation)
    ensures AdmittedRecord(o.(at := Executing)) == AdmittedRecord(o)
  {
    match o.spec
    case HttpCase(_, _, _, fault) =>
    case ProviderCase(_, _, _, completionGated, succeeds) =>
    case RevokeCase =>
  }

  lemma DecidedAnyway(o: Operation, revoked: bool)
    requires !o.spec.RevokeCase?
    ensures DecidedRecord(o.(at := Executing), revoked) == DecidedRecord(o, revoked)
  {
    AdmittedAnyway(o);
    match Refusal(o, revoked)
    case Some(reason) => DeniedAnyway(o, reason);
    case None =>
      DeniedAnyway(o, StoreDenied);
      DeniedAnyway(o, StoreFailed);
  }

  /** A holder that resumes at its boundary. */
  ghost predicate AtBoundary(s: State, i: nat) {
    && Inv(s) && i < |s.ops| && s.owner == Running
    && (s.ops[i].at == AfterStore || s.ops[i].at == AtPreBoundary)
    && !s.ops[i].spec.RevokeCase?
  }

  lemma CrossedIs(s: State, i: nat)
    requires AtBoundary(s, i)
    ensures var r := Crossed(s, i);
      && After(r.0.ops[i], r.1) == DecidedRecord(s.ops[i], s.At(s.ops[i].domain).revoked)
      && (forall d :: r.0.At(d) == s.At(d))
      && (forall k :: 0 <= k < |s.ops| && k != i ==> r.0.ops[k] == s.ops[k])
  {
    ResumeKeeps(s, i);
    CrossedKeeps(s, i);
    CrossingIs(s.SetOp(i, s.ops[i].(at := Executing)), i);
    DecidedAnyway(s.ops[i], s.At(s.ops[i].domain).revoked);
  }

  lemma CompletionIs(u: State, i: nat)
    requires Wf(u) && i < |u.ops| && u.ops[i].spec.ProviderCase? && u.owner != Stopped
    requires u.ops[i].decision == Some(Admitted)
    ensures StartCompletion(u, i).ops[i] == Completed(u.ops[i])
  {
  }

  lemma AfterBoundaryIs(t: State, releases: bool, i: nat)
    requires CoreInv(t) && Outcome(t, i, releases) && forall e :: e != t.ops[i].domain ==> Quiet(t, e)
    ensures AfterBoundary((t, releases), i).ops[i] == After(t.ops[i], releases)
  {
    if releases {
      ReleaseSettles(t, i);
      ReleaseKeeps(t, i);
      var u := Release(t, i);
      assert u.ops[i] == Freed(t.ops[i], true);
      if t.ops[i].spec.ProviderCase? && t.ops[i].decision == Some(Admitted) { CompletionIs(u, i); }
    }
  }

  lemma CompletionStrangers(u: State, i: nat, k: nat)
    requires Wf(u) && i < |u.ops| && u.ops[i].spec.ProviderCase? && k < |u.ops| && k != i
    ensures StartCompletion(u, i).ops[k] == u.ops[k] && StartCompletion(u, i).alpha == u.alpha
    ensures StartCompletion(u, i).beta == u.beta
  {
  }

  lemma AfterBoundaryOthers(t: State, releases: bool, i: nat, k: nat)
    requires CoreInv(t) && Outcome(t, i, releases) && forall e :: e != t.ops[i].domain ==> Quiet(t, e)
    requires k < |t.ops| && k != i
    ensures OnlyForward(t, AfterBoundary((t, releases), i), t.ops[i].domain)
    ensures TakenOrSame(t, AfterBoundary((t, releases), i), t.ops[i].domain, k)
  {
    if releases {
      ReleaseIs(t, i, k);
      ReleaseSettles(t, i);
      if t.ops[i].spec.ProviderCase? { CompletionStrangers(Release(t, i), i, k); }
    }
  }

  lemma ReleaseCount(s: State, j: nat)
    requires CanRelease(s, j)
    ensures |Release(s, j).ops| == |s.ops|
  {
    FreeTurnKeeps(s, j);
    PumpIs(Free(s, j), s.ops[j].domain, j);
  }

  lemma AfterBoundaryCount(t: State, releases: bool, i: nat)
    requires CoreInv(t) && Outcome(t, i, releases) && forall e :: e != t.ops[i].domain ==> Quiet(t, e)
    ensures |AfterBoundary((t, releases), i).ops| == |t.ops|
  {
    if releases {
      ReleaseCount(t, i);
      ReleaseSettles(t, i);
      if t.ops[i].spec.ProviderCase? { CompletionFrame(Release(t, i), i); }
    }
  }

  /** Crossing the boundary: the holder is decided, and those behind it may take the gate. */
  lemma BoundaryIs(s: State, i: nat, k: nat)
    requires AtBoundary(s, i) && k < |s.ops|
    ensures var t := Boundary(s, i);
      && |t.ops| == |s.ops|
      && t.ops[i] == DecidedRecord(s.ops[i], s.At(s.ops[i].domain).revoked)
      && (k != i ==> TakenOrSame(s, t, s.ops[i].domain, k))
  {
    CrossedKeeps(s, i);
    CrossedIs(s, i);
    var (t, releases) := Crossed(s, i);
    AfterBoundaryIs(t, releases, i);
    AfterBoundaryCount(t, releases, i);
    if k != i { AfterBoundaryOthers(t, releases, i, k); }
  }

  // ---- what a step does to the operations it is not about ---------------------------------------

  /** Between running states an operation may leave its queue; when the owner ends it is invalidated. */
  ghost predicate Bystander(s: State, t: State, i: nat)
    requires i < |s.ops|
  {
    && i < |t.ops|
    && if s.owner != Running then t.ops[i] == s.ops[i]
       else if t.owner == Running then TakenOrSame(s, t, s.ops[i].domain, i)
       else t.ops[i] == EndedRecord(s.ops[i], if t.owner == Stopped then OwnerStopped else OwnerPoisoned)
  }

  ghost predicate IsAbout(step: Step, i: nat) {
    step.Advance? && step.op == i
  }

  lemma EndedIs(o: Operation, reason: Reason)
    ensures InvalidatedOp(o, reason) == EndedRecord(o, reason)
  {
    if !o.done {
      match o.decision
      case None =>
      case Some(_) =>
    }
  }

  lemma UnsettledIsStored(s: State, i: nat)
    requires Inv(s) && s.owner == Running && i < |s.ops|
    ensures s.ops[i].done || Stored(s, i)
  {
    assert Base(s, i) && Live(s.ops[i]);
  }

  /** Poisoning or stopping invalidates every operation that is not settled. */
  lemma InvalidationIs(s: State, u: State, owner: OwnerState, e: TraceEvent, reason: Reason, i: nat)
    requires Inv(s) && s.owner == Running && i < |s.ops| && |u.ops| == |s.ops| && u.ops[i] == s.ops[i]
    requires u.alpha == s.alpha && u.beta == s.beta && u.pending == s.pending
    ensures InvalidateAll(u.(owner := owner).Emit(e), reason).ops[i] == EndedRecord(s.ops[i], reason)
  {
    UnsettledIsStored(s, i);
    EndedIs(s.ops[i], reason);
  }

  lemma PoisonIs(s: State, j: nat, o: Operation, cause: PoisonCause, i: nat)
    requires Inv(s) && s.owner == Running && i < |s.ops| && j < |s.ops| && i != j
    ensures var t := Poison(s.SetOp(j, o), cause);
      t.owner == Poisoned && i < |t.ops| && t.ops[i] == EndedRecord(s.ops[i], OwnerPoisoned)
  {
    InvalidationIs(s, s.SetOp(j, o), Poisoned, PoisonedEvent(cause), OwnerPoisoned, i);
  }

  lemma StopIs(s: State, i: nat)
    requires Inv(s) && i < |s.ops|
    ensures Bystander(s, StepStop(s), i)
  {
    if s.owner == Running {
      InvalidationIs(s, s, Stopped, StoppedEvent, OwnerStopped, i);
    } else {
      assert Ended(s.ops[i]);
    }
  }

  /** Queuing an operation changes no other, and no other leaves its queue. */
  lemma EnqueueIs(s: State, n: nat, i: nat)
    requires Unplaced(s, n) && i < |s.ops| && i != n
    ensures var (t, d) := (Enqueue(s, n), s.ops[i].domain);
      && i < |t.ops| && t.ops[i] == s.ops[i] && (i in s.At(d).queue ==> i in t.At(d).queue)
  {
    var d := s.ops[n].domain;
    AppendOther(s, n, i);
    assert Quiet(s, d);
    if s.At(d).active.None? {
      AppendKeeps(s, n);
      PumpIs(Append(s, n), d, i);
      if s.ops[i].domain != d { EnqueueElsewhere(s, n, s.ops[i].domain); }
    }
  }

  lemma EnqueueKeepsRunning(s: State, n: nat, i: nat, r: State)
    requires Unplaced(s, n) && i < |r.ops| && i < |s.ops| && i != n && r.owner == Running
    requires r.ops[i] == s.ops[i] && r.At(s.ops[i].domain).queue == s.At(s.ops[i].domain).queue
    ensures Bystander(r, Enqueue(s, n), i)
  {
    EnqueueIs(s, n, i);
    EnqueueKeeps(s, n);
  }

  lemma RequestBystander(s: State, d: Domain, spec: Case, i: nat)
    requires Inv(s) && i < |s.ops|
    ensures Bystander(s, StepRequest(s, d, spec), i)
  {
    if s.owner == Running && !spec.HttpCase? {
      NewOperationUnplaced(s, d, spec);
      EnqueueKeepsRunning(WithNew(s, d, spec), |s.ops|, i, s);
    }
  }

  lemma ServerReceivesBystander(s: State, j: nat, i: nat)
    requires Inv(s) && i < |s.ops| && j < |s.ops| && i != j
    ensures Bystander(s, StepServerReceives(s, j), i)
  {
    if s.owner == Running && j in s.pending {
      UnpendedUnplaced(s, j);
      EnqueueKeepsRunning(s.(pending := Without(s.pending, j)).SetOp(j, s.ops[j].(hasResponse := true)), j, i, s);
    }
  }

  /** A queue holds operations of its own domain only. */
  lemma ElsewhereSame(s: State, t: State, d: Domain, i: nat)
    requires Inv(s) && i < |s.ops| && TakenOrSame(s, t, d, i)
    requires s.ops[i].domain != d ==> t.At(s.ops[i].domain) == s.At(s.ops[i].domain)
    ensures TakenOrSame(s, t, s.ops[i].domain, i)
  {
    assert DomainOk(s, d);
  }

  lemma BoundaryBystander(s: State, j: nat, i: nat)
    requires AtBoundary(s, j) && i < |s.ops| && i != j
    ensures Bystander(s, Boundary(s, j), i)
  {
    BoundaryIs(s, j, i);
    BoundaryRuns(s, j);
    if s.ops[i].domain != s.ops[j].domain { BoundaryElsewhere(s, j, s.ops[i].domain); }
    ElsewhereSame(s, Boundary(s, j), s.ops[j].domain, i);
  }

  lemma AfterBoundaryRuns(t: State, releases: bool, j: nat)
    requires CoreInv(t) && Outcome(t, j, releases) && forall e :: e != t.ops[j].domain ==> Quiet(t, e)
    ensures AfterBoundary((t, releases), j).owner == Running
  {
    if releases {
      ReleaseKeeps(t, j);
      ReleaseSettles(t, j);
      if t.ops[j].spec.ProviderCase? { CompletionFrame(Release(t, j), j); }
    }
  }

  lemma CompletionFrame(u: State, j: nat)
    requires Wf(u) && j < |u.ops| && u.ops[j].spec.ProviderCase?
    ensures StartCompletion(u, j).owner == u.owner && |StartCompletion(u, j).ops| == |u.ops|
  {
  }

  lemma BoundaryRuns(s: State, j: nat)
    requires AtBoundary(s, j)
    ensures Boundary(s, j).owner == Running
  {
    CrossedKeeps(s, j);
    AfterBoundaryRuns(Crossed(s, j).0, Crossed(s, j).1, j);
  }

  lemma SameForBystander(s: State, t: State, i: nat)
    requires i < |s.ops| && i < |t.ops| && t.ops[i] == s.ops[i] && t.owner == s.owner
    requires t.At(s.ops[i].domain).queue == s.At(s.ops[i].domain).queue
    ensures Bystander(s, t, i)
  {
  }

  lemma StoreBystander(s: State, j: nat, i: nat)
    requires Inv(s) && i < |s.ops| && j < |s.ops| && i != j
    ensures Bystander(s, StepStoreContinues(s, j), i)
  {
    var o := s.ops[j];
    if AtBoundary(s, j) && o.at == AfterStore && !o.spec.preGated {
      BoundaryBystander(s, j, i);
    } else {
      SameForBystander(s, StepStoreContinues(s, j), i);
    }
  }

  lemma PreBoundaryBystander(s: State, j: nat, i: nat)
    requires Inv(s) && i < |s.ops| && j < |s.ops| && i != j
    ensures Bystander(s, StepPreBoundaryOpens(s, j), i)
  {
    if AtBoundary(s, j) && s.ops[j].at == AtPreBoundary {
      BoundaryBystander(s, j, i);
    } else {
      SameForBystander(s, StepPreBoundaryOpens(s, j), i);
    }
  }

  lemma CloseBystander(s: State, j: nat, i: nat)
    requires Inv(s) && i < |s.ops| && j < |s.ops| && i != j
    ensures Bystander(s, StepResponseClose(s, j), i)
  {
    if s.ops[j].hasResponse {
      ServerCloseBystander(s, j, i);
      var s1 := OnServerClose(s, j);
      assert StepResponseClose(s, j) == s1.(ops := StepResponseClose(s, j).ops);
      assert StepResponseClose(s, j).ops[i] == s1.ops[i];
    }
  }

  lemma ServerCloseBystander(s: State, j: nat, i: nat)
    requires Inv(s) && i < |s.ops| && j < |s.ops| && i != j
    ensures Bystander(s, OnServerClose(s, j), i)
  {
    if s.owner == Running { PoisonIs(s, j, s.ops[j].(transportLost := true), TransportLost, i); }
  }

  lemma FinishedBystander(s: State, j: nat, i: nat)
    requires Inv(s) && i < |s.ops| && j < |s.ops| && i != j
    requires s.owner == Running && s.ops[j].at == AtHttp(Some(FinishedResult))
    ensures Bystander(s, Release(s.SetOp(j, s.ops[j].(at := Returned)), j), i)
  {
    var s1 := s.SetOp(j, s.ops[j].(at := Returned));
    FinishedReturns(s, j);
    ReleaseIs(s1, j, i);
    ReleaseKeeps(s1, j);
    if s.ops[i].domain != s.ops[j].domain { ReleaseElsewhere(s1, j, s.ops[i].domain); }
    ElsewhereSame(s, Release(s1, j), s.ops[j].domain, i);
  }

  lemma BoundaryContinuesBystander(s: State, j: nat, i: nat)
    requires Inv(s) && i < |s.ops| && j < |s.ops| && i != j
    ensures Bystander(s, StepBoundaryContinues(s, j), i)
  {
    var o := s.ops[j];
    NotRejected(s, j);
    if o.at.AtHttp? && o.at.result.Some? {
      if s.owner != Running {
        SameForBystander(s, StepBoundaryContinues(s, j), i);
      } else if o.at.result.value == FinishedResult {
        FinishedBystander(s, j, i);
      } else {
        PoisonIs(s, j, o.(at := Returned), TransportTerminal, i);
      }
    }
  }

  /** Steps that change the record of their own operation only. */
  lemma RecordsBystander(s: State, j: nat, what: OperationStep, i: nat)
    requires Inv(s) && i < |s.ops| && j < |s.ops| && i != j
    requires what in {ClientCloses, Cancel, StoreOpens, ResponseFinish, ResponseError, CompletionOpens}
    ensures Bystander(s, StepOperation(s, j, what), i)
  {
    RecordsOnly(s, j, what);
    OwnRecordOnly(s, j, what, i);
    SameForBystander(s, StepOperation(s, j, what), i);
  }

  lemma OwnRecordOnly(s: State, j: nat, what: OperationStep, i: nat)
    requires Wf(s) && i < |s.ops| && j < |s.ops| && i != j
    requires what in {ClientCloses, Cancel, StoreOpens, ResponseFinish, ResponseError, CompletionOpens}
    ensures StepOperation(s, j, what).ops[i] == s.ops[i] && StepOperation(s, j, what).owner == s.owner
  {
    match what
    case ClientCloses =>
    case Cancel =>
    case StoreOpens =>
    case ResponseFinish =>
    case ResponseError =>
    case CompletionOpens =>
  }

  lemma AdvanceBystander(s: State, j: nat, what: OperationStep, i: nat)
    requires Inv(s) && i < |s.ops| && j < |s.ops| && i != j
    ensures Bystander(s, StepOperation(s, j, what), i)
  {
    match what
    case ServerReceives => ServerReceivesBystander(s, j, i);
    case StoreContinues => StoreBystander(s, j, i);
    case PreBoundaryOpens => PreBoundaryBystander(s, j, i);
    case ResponseClose => CloseBystander(s, j, i);
    case BoundaryContinues => BoundaryContinuesBystander(s, j, i);
    case _ => RecordsBystander(s, j, what, i);
  }

  lemma StepBystander(s: State, step: Step, i: nat)
    requires Inv(s) && i < |s.ops| && !IsAbout(step, i)
    ensures Bystander(s, Next(s, step), i)
  {
    match step
    case Request(d, spec) => RequestBystander(s, d, spec, i);
    case Stop => StopIs(s, i);
    case Advance(j, what) => if j < |s.ops| { AdvanceBystander(s, j, what, i); }
  }

  /**
   * A step that is not about an operation changes it in two ways only. If the operation was next in
   * line it takes its gate, and is committed, refused for the first reason that applies, or asks its
   * store. If the owner ends, it is invalidated unless it was decided or settled before.
   */
  lemma OthersChangeExactly(steps: seq<Step>, step: Step, i: nat)
    requires i < |Run(Init, steps).ops| && !IsAbout(step, i)
    ensures Bystander(Run(Init, steps), Next(Run(Init, steps), step), i)
  {
    ReachableOk(steps);
    StepBystander(Run(Init, steps), step, i);
  }

  // ---- the step of an operation itself ----------------------------------------------------------

  /**
   * An operation that crosses its effect boundary is decided by the first that applies: withdrawal,
   * lost transport, revocation, its store. Only then is it admitted.
   */
  lemma BoundaryDecidesExactly(steps: seq<Step>, i: nat, what: OperationStep)
    requires i < |Run(Init, steps).ops| && Run(Init, steps).owner == Running
    requires var o := Run(Init, steps).ops[i];
      && !o.spec.RevokeCase?
      && (|| (what == StoreContinues && o.at == AfterStore && !o.spec.preGated)
          || (what == PreBoundaryOpens && o.at == AtPreBoundary))
    ensures var (s, t) := (Run(Init, steps), Next(Run(Init, steps), Advance(i, what)));
      && i < |t.ops| && t.owner == Running
      && t.ops[i] == DecidedRecord(s.ops[i], s.At(s.ops[i].domain).revoked)
  {
    ReachableOk(steps);
    BoundaryIs(Run(Init, steps), i, i);
    BoundaryRuns(Run(Init, steps), i);
  }

  ghost function QueuedRecord(o: Operation, generation: nat): Operation {
    o.(expectedGeneration := Some(generation), phase := Queued, queuedAnswer := Some(o.queuedAnswer.GetOr(true)))
  }

  lemma AppendIs(s: State, n: nat)
    requires Wf(s) && n < |s.ops|
    ensures var (u, d) := (Append(s, n), s.ops[n].domain);
      && u.ops == s.ops[n := QueuedRecord(s.ops[n], s.At(d).generation)]
      && u.At(d).queue == s.At(d).queue + [n] && u.At(d).revoked == s.At(d).revoked
      && u.At(d).active == s.At(d).active && u.owner == s.owner
  {
  }

  /** A single operation in line takes the gate, and nobody is left. */
  lemma PumpOne(u: State, d: Domain, n: nat)
    requires CanTurn(u, d) && u.At(d).queue == [n] && n < |u.ops|
    ensures |Pump(u, d).ops| == |u.ops| && Pump(u, d).ops[n] == TakenRecord(u.ops[n], u.At(d).revoked)
  {
    TurnIs(u, d);
    TurnGoesOn(u, d);
  }

  /** A queued operation starts at once on a free gate, and otherwise is last in line. */
  lemma EnqueueSelf(s: State, n: nat)
    requires Unplaced(s, n)
    ensures var (t, g) := (Enqueue(s, n), s.At(s.ops[n].domain));
      var o := QueuedRecord(s.ops[n], g.generation);
      && |t.ops| == |s.ops|
      && if g.active.None? then t.ops[n] == TakenRecord(o, g.revoked)
         else t.ops[n] == o && t.At(o.domain).queue == g.queue + [n]
  {
    var d := s.ops[n].domain;
    AppendIs(s, n);
    if s.At(d).active.None? {
      assert Quiet(s, d);
      AppendKeeps(s, n);
      PumpOne(Append(s, n), d, n);
    }
  }

  /** Calls of a running owner: an operation starts at once on a free gate, and otherwise is last in line. */
  lemma CallsStartOrWait(steps: seq<Step>, d: Domain, spec: Case)
    requires Run(Init, steps).owner == Running && !spec.HttpCase?
    ensures var (s, t) := (Run(Init, steps), Next(Run(Init, steps), Request(d, spec)));
      var (g, n) := (s.At(d), |s.ops|);
      var o := QueuedRecord(NewOperation(d, spec), g.generation);
      && |t.ops| == n + 1
      && if g.active.None? then t.ops[n] == TakenRecord(o, g.revoked)
         else t.ops[n] == o && t.At(d).queue == g.queue + [n]
  {
    ReachableOk(steps);
    NewOperationUnplaced(Run(Init, steps), d, spec);
    EnqueueSelf(WithNew(Run(Init, steps), d, spec), |Run(Init, steps).ops|);
  }

  lemma ReceivedIs(s: State, i: nat)
    requires Inv(s) && s.owner == Running && i < |s.ops| && i in s.pending
    ensures var (t, g) := (StepServerReceives(s, i), s.At(s.ops[i].domain));
      var o := QueuedRecord(s.ops[i].(hasResponse := true), g.generation);
      && |t.ops| == |s.ops|
      && if g.active.None? then t.ops[i] == TakenRecord(o, g.revoked)
         else t.ops[i] == o && t.At(o.domain).queue == g.queue + [i]
  {
    UnpendedUnplaced(s, i);
    EnqueueSelf(s.(pending := Without(s.pending, i)).SetOp(i, s.ops[i].(hasResponse := true)), i);
  }

  /** A read that reaches the server starts at once on a free gate, and otherwise is last in line. */
  lemma ReadsStartOrWait(steps: seq<Step>, i: nat)
    requires var s := Run(Init, steps); s.owner == Running && i < |s.ops| && i in s.pending
    ensures var (s, t) := (Run(Init, steps), Next(Run(Init, steps), Advance(i, ServerReceives)));
      var g := s.At(s.ops[i].domain);
      var o := QueuedRecord(s.ops[i].(hasResponse := true), g.generation);
      && i < |t.ops|
      && if g.active.None? then t.ops[i] == TakenRecord(o, g.revoked)
         else t.ops[i] == o && t.At(o.domain).queue == g.queue + [i]
  {
    ReachableOk(steps);
    ReceivedIs(Run(Init, steps), i);
  }

  // ---- the transport ----------------------------------------------------------------------------

  /** The operation awaits the end of its response, and nothing has been reported yet. */
  ghost predicate Answering(s: State, i: nat) {
    i < |s.ops| && s.owner == Running && s.ops[i].at == AtHttp(None)
  }

  lemma AnsweringFacts(s: State, i: nat)
    requires Inv(s) && Answering(s, i)
    ensures var o := s.ops[i];
      && o.handoffAttempted && !o.finishObserved && o.decision.Some? && !o.done && o.phase != Settled
      && s.At(o.domain).active == Some(i)
  {
    assert Base(s, i) && Live(s.ops[i]);
  }

  lemma FinishIsNoted(s: State, i: nat)
    requires Wf(s) && Answering(s, i) && s.ops[i].handoffAttempted && !s.ops[i].finishObserved
    ensures StepResponseFinish(s, i)
         == s.SetOp(i, s.ops[i].(finishObserved := true, at := AtHttp(Some(FinishedResult))))
             .Emit(FinishEvent(i, s.ops[i].domain))
  {
  }

  lemma FinishedContinues(u: State, i: nat)
    requires Inv(u) && u.owner == Running && i < |u.ops| && u.ops[i].at == AtHttp(Some(FinishedResult))
    ensures var t := StepBoundaryContinues(u, i);
      && t.owner == Running && i < |t.ops| && t.At(u.ops[i].domain).active != Some(i)
      && t.ops[i] == u.ops[i].(at := Returned, phase := Settled, done := true)
  {
    FinishedReturns(u, i);
    var v := u.SetOp(i, u.ops[i].(at := Returned));
    ReleaseSettles(v, i);
    ReleaseKeeps(v, i);
    assert Base(Release(v, i), i);
  }

  lemma FinishThenContinue(s: State, i: nat)
    requires Inv(s) && Answering(s, i) && Inv(StepResponseFinish(s, i))
    ensures var t := StepBoundaryContinues(StepResponseFinish(s, i), i);
      && t.owner == Running && i < |t.ops| && t.At(s.ops[i].domain).active != Some(i)
      && t.ops[i] == s.ops[i].(finishObserved := true, at := Returned, phase := Settled, done := true)
  {
    AnsweringFacts(s, i);
    FinishIsNoted(s, i);
    FinishedContinues(StepResponseFinish(s, i), i);
  }

  /** A response that finishes settles its operation and frees the gate; the owner goes on. */
  lemma FinishSettles(steps: seq<Step>, i: nat)
    requires Answering(Run(Init, steps), i)
    ensures var s := Run(Init, steps);
      var t := StepBoundaryContinues(StepResponseFinish(s, i), i);
      && t.owner == Running && i < |t.ops| && t.At(s.ops[i].domain).active != Some(i)
      && t.ops[i] == s.ops[i].(finishObserved := true, at := Returned, phase := Settled, done := true)
  {
    ReachableOk(steps);
    ResponseFinishKeeps(Run(Init, steps), i);
    FinishThenContinue(Run(Init, steps), i);
  }

  lemma TerminalContinues(u: State, i: nat)
    requires Wf(u) && u.owner == Running && i < |u.ops| && u.ops[i].at == AtHttp(Some(TerminalResult))
    requires u.At(u.ops[i].domain).active == Some(i) && u.ops[i].decision.Some?
    ensures var t := StepBoundaryContinues(u, i);
      && t.owner == Poisoned && i < |t.ops| && t.ops[i].done && t.ops[i].phase == u.ops[i].phase
      && t.ops[i].decision == u.ops[i].decision && t.ops[i].reason == u.ops[i].reason
  {
    var v := u.SetOp(i, u.ops[i].(at := Returned));
    assert Stored(v.(owner := Poisoned).Emit(PoisonedEvent(TransportTerminal)), i);
  }

  lemma ErrorIsNoted(s: State, i: nat)
    requires Wf(s) && Answering(s, i) && s.ops[i].handoffAttempted
    ensures StepResponseError(s, i) == s.SetOp(i, s.ops[i].(terminalFailure := true, at := AtHttp(Some(TerminalResult))))
  {
  }

  /** A response that fails first poisons the owner, and its operation keeps its decision. */
  lemma FailurePoisons(steps: seq<Step>, i: nat)
    requires Answering(Run(Init, steps), i)
    ensures var s := Run(Init, steps);
      var t := StepBoundaryContinues(StepResponseError(s, i), i);
      && t.owner == Poisoned && i < |t.ops| && t.ops[i].done && t.ops[i].phase != Settled
      && t.ops[i].decision == s.ops[i].decision && t.ops[i].reason == s.ops[i].reason
  {
    ReachableOk(steps);
    AnsweringFacts(Run(Init, steps), i);
    ErrorIsNoted(Run(Init, steps), i);
    TerminalContinues(StepResponseError(Run(Init, steps), i), i);
  }

  lemma ServerClosePoisons(s: State, i: nat)
    requires Wf(s) && i < |s.ops| && s.owner == Running && s.HoldsGate(i)
    requires s.ops[i].hasResponse && !s.ops[i].finishObserved && !s.ops[i].transportLost
    ensures StepResponseClose(s, i).owner == Poisoned
  {
    assert OnServerClose(s, i).owner == Poisoned;
  }

  /** A connection that closes under a held gate before the response finished poisons the owner at once. */
  lemma ClosePoisons(steps: seq<Step>, i: nat)
    requires var s := Run(Init, steps);
      && i < |s.ops| && s.owner == Running && s.At(s.ops[i].domain).active == Some(i)
      && s.ops[i].Kind() == Http && !s.ops[i].finishObserved
    ensures StepResponseClose(Run(Init, steps), i).owner == Poisoned
  {
    ReachableOk(steps);
    HolderIsConnected(Run(Init, steps), i);
    ServerClosePoisons(Run(Init, steps), i);
  }

  lemma HolderIsConnected(s: State, i: nat)
    requires Inv(s) && i < |s.ops| && s.owner == Running && s.HoldsGate(i) && s.ops[i].Kind() == Http
    ensures s.ops[i].hasResponse && !s.ops[i].transportLost
  {
    assert Base(s, i) && Quiet(s, s.ops[i].domain);
  }

  lemma CloseKeepsReport(s: State, i: nat)
    requires Wf(s) && i < |s.ops| && s.ops[i].at.AtHttp? && s.ops[i].at.result.Some?
    ensures StepResponseClose(s, i).ops[i].at == s.ops[i].at
  {
    InvalidatedFields(s.ops[i].(transportLost := true), OwnerPoisoned);
  }

  /** What was reported of a response first stands: no later report changes it. */
  lemma FirstReportStands(steps: seq<Step>, i: nat, what: OperationStep)
    requires var s := Run(Init, steps); i < |s.ops| && s.ops[i].at.AtHttp? && s.ops[i].at.result.Some?
    requires what in {ResponseFinish, ResponseError, ResponseClose}
    ensures var t := StepOperation(Run(Init, steps), i, what);
      i < |t.ops| && t.ops[i].at == Run(Init, steps).ops[i].at
  {
    if what == ResponseClose { CloseKeepsReport(Run(Init, steps), i); }
  }

  // ---- the other ends ---------------------------------------------------------------------------

  /** A read whose client goes away before the server saw it is invalidated as lost, and is never queued. */
  lemma LostBeforeQueueing(steps: seq<Step>, i: nat)
    requires i < |Run(Init, steps).ops| && i in Run(Init, steps).pending
    ensures var (s, t) := (Run(Init, steps), StepClientCloses(Run(Init, steps), i));
      && i < |t.ops| && i !in t.pending && t.owner == s.owner
      && t.ops[i] == EndedRecord(s.ops[i].(transportLost := true), LostBeforeQueue)
  {
    EndedIs(Run(Init, steps).ops[i].(transportLost := true), LostBeforeQueue);
  }

  /** A job whose completion barrier opens reports how it ended, once; a stopped owner ignores it. */
  lemma CompletionIsRecorded(steps: seq<Step>, i: nat)
    requires i < |Run(Init, steps).ops| && Run(Init, steps).ops[i].at == AtCompletion
    ensures var (s, t) := (Run(Init, steps), StepCompletionOpens(Run(Init, steps), i));
      var o := s.ops[i];
      && o.spec.ProviderCase? && i < |t.ops| && t.ops[i].at == Returned
      && t.ops[i].completion ==
         if o.completion.Some? then o.completion
         else if s.owner == Stopped then Some(Ignored)
         else if o.spec.succeeds then Some(CompletedOk)
         else Some(CompletedError)
  {
    ReachableOk(steps);
    assert Base(Run(Init, steps), i);
  }
}
