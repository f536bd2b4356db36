/**
 * The effect-ordering owner (scripts/local-synthetic-alpha/harness.ts) as a step relation.
 * One step is the code between two awaits. The environment picks the step: a call of the public
 * interface, a barrier or microtask that resumes an operation, or a transport event.
 */
module OwnerModel {
  import opened Prelude
  import opened Permits

  datatype OwnerState = Running | Poisoned | Stopped
  datatype OperationKind = Http | Provider | Revoke
  datatype StoreOutcome = Allow | Deny | Error
  datatype TransportFault = NoFault | EndThrowsAfterEnd | SocketDestroyedAtHandoff

  /** The scripted fixture case of an operation; a revocation has none. */
  datatype Case =
    | HttpCase(store: StoreOutcome, storeGated: bool, preGated: bool, fault: TransportFault)
    | ProviderCase(store: StoreOutcome, storeGated: bool, preGated: bool, completionGated: bool, succeeds: bool)
    | RevokeCase
  {
    function Kind(): OperationKind {
      match this
      case HttpCase(_, _, _, _) => Http
      case ProviderCase(_, _, _, _, _) => Provider
      case RevokeCase => Revoke
    }
  }

  datatype Phase = Queued | Held | Resolving | AdmittedPhase | DeniedPhase | Settled
  datatype Decision = Admitted | Denied | Invalidated
  datatype Reason =
    | Committed | Started | Released
    | Cancelled | LostWhileQueued | RevokedOrStale | StoreDenied | StoreFailed
    | OwnerPoisoned | OwnerStopped | LostBeforeQueue

  datatype BoundaryResult = FinishedResult | TerminalResult | RejectedResult

  /** Where the operation's coroutine stands. */
  datatype Point =
    | NotStarted
    | Executing                                  // running synchronously, never visible between steps
    | AtStoreBarrier                             // awaiting the "store" barrier
    | AfterStore                                 // store resolved, continuation pending
    | AtPreBoundary                              // awaiting the "pre-boundary" barrier
    | AtHttp(result: Option<BoundaryResult>)     // awaiting the HTTP boundary's promise
    | AtCompletion                               // awaiting the "completion" barrier
    | Returned

  datatype Completion = CompletedOk | CompletedError | Ignored | NeverStarted

  datatype Operation = Operation(
    domain: Domain,
    spec: Case,
    expectedGeneration: Option<nat>,
    phase: Phase,
    decision: Option<Decision>,
    reason: Option<Reason>,
    cancelRequested: bool,
    transportLost: bool,
    hasResponse: bool,
    handoffAttempted: bool,
    finishObserved: bool,
    terminalFailure: bool,
    done: bool,
    queuedAnswer: Option<bool>,
    completion: Option<Completion>,
    at: Point)
  {
    function Kind(): OperationKind { spec.Kind() }
  }

  datatype Gate = Gate(generation: nat, revoked: bool, queue: seq<nat>, active: Option<nat>)

  datatype ProviderJob = ProviderJob(op: nat, domain: Domain, generation: nat)

  datatype PoisonCause = PermitRejected | TransportTerminal | TransportLost

  datatype TraceEvent =
    | QueuedEvent(op: nat, domain: Domain, generation: nat)
    | HeldEvent(op: nat, domain: Domain, generation: nat)
    | MintedEvent(op: nat, domain: Domain, generation: nat, kind: PermitKind)
    | ConsumedEvent(op: nat, domain: Domain, generation: nat, kind: PermitKind)
    | RejectedEvent(op: nat, domain: Domain, generation: nat, kind: PermitKind)
    | CommitEvent(op: nat, domain: Domain, generation: nat)
    | ProviderAdmittedEvent(op: nat, domain: Domain, generation: nat)
    | HandoffEvent(op: nat, domain: Domain)
    | FinishEvent(op: nat, domain: Domain)
    | SettledEvent(op: nat, domain: Domain)
    | PoisonedEvent(cause: PoisonCause)
    | StoppedEvent

  /** The owner's trace, latest event outermost. */
  datatype Trace = Start | Then(before: Trace, event: TraceEvent)

  datatype State = State(
    owner: OwnerState,
    alpha: Gate,
    beta: Gate,
    ops: seq<Operation>,
    pending: seq<nat>,
    jobs: seq<ProviderJob>,
    trace: Trace)
  {
    function At(d: Domain): Gate {
      match d case Alpha => alpha case Beta => beta
    }

    function With(d: Domain, g: Gate): State {
      match d case Alpha => this.(alpha := g) case Beta => this.(beta := g)
    }

    function Emit(e: TraceEvent): State {
      this.(trace := Then(trace, e))
    }

    function SetOp(i: nat, o: Operation): State
      requires i < |ops|
    {
      this.(ops := ops[i := o])
    }

    predicate HoldsGate(i: nat)
      requires i < |ops|
    {
      At(ops[i].domain).active == Some(i)
    }
  }

  const FreshGate := Gate(1, false, [], None)
  const Init := State(Running, FreshGate, FreshGate, [], [], [], Start)

  predicate GateOk(g: Gate, n: nat) {
    && (forall i :: i in g.queue ==> i < n)
    && (g.active.Some? ==> g.active.value < n)
  }

  /** Every operation number stored anywhere is that of a created operation. */
  predicate Wf(s: State) {
    && GateOk(s.alpha, |s.ops|)
    && GateOk(s.beta, |s.ops|)
    && (forall i :: i in s.pending ==> i < |s.ops|)
  }

  /** What no step changes about the operations that exist: their number grows, their case stays. */
  predicate Extends(s: State, t: State) {
    && |s.ops| <= |t.ops|
    && (forall i :: 0 <= i < |s.ops| ==> t.ops[i].domain == s.ops[i].domain && t.ops[i].spec == s.ops[i].spec)
  }

  // ---- poison and invalidation ----------------------------------------------------------------

  function InvalidatedOp(o: Operation, reason: Reason): Operation {
    if o.done then o
    else
      o.(decision := Some(o.decision.GetOr(Invalidated)),
         reason := if o.decision.None? then Some(reason) else o.reason,
         queuedAnswer := Some(o.queuedAnswer.GetOr(false)),
         completion :=
           if o.decision != Some(Admitted) then Some(o.completion.GetOr(NeverStarted)) else o.completion,
         done := true)
  }

  /** The operation waits in a queue, holds a gate, or has not reached the server. */
  predicate Stored(s: State, i: nat) {
    || i in s.alpha.queue || s.alpha.active == Some(i)
    || i in s.beta.queue || s.beta.active == Some(i)
    || i in s.pending
  }

  function InvalidateAll(s: State, reason: Reason): (t: State)
    ensures t == s.(ops := t.ops) && |t.ops| == |s.ops|
    ensures Extends(s, t)
  {
    s.(ops := seq(|s.ops|, i requires 0 <= i < |s.ops| =>
      if Stored(s, i) then InvalidatedOp(s.ops[i], reason) else s.ops[i]))
  }

  function Poison(s: State, cause: PoisonCause): (t: State)
    ensures Extends(s, t)
    ensures Wf(s) ==> Wf(t)
    ensures t.alpha == s.alpha && t.beta == s.beta && t.pending == s.pending && t.jobs == s.jobs
  {
    if s.owner != Running then s
    else InvalidateAll(s.(owner := Poisoned).Emit(PoisonedEvent(cause)), OwnerPoisoned)
  }

  // ---- permits --------------------------------------------------------------------------------

  /** Recheck at the effect boundary of a permit that its authority accepted. */
  predicate BoundaryHolds(s: State, i: nat, kind: PermitKind)
    requires i < |s.ops|
  {
    var o := s.ops[i];
    var g := s.At(o.domain);
    && s.owner == Running
    && g.active == Some(i)
    && !o.transportLost
    && !(kind in {HttpRelease, ProviderStart}
         && (o.cancelRequested || g.revoked || Some(g.generation) != o.expectedGeneration))
  }

  /** Mint and consume in the same synchronous step. */
  function MintAndConsume(s: State, i: nat, kind: PermitKind): (r: (State, bool))
    requires i < |s.ops|
    ensures r.0 == s.(trace := r.0.trace)
  {
    var o := s.ops[i];
    var g := s.At(o.domain);
    var binding := Binding(o.domain, g.generation, i, kind);
    var s1 := s.Emit(MintedEvent(i, o.domain, g.generation, kind));
    var verdict := Judge(Some(Record(binding, false)), binding);
    if verdict == Accepted && BoundaryHolds(s1, i, kind) then
      (s1.Emit(ConsumedEvent(i, o.domain, g.generation, kind)), true)
    else
      (s1.Emit(RejectedEvent(i, o.domain, g.generation, kind)), false)
  }

  /** Reason to deny a held operation without any protected effect. */
  function AuthorizationFailure(s: State, i: nat): Option<Reason>
    requires i < |s.ops|
  {
    var o := s.ops[i];
    var g := s.At(o.domain);
    if o.cancelRequested then Some(Cancelled)
    else if o.transportLost then Some(LostWhileQueued)
    else if g.revoked || Some(g.generation) != o.expectedGeneration then Some(RevokedOrStale)
    else None
  }

  // ---- running the holder ---------------------------------------------------------------------
  // Each function returns the new state and whether the code goes on to release the gate.

  function Decide(o: Operation, phase: Phase, decision: Decision, reason: Reason): Operation {
    o.(phase := phase, decision := Some(decision), reason := Some(reason))
  }

  /** The revocation commit: a new generation, revoked for good. */
  function CommitRevocation(s: State, i: nat): (t: State)
    requires Wf(s) && i < |s.ops|
    ensures Wf(t) && Extends(s, t)
    ensures forall d :: t.At(d).queue == s.At(d).queue && t.At(d).active == s.At(d).active
  {
    var d := s.ops[i].domain;
    var s1 := s.With(d, s.At(d).(generation := s.At(d).generation + 1, revoked := true));
    var s2 := s1.SetOp(i, Decide(s1.ops[i], AdmittedPhase, Admitted, Committed).(at := Returned));
    s2.Emit(CommitEvent(i, d, s.At(d).generation + 1))
  }

  function RunRevoke(s: State, i: nat): (r: (State, bool))
    requires Wf(s) && i < |s.ops|
    ensures Wf(r.0) && Extends(s, r.0)
    ensures forall d :: r.0.At(d).queue == s.At(d).queue && r.0.At(d).active == s.At(d).active
  {
    var (s1, ok) := MintAndConsume(s, i, RevokeCommit);
    if !ok then
      (Poison(s1.SetOp(i, s1.ops[i].(at := Returned)), PermitRejected), false)
    else
      (CommitRevocation(s1, i), true)
  }

  function DenyWithoutEffect(s: State, i: nat, reason: Reason): (r: (State, bool))
    requires Wf(s) && i < |s.ops|
    ensures Wf(r.0) && Extends(s, r.0)
    ensures forall d :: r.0.At(d).queue == s.At(d).queue && r.0.At(d).active == s.At(d).active
  {
    var o := Decide(s.ops[i], DeniedPhase, Denied, reason);
    (s.SetOp(i, o.(at := Returned, completion := Some(o.completion.GetOr(NeverStarted)))), true)
  }

  /** The operation once its response was handed to the transport, which may have thrown. */
  function HandOff(o: Operation, kind: PermitKind, fault: TransportFault, reason: Reason): (r: Operation)
    ensures r.domain == o.domain && r.spec == o.spec
  {
    var o1 :=
      if kind == HttpRelease then Decide(o, AdmittedPhase, Admitted, reason)
      else Decide(o, DeniedPhase, Denied, reason);
    var o2 := o1.(handoffAttempted := true, at := AtHttp(None));
    if fault == EndThrowsAfterEnd then o2.(terminalFailure := true, at := AtHttp(Some(TerminalResult)))
    else o2
  }

  /**
   * The HTTP effect boundary: consume the permit, then one synchronous hand-off. The operation is
   * left awaiting the boundary's promise, already resolved if the permit was refused or the
   * hand-off threw.
   */
  function HttpBoundary(s: State, i: nat, kind: PermitKind, fault: TransportFault, reason: Reason): (r: (State, bool))
    requires Wf(s) && i < |s.ops|
    ensures Wf(r.0) && Extends(s, r.0)
    ensures forall d :: r.0.At(d).queue == s.At(d).queue && r.0.At(d).active == s.At(d).active
  {
    var (s1, ok) := MintAndConsume(s, i, kind);
    var o := s1.ops[i];
    if !ok then
      (s1.SetOp(i, o.(at := AtHttp(Some(RejectedResult)))), false)
    else
      (s1.SetOp(i, HandOff(o, kind, fault, reason)).Emit(HandoffEvent(i, o.domain)), false)
  }

  function DenyHttp(s: State, i: nat, reason: Reason): (r: (State, bool))
    requires Wf(s) && i < |s.ops|
    ensures Wf(r.0) && Extends(s, r.0)
    ensures forall d :: r.0.At(d).queue == s.At(d).queue && r.0.At(d).active == s.At(d).active
  {
    if !s.ops[i].hasResponse || s.ops[i].transportLost then DenyWithoutEffect(s, i, reason)
    else HttpBoundary(s, i, HttpDenial, NoFault, reason)
  }

  function DenyHeld(s: State, i: nat, reason: Reason): (r: (State, bool))
    requires Wf(s) && i < |s.ops|
    ensures Wf(r.0) && Extends(s, r.0)
    ensures forall d :: r.0.At(d).queue == s.At(d).queue && r.0.At(d).active == s.At(d).active
  {
    if s.ops[i].Kind() == Http then DenyHttp(s, i, reason) else DenyWithoutEffect(s, i, reason)
  }

  /** From taking the gate up to the first await. */
  function Execute(s: State, i: nat): (r: (State, bool))
    requires Wf(s) && i < |s.ops|
    ensures Wf(r.0) && Extends(s, r.0)
    ensures forall d :: r.0.At(d).queue == s.At(d).queue && r.0.At(d).active == s.At(d).active
  {
    var o := s.ops[i];
    if o.spec.RevokeCase? then RunRevoke(s, i)
    else
      match AuthorizationFailure(s, i)
      case Some(reason) => DenyHeld(s, i, reason)
      case None =>
        (s.SetOp(i, o.(phase := Resolving, at := if o.spec.storeGated then AtStoreBarrier else AfterStore)), false)
  }

  /** Admission of a provider job: the permit, the frozen job record, the decision. */
  function AdmitProvider(s: State, i: nat): (r: (State, bool))
    requires Wf(s) && i < |s.ops|
    ensures Wf(r.0) && Extends(s, r.0)
    ensures forall d :: r.0.At(d).queue == s.At(d).queue && r.0.At(d).active == s.At(d).active
  {
    var (s1, ok) := MintAndConsume(s, i, ProviderStart);
    var o := s1.ops[i];
    if !ok then (Poison(s1.SetOp(i, o.(at := Returned)), PermitRejected), false)
    else
      var generation := s1.At(o.domain).generation;
      var s2 := s1.(jobs := s1.jobs + [ProviderJob(i, o.domain, generation)]);
      var s3 := s2.SetOp(i, Decide(o, AdmittedPhase, Admitted, Started).(at := Returned));
      (s3.Emit(ProviderAdmittedEvent(i, o.domain, generation)), true)
  }

  /** After the last await before the effect: recheck, apply the store outcome, cross the boundary. */
  function CrossBoundary(s: State, i: nat): (r: (State, bool))
    requires Wf(s) && i < |s.ops| && !s.ops[i].spec.RevokeCase?
    ensures Wf(r.0) && Extends(s, r.0)
    ensures forall d :: r.0.At(d).queue == s.At(d).queue && r.0.At(d).active == s.At(d).active
  {
    var o := s.ops[i];
    match AuthorizationFailure(s, i)
    case Some(reason) => DenyHeld(s, i, reason)
    case None =>
      if o.spec.store != Allow then DenyHeld(s, i, if o.spec.store == Deny then StoreDenied else StoreFailed)
      else if o.spec.HttpCase? then HttpBoundary(s, i, HttpRelease, o.spec.fault, Released)
      else AdmitProvider(s, i)
  }

  // ---- gate -----------------------------------------------------------------------------------

  /** The head of the queue becomes the holder. */
  function Take(s: State, d: Domain): (t: State)
    requires Wf(s) && s.At(d).queue != []
    ensures Wf(t) && Extends(s, t) && t.owner == s.owner
    ensures t.At(d).queue == s.At(d).queue[1..]
  {
    var g := s.At(d);
    var i := g.queue[0];
    assert i in g.queue && forall j :: j in g.queue[1..] ==> j in g.queue;
    var s1 := s.With(d, g.(queue := g.queue[1..], active := Some(i)));
    s1.SetOp(i, s1.ops[i].(phase := Held, at := Executing)).Emit(HeldEvent(i, d, g.generation))
  }

  /** The holder settles and gives the gate up. */
  function Free(s: State, i: nat): (t: State)
    requires Wf(s) && i < |s.ops|
    ensures Wf(t) && Extends(s, t) && t.owner == s.owner
    ensures forall d :: t.At(d).queue == s.At(d).queue
  {
    var o := s.ops[i];
    var s1 := s.SetOp(i, o.(phase := Settled, done := true));
    s1.With(o.domain, s1.At(o.domain).(active := None)).Emit(SettledEvent(i, o.domain))
  }

  /** A free gate of a running owner starts operations until one keeps the gate. */
  function Pump(s: State, d: Domain): (t: State)
    requires Wf(s)
    ensures Wf(t) && Extends(s, t)
    decreases |s.At(d).queue|
  {
    var g := s.At(d);
    if s.owner != Running || g.active.Some? || g.queue == [] then s
    else
      var i := g.queue[0];
      var (s1, releases) := Execute(Take(s, d), i);
      if releases && s1.HoldsGate(i) && s1.owner == Running && s1.ops[i].domain == d then Pump(Free(s1, i), d)
      else s1
  }

  /** Release: only by the holder of a running owner. */
  function Release(s: State, i: nat): (t: State)
    requires Wf(s) && i < |s.ops|
    ensures Wf(t) && Extends(s, t)
  {
    if !s.HoldsGate(i) || s.owner != Running then s else Pump(Free(s, i), s.ops[i].domain)
  }

  /** What follows a piece of code that may go on to release the gate. */
  function ReleaseIf(r: (State, bool), i: nat): (t: State)
    requires Wf(r.0) && i < |r.0.ops|
    ensures Wf(t) && Extends(r.0, t)
  {
    if r.1 then Release(r.0, i) else r.0
  }

  /** The expected generation is captured when the operation is queued, not when it runs. */
  function Append(s: State, i: nat): (t: State)
    requires Wf(s) && i < |s.ops|
    ensures Wf(t) && Extends(s, t)
  {
    var d := s.ops[i].domain;
    var g := s.At(d);
    var o := s.ops[i].(
      expectedGeneration := Some(g.generation),
      phase := Queued,
      queuedAnswer := Some(s.ops[i].queuedAnswer.GetOr(true)));
    s.SetOp(i, o).With(d, g.(queue := g.queue + [i])).Emit(QueuedEvent(i, d, g.generation))
  }

  function Enqueue(s: State, i: nat): (t: State)
    requires Wf(s) && i < |s.ops|
    ensures Wf(t) && Extends(s, t)
  {
    Pump(Append(s, i), s.ops[i].domain)
  }

  /** The inert completion of an admitted job, up to its barrier or to its end. */
  function FinishCompletion(s: State, i: nat): (t: State)
    requires Wf(s) && i < |s.ops| && s.ops[i].spec.ProviderCase?
    ensures Wf(t) && Extends(s, t)
  {
    var o := s.ops[i];
    var c := if s.owner == Stopped then Ignored else if o.spec.succeeds then CompletedOk else CompletedError;
    s.SetOp(i, o.(at := Returned, completion := Some(o.completion.GetOr(c))))
  }

  function StartCompletion(s: State, i: nat): (t: State)
    requires Wf(s) && i < |s.ops| && s.ops[i].spec.ProviderCase?
    ensures Wf(t) && Extends(s, t)
  {
    if s.ops[i].spec.completionGated then s.SetOp(i, s.ops[i].(at := AtCompletion))
    else FinishCompletion(s, i)
  }

  /** What follows the boundary: release, then the completion of a job that was admitted. */
  function AfterBoundary(r: (State, bool), i: nat): (t: State)
    requires Wf(r.0) && i < |r.0.ops|
    ensures Wf(t) && Extends(r.0, t)
  {
    var t := ReleaseIf(r, i);
    if r.0.ops[i].spec.ProviderCase? && r.1 && r.0.ops[i].decision == Some(Admitted) then StartCompletion(t, i) else t
  }

  /** The whole synchronous step from the boundary on. */
  function Boundary(s: State, i: nat): (t: State)
    requires Wf(s) && i < |s.ops| && !s.ops[i].spec.RevokeCase?
    ensures Wf(t) && Extends(s, t)
  {
    AfterBoundary(CrossBoundary(s.SetOp(i, s.ops[i].(at := Executing)), i), i)
  }

  // ---- steps ----------------------------------------------------------------------------------

  datatype OperationStep =
    | ServerReceives      // the server sees a pending request
    | ClientCloses        // the client connection ends before the server saw the request
    | Cancel
    | StoreOpens          // barrier "store"
    | StoreContinues      // microtask after the store outcome
    | PreBoundaryOpens    // barrier "pre-boundary"
    | ResponseFinish
    | ResponseError
    | ResponseClose
    | BoundaryContinues   // microtask after the boundary's promise
    | CompletionOpens     // barrier "completion"

  datatype Step =
    | Request(domain: Domain, spec: Case)   // a public call; the case names the kind
    | Advance(op: nat, what: OperationStep)
    | Stop

  function NewOperation(d: Domain, spec: Case): Operation {
    Operation(d, spec, None, Queued, None, None, false, false, false, false, false, false, false, None, None, NotStarted)
  }

  function Without(ids: seq<nat>, i: nat): (r: seq<nat>)
    ensures forall j :: j in r <==> j in ids && j != i
  {
    if ids == [] then []
    else if ids[0] == i then Without(ids[1..], i)
    else [ids[0]] + Without(ids[1..], i)
  }

  function StepRequest(s: State, d: Domain, spec: Case): (t: State)
    requires Wf(s)
    ensures Wf(t) && Extends(s, t)
  {
    if s.owner != Running then s
    else
      var i := |s.ops|;
      var s1 := s.(ops := s.ops + [NewOperation(d, spec)]);
      if spec.HttpCase? then s1.(pending := s1.pending + [i]) else Enqueue(s1, i)
  }

  function StepServerReceives(s: State, i: nat): (t: State)
    requires Wf(s) && i < |s.ops|
    ensures Wf(t) && Extends(s, t)
  {
    if s.owner != Running || i !in s.pending then s
    else
      var s1 := s.(pending := Without(s.pending, i));
      Enqueue(s1.SetOp(i, s1.ops[i].(hasResponse := true)), i)
  }

  function StepClientCloses(s: State, i: nat): (t: State)
    requires Wf(s) && i < |s.ops|
    ensures Wf(t) && Extends(s, t)
  {
    if i !in s.pending then s
    else
      var s1 := s.(pending := Without(s.pending, i));
      s1.SetOp(i, InvalidatedOp(s1.ops[i].(transportLost := true), LostBeforeQueue))
  }

  /** Whether a cancellation takes hold; a decided operation is never recalled. */
  predicate Cancellable(o: Operation) {
    o.decision.None? && o.phase != AdmittedPhase && o.phase != Settled && o.Kind() != Revoke
  }

  function StepCancel(s: State, i: nat): (t: State)
    requires Wf(s) && i < |s.ops|
    ensures Wf(t) && Extends(s, t)
  {
    if Cancellable(s.ops[i]) then s.SetOp(i, s.ops[i].(cancelRequested := true)) else s
  }

  function StepStoreOpens(s: State, i: nat): (t: State)
    requires Wf(s) && i < |s.ops|
    ensures Wf(t) && Extends(s, t)
  {
    if s.ops[i].at != AtStoreBarrier then s else s.SetOp(i, s.ops[i].(at := AfterStore))
  }

  function StepStoreContinues(s: State, i: nat): (t: State)
    requires Wf(s) && i < |s.ops|
    ensures Wf(t) && Extends(s, t)
  {
    var o := s.ops[i];
    if o.at != AfterStore || o.spec.RevokeCase? then s
    else if s.owner != Running then s.SetOp(i, o.(at := Returned))
    else if o.spec.preGated then s.SetOp(i, o.(at := AtPreBoundary))
    else Boundary(s, i)
  }

  function StepPreBoundaryOpens(s: State, i: nat): (t: State)
    requires Wf(s) && i < |s.ops|
    ensures Wf(t) && Extends(s, t)
  {
    var o := s.ops[i];
    if o.at != AtPreBoundary || o.spec.RevokeCase? then s
    else if s.owner != Running then s.SetOp(i, o.(at := Returned))
    else Boundary(s, i)
  }

  /** The boundary's promise takes its first resolution only. */
  function Resolved(at: Point, result: BoundaryResult): Point {
    if at == AtHttp(None) then AtHttp(Some(result)) else at
  }

  function StepResponseFinish(s: State, i: nat): (t: State)
    requires Wf(s) && i < |s.ops|
    ensures Wf(t) && Extends(s, t)
  {
    var o := s.ops[i];
    if !o.handoffAttempted || o.finishObserved then s
    else s.SetOp(i, o.(finishObserved := true, at := Resolved(o.at, FinishedResult))).Emit(FinishEvent(i, o.domain))
  }

  function StepResponseError(s: State, i: nat): (t: State)
    requires Wf(s) && i < |s.ops|
    ensures Wf(t) && Extends(s, t)
  {
    var o := s.ops[i];
    if !o.handoffAttempted then s
    else s.SetOp(i, o.(terminalFailure := true, at := Resolved(o.at, TerminalResult)))
  }

  /** The owner's own close listener: loss under a held gate poisons, it never releases. */
  function OnServerClose(s: State, i: nat): (t: State)
    requires Wf(s) && i < |s.ops|
    ensures Wf(t) && Extends(s, t)
  {
    var o := s.ops[i];
    if o.finishObserved || o.transportLost then s
    else
      var s1 := s.SetOp(i, o.(transportLost := true));
      if s1.owner == Running && s1.HoldsGate(i) then Poison(s1, TransportLost) else s1
  }

  function StepResponseClose(s: State, i: nat): (t: State)
    requires Wf(s) && i < |s.ops|
    ensures Wf(t) && Extends(s, t)
  {
    if !s.ops[i].hasResponse then s
    else
      var s1 := OnServerClose(s, i);
      var o := s1.ops[i];
      if !o.handoffAttempted || o.finishObserved then s1
      else s1.SetOp(i, o.(terminalFailure := true, at := Resolved(o.at, TerminalResult)))
  }

  function StepBoundaryContinues(s: State, i: nat): (t: State)
    requires Wf(s) && i < |s.ops|
    ensures Wf(t) && Extends(s, t)
  {
    var o := s.ops[i];
    if !o.at.AtHttp? || o.at.result.None? then s
    else
      var s1 := s.SetOp(i, o.(at := Returned));
      match o.at.result.value
      case FinishedResult => Release(s1, i)
      case TerminalResult => Poison(s1, TransportTerminal)
      case RejectedResult => if s1.owner == Running then Poison(s1, PermitRejected) else s1
  }

  function StepCompletionOpens(s: State, i: nat): (t: State)
    requires Wf(s) && i < |s.ops|
    ensures Wf(t) && Extends(s, t)
  {
    if s.ops[i].at != AtCompletion || !s.ops[i].spec.ProviderCase? then s else FinishCompletion(s, i)
  }

  function StepStop(s: State): (t: State)
    requires Wf(s)
    ensures Wf(t) && Extends(s, t)
  {
    if s.owner == Stopped then s
    else InvalidateAll(s.(owner := Stopped).Emit(StoppedEvent), OwnerStopped)
  }

  function StepOperation(s: State, i: nat, what: OperationStep): (t: State)
    requires Wf(s) && i < |s.ops|
    ensures Wf(t) && Extends(s, t)
  {
    match what
    case ServerReceives => StepServerReceives(s, i)
    case ClientCloses => StepClientCloses(s, i)
    case Cancel => StepCancel(s, i)
    case StoreOpens => StepStoreOpens(s, i)
    case StoreContinues => StepStoreContinues(s, i)
    case PreBoundaryOpens => StepPreBoundaryOpens(s, i)
    case ResponseFinish => StepResponseFinish(s, i)
    case ResponseError => StepResponseError(s, i)
    case ResponseClose => StepResponseClose(s, i)
    case BoundaryContinues => StepBoundaryContinues(s, i)
    case CompletionOpens => StepCompletionOpens(s, i)
  }

  /** One step; a step whose guard fails in the source leaves the state alone. */
  function Next(s: State, step: Step): (t: State)
    requires Wf(s)
    ensures Wf(t) && Extends(s, t)
  {
    match step
    case Request(d, spec) => StepRequest(s, d, spec)
    case Advance(i, what) => if i < |s.ops| then StepOperation(s, i, what) else s
    case Stop => StepStop(s)
  }

  /** The state after a run; the last step of the run comes last. */
  function Run(s: State, steps: seq<Step>): (t: State)
    requires Wf(s)
    ensures Wf(t) && Extends(s, t)
    decreases |steps|
  {
    if steps == [] then s else Next(Run(s, steps[..|steps| - 1]), steps[|steps| - 1])
  }
}
