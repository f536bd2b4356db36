/** What holds of the effect-ordering owner after every step. */
module OwnerInvariant {
  import opened Prelude
  import opened Permits
  import opened OwnerModel

  // ---- history, read off the trace ------------------------------------------------------------

  /** Operations queued in a domain, in order. */
  ghost function QueuedOrder(t: Trace, d: Domain): seq<nat> {
    match t
    case Start => []
    case Then(b, e) => if e.QueuedEvent? && e.domain == d then QueuedOrder(b, d) + [e.op] else QueuedOrder(b, d)
  }

  /** Operations that took a domain's gate, in order. */
  ghost function HeldOrder(t: Trace, d: Domain): seq<nat> {
    match t
    case Start => []
    case Then(b, e) => if e.HeldEvent? && e.domain == d then HeldOrder(b, d) + [e.op] else HeldOrder(b, d)
  }

  /** Revocations committed in a domain. */
  ghost function Commits(t: Trace, d: Domain): nat {
    match t
    case Start => 0
    case Then(b, e) => Commits(b, d) + if e.CommitEvent? && e.domain == d then 1 else 0
  }

  /** Times an operation was queued. */
  ghost function Queuings(t: Trace, i: nat): nat {
    match t
    case Start => 0
    case Then(b, e) => Queuings(b, i) + if e.QueuedEvent? && e.op == i then 1 else 0
  }

  /** Times an operation took its gate. */
  ghost function Holds(t: Trace, i: nat): nat {
    match t
    case Start => 0
    case Then(b, e) => Holds(b, i) + if e.HeldEvent? && e.op == i then 1 else 0
  }

  /** Permits accepted for an operation. */
  ghost function Effects(t: Trace, i: nat): nat {
    match t
    case Start => 0
    case Then(b, e) => Effects(b, i) + if e.ConsumedEvent? && e.op == i then 1 else 0
  }

  /** Release and start permits accepted for an operation. */
  ghost function AdmittingEffects(t: Trace, i: nat): nat {
    match t
    case Start => 0
    case Then(b, e) =>
      AdmittingEffects(b, i) + if e.ConsumedEvent? && e.op == i && IsAdmittingKind(e.kind) then 1 else 0
  }

  ghost predicate NoEventsOf(t: Trace, i: nat) {
    Queuings(t, i) == 0 && Holds(t, i) == 0 && Effects(t, i) == 0
    && AdmittingEffects(t, i) == 0 && AdmissionsOf(t, i) == 0
  }

  ghost predicate NoneBeyond(t: Trace, n: nat) {
    forall k: nat :: n <= k ==> NoEventsOf(t, k)
  }

  ghost predicate AboutBelow(e: TraceEvent, n: nat) {
    e.PoisonedEvent? || e.StoppedEvent? || e.op < n
  }

  lemma NoneBeyondThen(t: Trace, e: TraceEvent, n: nat)
    requires NoneBeyond(t, n) && AboutBelow(e, n)
    ensures NoneBeyond(Then(t, e), n)
  {
    forall k: nat | n <= k ensures NoEventsOf(Then(t, e), k) {
      assert NoEventsOf(t, k);
    }
  }

  /** Provider admissions in order. */
  ghost function Admissions(t: Trace): seq<ProviderJob> {
    match t
    case Start => []
    case Then(b, e) =>
      if e.ProviderAdmittedEvent? then Admissions(b) + [ProviderJob(e.op, e.domain, e.generation)] else Admissions(b)
  }

  ghost function AdmissionsOf(t: Trace, i: nat): nat {
    match t
    case Start => 0
    case Then(b, e) => AdmissionsOf(b, i) + if e.ProviderAdmittedEvent? && e.op == i then 1 else 0
  }

  /** The owner was poisoned or stopped. */
  ghost predicate HasEnded(t: Trace) {
    t.Then? && (t.event.PoisonedEvent? || t.event.StoppedEvent? || HasEnded(t.before))
  }

  ghost predicate IsAdmittingKind(kind: PermitKind) {
    kind in {HttpRelease, ProviderStart}
  }

  ghost predicate EndsInMint(t: Trace) {
    t.Then? && t.event.MintedEvent?
  }

  ghost predicate Consumes(e: TraceEvent, m: TraceEvent)
    requires m.MintedEvent?
  {
    e == ConsumedEvent(m.op, m.domain, m.generation, m.kind)
  }

  /** What an event may follow. */
  ghost predicate EventOk(b: Trace, e: TraceEvent) {
    && !e.RejectedEvent?
    && (EndsInMint(b) ==> Consumes(e, b.event))
    && (e.ConsumedEvent? ==> EndsInMint(b))
    && (e.ConsumedEvent? && IsAdmittingKind(e.kind) ==> Commits(b, e.domain) == 0 && e.generation == 1)
    && (e.CommitEvent? ==> e.generation == Commits(b, e.domain) + 2)
    && (e.ProviderAdmittedEvent? ==> e.generation == 1)
    && (e.PoisonedEvent? ==> e.cause != PermitRejected)
    && (HasEnded(b) ==> e.FinishEvent? || e.StoppedEvent?)
  }

  ghost predicate TraceOk(t: Trace) {
    t.Then? ==> TraceOk(t.before) && EventOk(t.before, t.event)
  }

  // ---- one operation --------------------------------------------------------------------------

  /** Settled for good: committed, recorded, denied without hand-off, or handed off and finished. */
  ghost predicate Definitive(o: Operation) {
    match o.Kind()
    case Revoke => o.decision == Some(Admitted)
    case Provider => o.decision == Some(Admitted) || o.decision == Some(Denied)
    case Http =>
      if o.handoffAttempted then o.finishObserved && o.decision in {Some(Admitted), Some(Denied)}
      else o.decision == Some(Denied)
  }

  ghost predicate Effected(o: Operation) {
    if o.Kind() == Http then o.handoffAttempted else o.decision == Some(Admitted)
  }

  ghost predicate Undecided(o: Operation) {
    o.decision == None || o.decision == Some(Invalidated)
  }

  ghost predicate PointOk(o: Operation) {
    match o.at
    case NotStarted => o.phase == Queued && Undecided(o) && !o.handoffAttempted
    case Executing => o.phase in {Held, Resolving} && o.decision == None && !o.handoffAttempted && !o.done
    case AtStoreBarrier => o.phase == Resolving && o.Kind() != Revoke && Undecided(o) && !o.handoffAttempted
    case AfterStore => o.phase == Resolving && o.Kind() != Revoke && Undecided(o) && !o.handoffAttempted
    case AtPreBoundary => o.phase == Resolving && o.Kind() != Revoke && Undecided(o) && !o.handoffAttempted
    case AtHttp(r) =>
      && o.handoffAttempted && o.phase in {AdmittedPhase, DeniedPhase}
      && (r == None ==> !o.finishObserved)
      && (r == Some(FinishedResult) ==> o.finishObserved)
      && (r == Some(TerminalResult) ==> o.terminalFailure)
      && r != Some(RejectedResult)
    case AtCompletion => o.Kind() == Provider && o.phase == Settled
    case Returned => true
  }

  ghost predicate OperationOk(o: Operation) {
    && PointOk(o)
    && (o.handoffAttempted ==> o.Kind() == Http && o.decision in {Some(Admitted), Some(Denied)})
    && (o.Kind() == Http && o.decision == Some(Admitted) ==> o.handoffAttempted)
    && (o.finishObserved ==> o.handoffAttempted)
    && (o.hasResponse <==> o.Kind() == Http && o.expectedGeneration.Some?)
    && (o.transportLost ==> o.Kind() == Http)
    && (o.cancelRequested ==> o.decision != Some(Admitted) && o.Kind() != Revoke)
    && (o.phase == Settled ==> Definitive(o) && o.done)
    && (o.done ==> o.decision.Some?)
    && (o.expectedGeneration.None? ==> o.at == NotStarted)
    && (o.Kind() != Http && o.decision == Some(Denied) ==> o.Kind() == Provider)
  }

  /** What ties an operation to the gates, the pending requests and the trace. */
  ghost predicate Base(s: State, i: nat)
    requires i < |s.ops|
  {
    var o := s.ops[i];
    var g := s.At(o.domain);
    && OperationOk(o)
    && (i in g.queue <==> o.at == NotStarted && o.expectedGeneration.Some?)
    && (g.active == Some(i) <==> o.at != NotStarted && o.phase != Settled)
    && (i in s.pending ==> o.Kind() == Http && o.expectedGeneration.None? && !o.transportLost)
    && (o.expectedGeneration.None? ==> i in s.pending || o.done)
    && Queuings(s.trace, i) == (if o.expectedGeneration.Some? then 1 else 0)
    && Holds(s.trace, i) == (if o.at != NotStarted then 1 else 0)
    && Effects(s.trace, i) == (if Effected(o) then 1 else 0)
    && AdmittingEffects(s.trace, i) == (if o.Kind() != Revoke && o.decision == Some(Admitted) then 1 else 0)
    && AdmissionsOf(s.trace, i) == (if o.Kind() == Provider && o.decision == Some(Admitted) then 1 else 0)
    && (o.expectedGeneration.Some? ==> 1 <= o.expectedGeneration.value <= g.generation)
    && (o.Kind() != Revoke && o.decision == Some(Admitted) ==> o.expectedGeneration == Some(1))
    && (o.Kind() == Revoke && o.at != NotStarted && o.at != Executing ==> g.revoked && o.decision == Some(Admitted))
  }

  /** What else holds of every operation while the owner runs. */
  ghost predicate Live(o: Operation) {
    && (o.done <==> o.phase == Settled || (o.expectedGeneration.None? && o.transportLost))
    && (o.decision == Some(Invalidated) ==> o.done && o.expectedGeneration.None?)
    && (o.at == Returned ==> Definitive(o))
  }

  /** What holds of every operation of an owner that no longer runs. */
  ghost predicate Ended(o: Operation) {
    o.done && o.at != Executing
  }

  // ---- one domain -----------------------------------------------------------------------------

  ghost predicate Admits(s: State, i: nat) {
    i < |s.ops| && s.ops[i].Kind() != Revoke && s.ops[i].decision == Some(Admitted)
  }

  ghost predicate Revokes(s: State, i: nat) {
    i < |s.ops| && s.ops[i].Kind() == Revoke
  }

  /** In this order, no read or provider operation behind a revocation is admitted. */
  ghost predicate RevocationBarrier(s: State, order: seq<nat>) {
    forall x, y :: 0 <= x < y < |order| && Revokes(s, order[x]) ==> !Admits(s, order[y])
  }

  ghost predicate DomainOk(s: State, d: Domain) {
    var g := s.At(d);
    && QueuedOrder(s.trace, d) == HeldOrder(s.trace, d) + g.queue
    && Distinct(g.queue)
    && (forall i: nat :: i in HeldOrder(s.trace, d) ==> TookGate(s, d, i))
    && (forall i: nat :: i in g.queue ==> i < |s.ops| && s.ops[i].domain == d)
    && (g.active.Some? ==> g.active.value < |s.ops| && s.ops[g.active.value].domain == d)
    && g.generation == 1 + Commits(s.trace, d)
    && (g.revoked <==> Commits(s.trace, d) > 0)
    && RevocationBarrier(s, HeldOrder(s.trace, d))
  }

  ghost predicate TookGate(s: State, d: Domain, i: nat) {
    i < |s.ops| && s.ops[i].domain == d && s.ops[i].at != NotStarted
  }

  // ---- the invariant --------------------------------------------------------------------------

  ghost predicate BaseInv(s: State) {
    && Wf(s)
    && (forall i :: 0 <= i < |s.ops| ==> Base(s, i))
    && DomainOk(s, Alpha) && DomainOk(s, Beta)
    && NoneBeyond(s.trace, |s.ops|)
    && TraceOk(s.trace) && !EndsInMint(s.trace)
    && s.jobs == Admissions(s.trace)
  }

  ghost predicate OwnerOk(s: State) {
    && (s.owner == Running <==> !HasEnded(s.trace))
    && (s.owner == Running ==> forall i :: 0 <= i < |s.ops| ==> Live(s.ops[i]))
    && (s.owner != Running ==> forall i :: 0 <= i < |s.ops| ==> Ended(s.ops[i]))
  }

  /** Holds inside a step too. */
  ghost predicate CoreInv(s: State) {
    BaseInv(s) && OwnerOk(s)
  }

  /** Between steps a running gate is free only if nobody waits for it, and a holder waits. */
  ghost predicate Quiet(s: State, d: Domain) {
    var g := s.At(d);
    s.owner == Running ==>
      && (g.active.None? ==> g.queue == [])
      && (g.active.Some? ==>
            && g.active.value < |s.ops|
            && !s.ops[g.active.value].transportLost
            && s.ops[g.active.value].at != Executing
            && s.ops[g.active.value].at != Returned)
  }

  ghost predicate Inv(s: State) {
    CoreInv(s) && Quiet(s, Alpha) && Quiet(s, Beta)
  }

  /** A step inside one operation touches no other operation and no other domain's gate. */
  ghost predicate OnlyAbout(s: State, t: State, i: nat)
    requires i < |s.ops|
  {
    && |t.ops| == |s.ops|
    && t.pending == s.pending
    && t.owner == s.owner
    && (forall k :: 0 <= k < |s.ops| && k != i ==> t.ops[k] == s.ops[k])
    && t.ops[i].domain == s.ops[i].domain && t.ops[i].spec == s.ops[i].spec
    && (forall d :: d != s.ops[i].domain ==> t.At(d) == s.At(d))
    && t.At(s.ops[i].domain).queue == s.At(s.ops[i].domain).queue
  }

  /** The holder stands where it may release the gate. */
  ghost predicate Releasing(s: State, i: nat) {
    && i < |s.ops| && s.owner == Running && s.HoldsGate(i)
    && s.ops[i].at == Returned && s.ops[i].phase != Settled
  }

  /** The holder is executing synchronously. */
  ghost predicate RunsNow(s: State, i: nat) {
    i < |s.ops| && s.owner == Running && s.HoldsGate(i) && s.ops[i].at == Executing
  }

  /** The holder waits for a barrier, a microtask or its transport. */
  ghost predicate Waits(s: State, i: nat) {
    && i < |s.ops| && s.owner == Running && s.HoldsGate(i)
    && s.ops[i].at != Executing && s.ops[i].at != Returned && !s.ops[i].transportLost
  }

  ghost predicate Outcome(s: State, i: nat, releases: bool) {
    if releases then Releasing(s, i) else Waits(s, i)
  }
}
