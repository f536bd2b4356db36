/** Every step of the owner keeps its invariant. */
module OwnerSteps {
  import opened Prelude
  import opened Permits
  import opened OwnerModel
  import opened OwnerInvariant
  import opened OwnerPreservation

  // ---- a change to one record -------------------------------------------------------------------

  /** The operation stays where it is stored and keeps its decision. */
  ghost predicate SamePlace(p: Operation, o: Operation) {
    && o.domain == p.domain && o.spec == p.spec && o.expectedGeneration == p.expectedGeneration
    && o.decision == p.decision && o.phase == p.phase && o.done == p.done
    && o.handoffAttempted == p.handoffAttempted && o.hasResponse == p.hasResponse
    && (o.expectedGeneration.None? ==> o.transportLost == p.transportLost)
    && (o.at == NotStarted <==> p.at == NotStarted)
    && (o.at == Executing <==> p.at == Executing)
  }

  ghost predicate FinishedTrace(t: Trace, u: Trace, i: nat, d: Domain) {
    u == t || u == Then(t, FinishEvent(i, d))
  }

  lemma RecordSelf(s: State, i: nat, o: Operation, u: Trace)
    requires i < |s.ops| && Base(s, i) && SamePlace(s.ops[i], o) && OperationOk(o)
    requires FinishedTrace(s.trace, u, i, o.domain)
    ensures Base(s.SetOp(i, o).(trace := u), i)
  {
  }

  lemma RecordOther(s: State, i: nat, o: Operation, u: Trace, k: nat)
    requires i < |s.ops| && k < |s.ops| && k != i && FinishedTrace(s.trace, u, i, o.domain)
    ensures SameFor(s, s.SetOp(i, o).(trace := u), k)
  {
  }

  lemma RecordSameOrder(s: State, i: nat, o: Operation, u: Trace, d: Domain)
    requires i < |s.ops| && SamePlace(s.ops[i], o) && FinishedTrace(s.trace, u, i, o.domain)
    ensures SameOrder(s, s.SetOp(i, o).(trace := u), d)
  {
  }

  lemma RecordBase(s: State, i: nat, o: Operation, u: Trace)
    requires BaseInv(s) && i < |s.ops| && SamePlace(s.ops[i], o) && OperationOk(o)
    requires FinishedTrace(s.trace, u, i, o.domain)
    ensures BaseInv(s.SetOp(i, o).(trace := u))
    ensures HasEnded(u) <==> HasEnded(s.trace)
  {
    var t := s.SetOp(i, o).(trace := u);
    forall k | 0 <= k < |t.ops| ensures Base(t, k) {
      assert Base(s, k);
      if k == i {
        RecordSelf(s, i, o, u);
      } else {
        RecordOther(s, i, o, u, k);
        BaseFrame(s, t, k);
      }
    }
    RecordSameOrder(s, i, o, u, Alpha);
    RecordSameOrder(s, i, o, u, Beta);
    DomainFrame(s, t, Alpha);
    DomainFrame(s, t, Beta);
    if u != s.trace {
      assert EventOk(s.trace, u.event);
      NoneBeyondThen(s.trace, u.event, |s.ops|);
    }
  }

  /** The new record also fits the state of the owner. */
  ghost predicate RecordOk(s: State, i: nat, o: Operation)
    requires i < |s.ops|
  {
    && SamePlace(s.ops[i], o) && OperationOk(o)
    && (s.owner == Running ==>
          && (o.at == Returned ==> s.ops[i].at == Returned || s.ops[i].at == AtCompletion)
          && (s.HoldsGate(i) ==> !o.transportLost && o.at != Returned))
  }

  lemma RecordQuiet(s: State, i: nat, o: Operation, u: Trace, d: Domain)
    requires i < |s.ops| && RecordOk(s, i, o) && Quiet(s, d) && DomainOk(s, d)
    ensures Quiet(s.SetOp(i, o).(trace := u), d)
  {
  }

  lemma RecordStep(s: State, i: nat, o: Operation, u: Trace)
    requires Inv(s) && i < |s.ops| && RecordOk(s, i, o)
    requires FinishedTrace(s.trace, u, i, o.domain)
    ensures Inv(s.SetOp(i, o).(trace := u))
  {
    var t := s.SetOp(i, o).(trace := u);
    RecordBase(s, i, o, u);
    RecordOwner(s, i, o, u);
    RecordQuiet(s, i, o, u, Alpha);
    RecordQuiet(s, i, o, u, Beta);
  }

  lemma RecordOwner(s: State, i: nat, o: Operation, u: Trace)
    requires OwnerOk(s) && i < |s.ops| && Base(s, i) && RecordOk(s, i, o) && (HasEnded(u) <==> HasEnded(s.trace))
    ensures OwnerOk(s.SetOp(i, o).(trace := u))
  {
    var t := s.SetOp(i, o).(trace := u);
    if s.owner == Running {
      forall k | 0 <= k < |t.ops| ensures Live(t.ops[k]) { assert Live(s.ops[k]); }
    } else {
      forall k | 0 <= k < |t.ops| ensures Ended(t.ops[k]) { assert Ended(s.ops[k]); }
    }
  }

  // ---- poison and stop --------------------------------------------------------------------------

  /** Everything but decision, reason, answers and the settled flag. */
  ghost predicate SameCourse(o: Operation, r: Operation) {
    && r.at == o.at && r.phase == o.phase
    && r.domain == o.domain && r.spec == o.spec && r.expectedGeneration == o.expectedGeneration
    && r.cancelRequested == o.cancelRequested && r.transportLost == o.transportLost
    && r.hasResponse == o.hasResponse && r.handoffAttempted == o.handoffAttempted
    && r.finishObserved == o.finishObserved && r.terminalFailure == o.terminalFailure
  }

  lemma InvalidatedFields(o: Operation, reason: Reason)
    ensures var r := InvalidatedOp(o, reason);
      && SameCourse(o, r) && r.done
      && r.decision == if o.done || o.decision.Some? then o.decision else Some(Invalidated)
  {
  }

  lemma InvalidatedRecord(o: Operation, reason: Reason)
    requires OperationOk(o) && o.at != Executing
    ensures var r := InvalidatedOp(o, reason);
      && OperationOk(r) && r.done && SameCourse(o, r)
      && (r.decision == o.decision || (o.decision.None? && r.decision == Some(Invalidated)))
  {
    InvalidatedFields(o, reason);
    var r := InvalidatedOp(o, reason);
    assert PointOk(r);
  }

  lemma InvalidatedBase(s: State, t: State, reason: Reason, k: nat)
    requires BaseInv(s) && k < |s.ops|
    requires t.alpha == s.alpha && t.beta == s.beta && t.pending == s.pending && |t.ops| == |s.ops|
    requires t.ops[k] == if Stored(s, k) then InvalidatedOp(s.ops[k], reason) else s.ops[k]
    requires s.ops[k].at != Executing
    requires Queuings(t.trace, k) == Queuings(s.trace, k) && Holds(t.trace, k) == Holds(s.trace, k)
    requires Effects(t.trace, k) == Effects(s.trace, k)
    requires AdmittingEffects(t.trace, k) == AdmittingEffects(s.trace, k)
    requires AdmissionsOf(t.trace, k) == AdmissionsOf(s.trace, k)
    ensures Base(t, k) && Ended(t.ops[k])
    ensures t.ops[k].at == s.ops[k].at
    ensures t.ops[k].decision == s.ops[k].decision || (s.ops[k].decision.None? && t.ops[k].decision == Some(Invalidated))
  {
    assert Base(s, k);
    InvalidatedRecord(s.ops[k], reason);
  }

  /** Ending the owner settles every operation and freezes the rest. */
  lemma EndKeeps(s: State, t: State, reason: Reason, e: TraceEvent)
    requires BaseInv(s) && forall k :: 0 <= k < |s.ops| ==> s.ops[k].at != Executing
    requires e.StoppedEvent? || (e.PoisonedEvent? && e.cause != PermitRejected && !HasEnded(s.trace))
    requires t == InvalidateAll(s, reason).(owner := t.owner, trace := Then(s.trace, e)) && t.owner != Running
    ensures Inv(t)
  {
    forall k | 0 <= k < |t.ops|
      ensures Base(t, k) && Ended(t.ops[k]) && t.ops[k].at == s.ops[k].at
      ensures t.ops[k].decision == Some(Admitted) ==> s.ops[k].decision == Some(Admitted)
    {
      InvalidatedBase(s, t, reason, k);
    }
    assert EventOk(s.trace, e);
    NoneBeyondThen(s.trace, e, |s.ops|);
    DomainFrame(s, t, Alpha);
    DomainFrame(s, t, Beta);
  }

  lemma InvalidateIgnoresTrace(s: State, owner: OwnerState, e: TraceEvent, reason: Reason)
    ensures InvalidateAll(s.(owner := owner).Emit(e), reason)
         == InvalidateAll(s, reason).(owner := owner, trace := Then(s.trace, e))
  {
    var s1 := s.(owner := owner).Emit(e);
    assert forall i: nat :: Stored(s1, i) <==> Stored(s, i);
    assert InvalidateAll(s1, reason).ops == InvalidateAll(s, reason).ops;
  }

  lemma PoisonKeeps(s: State, cause: PoisonCause)
    requires BaseInv(s) && s.owner == Running && !HasEnded(s.trace) && cause != PermitRejected
    requires forall k :: 0 <= k < |s.ops| ==> s.ops[k].at != Executing
    ensures Inv(Poison(s, cause)) && Poison(s, cause).owner == Poisoned
  {
    InvalidateIgnoresTrace(s, Poisoned, PoisonedEvent(cause), OwnerPoisoned);
    EndKeeps(s, Poison(s, cause), OwnerPoisoned, PoisonedEvent(cause));
  }

  lemma NobodyExecutes(s: State, k: nat)
    requires Inv(s) && k < |s.ops|
    ensures s.ops[k].at != Executing
  {
    assert Base(s, k);
    if s.owner == Running {
      assert Quiet(s, s.ops[k].domain);
    } else {
      assert Ended(s.ops[k]);
    }
  }

  lemma StopKeeps(s: State)
    requires Inv(s)
    ensures Inv(StepStop(s)) && StepStop(s).owner == Stopped
  {
    if s.owner != Stopped {
      forall k | 0 <= k < |s.ops| ensures s.ops[k].at != Executing { NobodyExecutes(s, k); }
      InvalidateIgnoresTrace(s, Stopped, StoppedEvent, OwnerStopped);
      EndKeeps(s, StepStop(s), OwnerStopped, StoppedEvent);
    }
  }

  // ---- queuing ----------------------------------------------------------------------------------

  /** An operation that is neither pending nor queued yet, among operations that all are in place. */
  ghost predicate Unplaced(s: State, i: nat) {
    && Wf(s) && i < |s.ops| && s.owner == Running && !HasEnded(s.trace)
    && TraceOk(s.trace) && !EndsInMint(s.trace) && s.jobs == Admissions(s.trace)
    && DomainOk(s, Alpha) && DomainOk(s, Beta) && Quiet(s, Alpha) && Quiet(s, Beta)
    && NoneBeyond(s.trace, |s.ops|)
    && (forall k :: 0 <= k < |s.ops| && k != i ==> Base(s, k) && Live(s.ops[k]))
    && NoEventsOf(s.trace, i)
    && i !in s.pending && i !in s.At(s.ops[i].domain).queue && s.At(s.ops[i].domain).active != Some(i)
    && Unqueued(s.ops[i])
  }

  lemma AppendOther(s: State, i: nat, k: nat)
    requires Wf(s) && i < |s.ops| && k < |s.ops| && k != i
    ensures SameFor(s, Append(s, i), k) && Append(s, i).ops[k] == s.ops[k]
  {
  }

  lemma AppendBaseOther(s: State, i: nat, k: nat)
    requires Unplaced(s, i) && k < |s.ops| && k != i
    ensures Base(Append(s, i), k) && Live(Append(s, i).ops[k])
  {
    assert Base(s, k) && Live(s.ops[k]);
    AppendOther(s, i, k);
    BaseFrame(s, Append(s, i), k);
  }

  /** The record of an operation that was never queued. */
  ghost predicate Unqueued(o: Operation) {
    && o.at == NotStarted && o.expectedGeneration.None? && o.phase == Queued && o.decision.None?
    && !o.done && !o.handoffAttempted && !o.finishObserved && !o.transportLost
    && (o.hasResponse <==> o.Kind() == Http) && (o.cancelRequested ==> o.Kind() != Revoke)
  }

  lemma AppendSelf(s: State, i: nat)
    requires Wf(s) && i < |s.ops| && Unqueued(s.ops[i]) && NoEventsOf(s.trace, i)
    requires i !in s.pending && s.At(s.ops[i].domain).active != Some(i) && s.At(s.ops[i].domain).generation >= 1
    ensures Base(Append(s, i), i) && Live(Append(s, i).ops[i])
  {
    var t := Append(s, i);
    assert i in t.At(s.ops[i].domain).queue;
    assert OperationOk(t.ops[i]);
  }

  lemma AppendBaseSelf(s: State, i: nat)
    requires Unplaced(s, i)
    ensures Base(Append(s, i), i) && Live(Append(s, i).ops[i])
  {
    assert DomainOk(s, s.ops[i].domain);
    AppendSelf(s, i);
  }

  lemma AppendSameOrder(s: State, i: nat, d: Domain)
    requires Wf(s) && i < |s.ops| && d != s.ops[i].domain && s.ops[i].at == NotStarted
    ensures SameOrder(s, Append(s, i), d)
  {
  }

  lemma AppendDomainSelf(s: State, i: nat)
    requires Wf(s) && i < |s.ops| && DomainOk(s, s.ops[i].domain) && i !in s.At(s.ops[i].domain).queue
    requires s.ops[i].at == NotStarted
    ensures DomainOk(Append(s, i), s.ops[i].domain)
  {
    var t, d := Append(s, i), s.ops[i].domain;
    var held := HeldOrder(s.trace, d);
    Regroup(held, s.At(d).queue, [i]);
    forall k: nat | k in held ensures TookGate(t, d, k) { assert TookGate(s, d, k); }
    AppendBarrier(s, i, held);
  }

  lemma AppendDomain(s: State, i: nat, d: Domain)
    requires Unplaced(s, i)
    ensures DomainOk(Append(s, i), d)
  {
    assert DomainOk(s, d);
    if d == s.ops[i].domain {
      AppendDomainSelf(s, i);
    } else {
      AppendSameOrder(s, i, d);
      DomainFrame(s, Append(s, i), d);
    }
  }

  lemma AppendBarrier(s: State, i: nat, order: seq<nat>)
    requires Wf(s) && i < |s.ops| && RevocationBarrier(s, order)
    ensures RevocationBarrier(Append(s, i), order)
  {
    var t := Append(s, i);
    forall x, y | 0 <= x < y < |order| && Revokes(t, order[x]) ensures !Admits(t, order[y]) {
      assert Revokes(s, order[x]);
      assert !Admits(s, order[y]);
    }
  }

  lemma AppendQuiet(s: State, i: nat, e: Domain)
    requires Unplaced(s, i) && e != s.ops[i].domain
    ensures Quiet(Append(s, i), e)
  {
    assert Quiet(s, e) && DomainOk(s, e);
  }

  lemma AppendKeeps(s: State, i: nat)
    requires Unplaced(s, i)
    ensures CoreInv(Append(s, i)) && forall e :: e != s.ops[i].domain ==> Quiet(Append(s, i), e)
  {
    var t := Append(s, i);
    forall k | 0 <= k < |t.ops| ensures Base(t, k) && Live(t.ops[k]) {
      if k == i { AppendBaseSelf(s, i); } else { AppendBaseOther(s, i, k); }
    }
    AppendDomain(s, i, Alpha);
    AppendDomain(s, i, Beta);
    assert EventOk(s.trace, t.trace.event);
    NoneBeyondThen(s.trace, t.trace.event, |s.ops|);
    forall e | e != s.ops[i].domain ensures Quiet(t, e) { AppendQuiet(s, i, e); }
  }

  lemma EnqueueKeeps(s: State, i: nat)
    requires Unplaced(s, i)
    ensures Inv(Enqueue(s, i)) && Enqueue(s, i).owner == Running
  {
    var t := Append(s, i);
    var d := s.ops[i].domain;
    AppendKeeps(s, i);
    if s.At(d).active.None? {
      PumpKeeps(t, d);
    } else {
      assert Quiet(s, d);
    }
  }

  function WithNew(s: State, d: Domain, spec: Case): State {
    s.(ops := s.ops + [NewOperation(d, spec)])
  }

  lemma NewDomain(s: State, d: Domain, spec: Case, e: Domain)
    requires DomainOk(s, e) && Quiet(s, e)
    ensures DomainOk(WithNew(s, d, spec), e) && Quiet(WithNew(s, d, spec), e)
  {
    DomainFrame(s, WithNew(s, d, spec), e);
  }

  lemma NewOthers(s: State, d: Domain, spec: Case)
    requires Inv(s) && s.owner == Running
    ensures forall k :: 0 <= k < |s.ops| ==> Base(WithNew(s, d, spec), k) && Live(WithNew(s, d, spec).ops[k])
  {
    forall k | 0 <= k < |s.ops| ensures Base(WithNew(s, d, spec), k) && Live(WithNew(s, d, spec).ops[k]) {
      assert Base(s, k) && Live(s.ops[k]);
      BaseFrame(s, WithNew(s, d, spec), k);
    }
  }

  lemma NewOperationUnplaced(s: State, d: Domain, spec: Case)
    requires Inv(s) && s.owner == Running && !spec.HttpCase?
    ensures Unplaced(WithNew(s, d, spec), |s.ops|)
  {
    NewOthers(s, d, spec);
    NewDomain(s, d, spec, Alpha);
    NewDomain(s, d, spec, Beta);
  }

  lemma PendingSelf(s: State, d: Domain, spec: Case)
    requires Wf(s) && NoEventsOf(s.trace, |s.ops|) && spec.HttpCase?
    ensures var t := StepPending(s, d, spec);
            Base(t, |s.ops|) && Live(t.ops[|s.ops|])
  {
    var t := StepPending(s, d, spec);
    assert |s.ops| in t.pending;
  }

  function StepPending(s: State, d: Domain, spec: Case): State {
    WithNew(s, d, spec).(pending := s.pending + [|s.ops|])
  }

  lemma PendingOther(s: State, d: Domain, spec: Case, k: nat)
    requires k < |s.ops|
    ensures SameFor(s, StepPending(s, d, spec), k)
  {
  }

  lemma PendingDomain(s: State, d: Domain, spec: Case, e: Domain)
    requires DomainOk(s, e) && Quiet(s, e)
    ensures DomainOk(StepPending(s, d, spec), e) && Quiet(StepPending(s, d, spec), e)
  {
    DomainFrame(s, StepPending(s, d, spec), e);
  }

  /** A new HTTP operation waits for the server to see its request. */
  lemma PendingKeeps(s: State, d: Domain, spec: Case)
    requires Inv(s) && s.owner == Running && spec.HttpCase?
    ensures Inv(StepRequest(s, d, spec))
  {
    var i := |s.ops|;
    var t := StepPending(s, d, spec);
    assert StepRequest(s, d, spec) == t;
    assert NoEventsOf(s.trace, i);
    forall k | 0 <= k < |t.ops| ensures Base(t, k) && Live(t.ops[k]) {
      if k < i {
        assert Base(s, k) && Live(s.ops[k]);
        PendingOther(s, d, spec, k);
        BaseFrame(s, t, k);
      } else {
        PendingSelf(s, d, spec);
      }
    }
    PendingDomain(s, d, spec, Alpha);
    PendingDomain(s, d, spec, Beta);
  }

  lemma RequestKeeps(s: State, d: Domain, spec: Case)
    requires Inv(s)
    ensures Inv(StepRequest(s, d, spec))
  {
    if s.owner == Running {
      if spec.HttpCase? {
        PendingKeeps(s, d, spec);
      } else {
        NewOperationUnplaced(s, d, spec);
        EnqueueKeeps(WithNew(s, d, spec), |s.ops|);
      }
    }
  }

  /** A pending request leaves the pending ones; nothing else changes about the others. */
  ghost predicate Unpended(s: State, t: State, i: nat) {
    && i < |s.ops| && |t.ops| == |s.ops|
    && t == s.(ops := t.ops, pending := Without(s.pending, i))
    && (forall k :: 0 <= k < |s.ops| && k != i ==> t.ops[k] == s.ops[k])
    && t.ops[i].domain == s.ops[i].domain && t.ops[i].spec == s.ops[i].spec && t.ops[i].at == s.ops[i].at
  }

  lemma UnpendedBase(s: State, t: State, i: nat, k: nat)
    requires Inv(s) && Unpended(s, t, i) && k < |s.ops| && k != i
    ensures Base(t, k) && (if s.owner == Running then Live(t.ops[k]) else Ended(t.ops[k]))
  {
    assert Base(s, k) && (if s.owner == Running then Live(s.ops[k]) else Ended(s.ops[k]));
    BaseFrame(s, t, k);
  }

  lemma UnpendedDomain(s: State, t: State, i: nat, d: Domain)
    requires Inv(s) && Unpended(s, t, i) && (t.ops[i].decision == Some(Admitted) ==> s.ops[i].decision == Some(Admitted))
    requires s.owner == Running ==> !s.HoldsGate(i)
    ensures DomainOk(t, d) && Quiet(t, d)
  {
    DomainFrame(s, t, d);
    assert Quiet(s, d) && DomainOk(s, d);
  }

  lemma UnpendedUnplaced(s: State, i: nat)
    requires Inv(s) && i < |s.ops| && s.owner == Running && i in s.pending
    ensures Unplaced(s.(pending := Without(s.pending, i)).SetOp(i, s.ops[i].(hasResponse := true)), i)
  {
    assert Base(s, i) && Live(s.ops[i]);
    var t := s.(pending := Without(s.pending, i)).SetOp(i, s.ops[i].(hasResponse := true));
    forall k | 0 <= k < |t.ops| && k != i ensures Base(t, k) && Live(t.ops[k]) {
      UnpendedBase(s, t, i, k);
    }
    UnpendedDomain(s, t, i, Alpha);
    UnpendedDomain(s, t, i, Beta);
  }

  lemma ServerReceivesKeeps(s: State, i: nat)
    requires Inv(s) && i < |s.ops|
    ensures Inv(StepServerReceives(s, i))
  {
    if s.owner == Running && i in s.pending {
      UnpendedUnplaced(s, i);
      EnqueueKeeps(s.(pending := Without(s.pending, i)).SetOp(i, s.ops[i].(hasResponse := true)), i);
    }
  }

  lemma ClientClosesKeeps(s: State, i: nat)
    requires Inv(s) && i < |s.ops|
    ensures Inv(StepClientCloses(s, i))
  {
    if i in s.pending {
      assert Base(s, i) && (if s.owner == Running then Live(s.ops[i]) else Ended(s.ops[i]));
      var t := StepClientCloses(s, i);
      InvalidatedFields(s.ops[i].(transportLost := true), LostBeforeQueue);
      forall k | 0 <= k < |t.ops|
        ensures Base(t, k) && (if s.owner == Running then Live(t.ops[k]) else Ended(t.ops[k]))
      {
        if k != i { UnpendedBase(s, t, i, k); }
      }
      UnpendedDomain(s, t, i, Alpha);
      UnpendedDomain(s, t, i, Beta);
    }
  }

  // ---- resuming an operation --------------------------------------------------------------------

  /** A resumed holder of a running owner, executing again. */
  lemma ResumeKeeps(s: State, i: nat)
    requires Inv(s) && i < |s.ops| && s.owner == Running
    requires s.ops[i].at == AfterStore || s.ops[i].at == AtPreBoundary
    ensures var t := s.SetOp(i, s.ops[i].(at := Executing));
      CoreInv(t) && RunsNow(t, i) && s.ops[i].Kind() != Revoke && OnlyAbout(s, t, i)
  {
    assert Base(s, i) && Live(s.ops[i]);
    HolderStep(s, i, s.ops[i].(at := Executing), s.trace, s.jobs);
  }

  /** After release and pump, an operation that is settled keeps its record. */
  lemma {:induction false} PumpLeavesSettled(s: State, d: Domain, i: nat)
    requires CoreInv(s) && s.owner == Running && s.At(d).active.None?
    requires forall e :: e != d ==> Quiet(s, e)
    requires i < |s.ops| && s.ops[i].phase == Settled
    ensures Pump(s, d).ops[i] == s.ops[i]
    decreases |s.At(d).queue|
  {
    if s.At(d).queue != [] {
      var k := s.At(d).queue[0];
      TakeHead(s, d);
      assert Base(s, i);
      assert k != i;
      TakeKeeps(s, d);
      ExecuteKeeps(Take(s, d), k);
      TurnKeeps(s, d);
      var (t, releases) := Execute(Take(s, d), k);
      if releases {
        FreeTurnKeeps(t, k);
        PumpLeavesSettled(Free(t, k), d, i);
      }
    }
  }

  lemma ReleaseSettles(s: State, i: nat)
    requires CoreInv(s) && Releasing(s, i) && forall e :: e != s.ops[i].domain ==> Quiet(s, e)
    ensures Release(s, i).ops[i] == s.ops[i].(phase := Settled, done := true)
  {
    FreeTurnKeeps(s, i);
    PumpLeavesSettled(Free(s, i), s.ops[i].domain, i);
  }

  lemma CompletionKeeps(s: State, i: nat)
    requires Inv(s) && i < |s.ops| && s.ops[i].Kind() == Provider && s.ops[i].phase == Settled
    requires s.ops[i].at == Returned || s.ops[i].at == AtCompletion
    ensures Inv(FinishCompletion(s, i)) && Inv(StartCompletion(s, i))
  {
    assert Base(s, i);
    RecordStep(s, i, FinishCompletion(s, i).ops[i], s.trace);
    RecordStep(s, i, s.ops[i].(at := AtCompletion), s.trace);
  }

  /** The resumed holder, brought across the boundary but not yet released. */
  function Crossed(s: State, i: nat): (State, bool)
    requires Wf(s) && i < |s.ops| && !s.ops[i].spec.RevokeCase?
  {
    CrossBoundary(s.SetOp(i, s.ops[i].(at := Executing)), i)
  }

  lemma CrossedKeeps(s: State, i: nat)
    requires Inv(s) && i < |s.ops| && s.owner == Running
    requires s.ops[i].at == AfterStore || s.ops[i].at == AtPreBoundary
    requires !s.ops[i].spec.RevokeCase?
    ensures var (t, releases) := Crossed(s, i);
      && CoreInv(t) && OnlyAbout(s, t, i) && Outcome(t, i, releases)
      && (forall e :: e != s.ops[i].domain ==> Quiet(t, e))
  {
    ResumeKeeps(s, i);
    CrossBoundaryKeeps(s.SetOp(i, s.ops[i].(at := Executing)), i);
    QuietElsewhere(s, Crossed(s, i).0, i, s.ops[i].domain);
  }

  lemma AfterBoundaryKeeps(t: State, releases: bool, i: nat)
    requires CoreInv(t) && Outcome(t, i, releases) && forall e :: e != t.ops[i].domain ==> Quiet(t, e)
    ensures Inv(AfterBoundary((t, releases), i))
  {
    if releases {
      ReleaseKeeps(t, i);
      ReleaseSettles(t, i);
      if t.ops[i].spec.ProviderCase? { CompletionKeeps(Release(t, i), i); }
    }
  }

  lemma BoundaryKeeps(s: State, i: nat)
    requires Inv(s) && i < |s.ops| && s.owner == Running
    requires s.ops[i].at == AfterStore || s.ops[i].at == AtPreBoundary
    requires !s.ops[i].spec.RevokeCase?
    ensures Inv(Boundary(s, i))
  {
    CrossedKeeps(s, i);
    AfterBoundaryKeeps(Crossed(s, i).0, Crossed(s, i).1, i);
  }

  lemma StoreOpensKeeps(s: State, i: nat)
    requires Inv(s) && i < |s.ops|
    ensures Inv(StepStoreOpens(s, i))
  {
    assert Base(s, i);
    if s.ops[i].at == AtStoreBarrier { RecordStep(s, i, s.ops[i].(at := AfterStore), s.trace); }
  }

  lemma StoreContinuesKeeps(s: State, i: nat)
    requires Inv(s) && i < |s.ops|
    ensures Inv(StepStoreContinues(s, i))
  {
    var o := s.ops[i];
    assert Base(s, i);
    if o.at != AfterStore || o.spec.RevokeCase? {
    } else if s.owner != Running {
      EndedReturns(s, i);
    } else if o.spec.preGated {
      RecordStep(s, i, o.(at := AtPreBoundary), s.trace);
    } else {
      BoundaryKeeps(s, i);
    }
  }

  lemma PreBoundaryOpensKeeps(s: State, i: nat)
    requires Inv(s) && i < |s.ops|
    ensures Inv(StepPreBoundaryOpens(s, i))
  {
    var o := s.ops[i];
    assert Base(s, i);
    if o.at != AtPreBoundary || o.spec.RevokeCase? {
    } else if s.owner != Running {
      EndedReturns(s, i);
    } else {
      BoundaryKeeps(s, i);
    }
  }

  lemma CancelKeeps(s: State, i: nat)
    requires Inv(s) && i < |s.ops|
    ensures Inv(StepCancel(s, i))
  {
    assert Base(s, i);
    if Cancellable(s.ops[i]) { RecordStep(s, i, s.ops[i].(cancelRequested := true), s.trace); }
  }

  // ---- the transport ----------------------------------------------------------------------------

  lemma ResponseFinishKeeps(s: State, i: nat)
    requires Inv(s) && i < |s.ops|
    ensures Inv(StepResponseFinish(s, i))
  {
    var o := s.ops[i];
    assert Base(s, i);
    if o.handoffAttempted {
      RecordStep(s, i, o.(finishObserved := true, at := Resolved(o.at, FinishedResult)),
                 Then(s.trace, FinishEvent(i, o.domain)));
    }
  }

  lemma ResponseErrorKeeps(s: State, i: nat)
    requires Inv(s) && i < |s.ops|
    ensures Inv(StepResponseError(s, i))
  {
    var o := s.ops[i];
    assert Base(s, i);
    if o.handoffAttempted {
      RecordStep(s, i, o.(terminalFailure := true, at := Resolved(o.at, TerminalResult)), s.trace);
    }
  }

  lemma LossKeepsBase(s: State, i: nat)
    requires Inv(s) && i < |s.ops| && s.ops[i].hasResponse
    ensures var s1 := s.SetOp(i, s.ops[i].(transportLost := true));
            BaseInv(s1) && forall k :: 0 <= k < |s1.ops| ==> s1.ops[k].at != Executing
  {
    assert Base(s, i);
    RecordBase(s, i, s.ops[i].(transportLost := true), s.trace);
    forall k | 0 <= k < |s.ops| ensures s.ops[k].at != Executing { NobodyExecutes(s, k); }
  }

  lemma LossPoisons(s: State, i: nat)
    requires Inv(s) && i < |s.ops| && s.ops[i].hasResponse && s.owner == Running && s.HoldsGate(i)
    ensures var t := Poison(s.SetOp(i, s.ops[i].(transportLost := true)), TransportLost);
      Inv(t) && t.owner == Poisoned && t.ops[i].hasResponse
  {
    var s1 := s.SetOp(i, s.ops[i].(transportLost := true));
    LossKeepsBase(s, i);
    PoisonKeeps(s1, TransportLost);
    PoisonKeepsResponses(s1, i);
  }

  lemma PoisonKeepsResponses(s: State, i: nat)
    requires i < |s.ops|
    ensures Poison(s, TransportLost).ops[i].hasResponse == s.ops[i].hasResponse
  {
  }

  lemma ServerCloseKeeps(s: State, i: nat)
    requires Inv(s) && i < |s.ops| && s.ops[i].hasResponse
    ensures Inv(OnServerClose(s, i))
    ensures OnServerClose(s, i).ops[i].hasResponse
    ensures OnServerClose(s, i).owner == Running && OnServerClose(s, i).HoldsGate(i) ==>
      OnServerClose(s, i).ops[i].finishObserved
  {
    var o := s.ops[i];
    assert Base(s, i);
    if o.finishObserved || o.transportLost {
      assert Quiet(s, o.domain);
    } else if s.owner == Running && s.HoldsGate(i) {
      LossPoisons(s, i);
    } else {
      RecordStep(s, i, o.(transportLost := true), s.trace);
    }
  }

  lemma ResponseCloseKeeps(s: State, i: nat)
    requires Inv(s) && i < |s.ops|
    ensures Inv(StepResponseClose(s, i))
  {
    if s.ops[i].hasResponse {
      ServerCloseKeeps(s, i);
      var s1 := OnServerClose(s, i);
      var o := s1.ops[i];
      assert Base(s1, i);
      if o.handoffAttempted && !o.finishObserved {
        RecordStep(s1, i, o.(terminalFailure := true, at := Resolved(o.at, TerminalResult)), s1.trace);
      }
    }
  }

  lemma EndedReturns(s: State, i: nat)
    requires Inv(s) && i < |s.ops| && s.owner != Running && s.ops[i].at != NotStarted
    ensures Inv(s.SetOp(i, s.ops[i].(at := Returned)))
  {
    assert Base(s, i) && Ended(s.ops[i]);
    RecordStep(s, i, s.ops[i].(at := Returned), s.trace);
  }

  lemma FinishedReturns(s: State, i: nat)
    requires Inv(s) && i < |s.ops| && s.owner == Running && s.ops[i].at == AtHttp(Some(FinishedResult))
    ensures var s1 := s.SetOp(i, s.ops[i].(at := Returned));
            CoreInv(s1) && Releasing(s1, i) && forall e :: e != s1.ops[i].domain ==> Quiet(s1, e)
  {
    var o1 := s.ops[i].(at := Returned);
    assert Base(s, i) && Live(s.ops[i]);
    HolderStep(s, i, o1, s.trace, s.jobs);
    QuietElsewhere(s, s.SetOp(i, o1), i, o1.domain);
  }

  lemma TerminalReturns(s: State, i: nat)
    requires Inv(s) && i < |s.ops| && s.owner == Running && s.ops[i].at.AtHttp?
    ensures Inv(Poison(s.SetOp(i, s.ops[i].(at := Returned)), TransportTerminal))
  {
    var o1 := s.ops[i].(at := Returned);
    var s1 := s.SetOp(i, o1);
    assert Base(s, i);
    RecordBase(s, i, o1, s.trace);
    forall k | 0 <= k < |s1.ops| ensures s1.ops[k].at != Executing { NobodyExecutes(s, k); }
    PoisonKeeps(s1, TransportTerminal);
  }

  lemma NotRejected(s: State, i: nat)
    requires Inv(s) && i < |s.ops|
    ensures s.ops[i].at != AtHttp(Some(RejectedResult))
  {
    assert Base(s, i);
  }

  lemma BoundaryContinuesKeeps(s: State, i: nat)
    requires Inv(s) && i < |s.ops|
    ensures Inv(StepBoundaryContinues(s, i))
  {
    var o := s.ops[i];
    if o.at.AtHttp? && o.at.result.Some? {
      if s.owner != Running {
        EndedReturns(s, i);
      } else if o.at.result.value == FinishedResult {
        FinishedReturns(s, i);
        ReleaseKeeps(s.SetOp(i, o.(at := Returned)), i);
      } else {
        NotRejected(s, i);
        TerminalReturns(s, i);
      }
    }
  }

  // ---- every step and every run -----------------------------------------------------------------

  lemma NextKeeps(s: State, step: Step)
    requires Inv(s)
    ensures Inv(Next(s, step))
  {
    match step
    case Request(d, spec) => RequestKeeps(s, d, spec);
    case Stop => StopKeeps(s);
    case Advance(i, what) =>
      if i < |s.ops| {
        match what
        case ServerReceives => ServerReceivesKeeps(s, i);
        case ClientCloses => ClientClosesKeeps(s, i);
        case Cancel => CancelKeeps(s, i);
        case StoreOpens => StoreOpensKeeps(s, i);
        case StoreContinues => StoreContinuesKeeps(s, i);
        case PreBoundaryOpens => PreBoundaryOpensKeeps(s, i);
        case ResponseFinish => ResponseFinishKeeps(s, i);
        case ResponseError => ResponseErrorKeeps(s, i);
        case ResponseClose => ResponseCloseKeeps(s, i);
        case BoundaryContinues => BoundaryContinuesKeeps(s, i);
        case CompletionOpens =>
          assert Base(s, i);
          if s.ops[i].at == AtCompletion { CompletionKeeps(s, i); }
      }
  }

  lemma {:induction false} RunKeeps(s: State, steps: seq<Step>)
    requires Inv(s)
    ensures Inv(Run(s, steps))
    decreases |steps|
  {
    if steps != [] {
      RunKeeps(s, steps[..|steps| - 1]);
      NextKeeps(Run(s, steps[..|steps| - 1]), steps[|steps| - 1]);
    }
  }

  lemma InitOk()
    ensures Inv(Init)
  {
  }
}
