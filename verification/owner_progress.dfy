/** What a step never takes back: decisions, cancellations, settlements and the trace. */
module OwnerProgress {
  import opened Prelude
  import opened Permits
  import opened OwnerModel
  import opened OwnerInvariant
  import opened OwnerPreservation
  import opened OwnerSteps

  /** u is the trace t at some earlier time, or t itself. */
  ghost predicate Earlier(u: Trace, t: Trace) {
    u == t || (t.Then? && Earlier(u, t.before))
  }

  lemma {:induction false} EarlierTransitive(a: Trace, b: Trace, c: Trace)
    requires Earlier(a, b) && Earlier(b, c)
    ensures Earlier(a, c)
    decreases c
  {
    if b != c { EarlierTransitive(a, b, c.before); }
  }

  ghost predicate Progress(o: Operation, r: Operation) {
    && (o.decision.Some? ==> r.decision == o.decision && r.reason == o.reason)
    && (o.cancelRequested ==> r.cancelRequested)
    && (o.done ==> r.done)
    && (o.phase == Settled ==> r.phase == Settled)
    && (o.handoffAttempted ==> r.handoffAttempted)
    && (o.finishObserved ==> r.finishObserved)
    && (o.expectedGeneration.Some? ==> r.expectedGeneration == o.expectedGeneration)
    && (o.at != NotStarted ==> r.at != NotStarted)
  }

  ghost predicate Grows(s: State, t: State) {
    && Earlier(s.trace, t.trace)
    && |s.ops| <= |t.ops|
    && (forall i :: 0 <= i < |s.ops| ==> Progress(s.ops[i], t.ops[i]))
  }

  lemma GrowsTransitive(s: State, t: State, u: State)
    requires Grows(s, t) && Grows(t, u)
    ensures Grows(s, u)
  {
    EarlierTransitive(s.trace, t.trace, u.trace);
    forall i | 0 <= i < |s.ops| ensures Progress(s.ops[i], u.ops[i]) {
      assert Progress(s.ops[i], t.ops[i]) && Progress(t.ops[i], u.ops[i]);
    }
  }

  /** At most three events are added, and only one record changes. */
  ghost predicate SmallStep(s: State, t: State, i: nat) {
    && i < |s.ops| && |t.ops| == |s.ops|
    && (forall k :: 0 <= k < |s.ops| && k != i ==> t.ops[k] == s.ops[k])
    && Progress(s.ops[i], t.ops[i])
    && (|| t.trace == s.trace
        || (t.trace.Then? &&
            (|| t.trace.before == s.trace
             || (t.trace.before.Then? &&
                 (|| t.trace.before.before == s.trace
                  || (t.trace.before.before.Then? && t.trace.before.before.before == s.trace))))))
  }

  lemma SmallStepGrows(s: State, t: State, i: nat)
    requires SmallStep(s, t, i)
    ensures Grows(s, t)
  {
    var u := t.trace;
    if u != s.trace {
      if u.before != s.trace {
        if u.before.before != s.trace {
          assert Earlier(s.trace, u.before.before);
        }
        assert Earlier(s.trace, u.before);
      }
      assert Earlier(s.trace, u);
    }
  }

  lemma RecordGrows(s: State, i: nat, o: Operation, u: Trace)
    requires i < |s.ops| && Progress(s.ops[i], o)
    requires u == s.trace || (u.Then? && u.before == s.trace)
    ensures Grows(s, s.SetOp(i, o).(trace := u))
  {
  }

  lemma DenyHeldGrows(s: State, i: nat, reason: Reason)
    requires CoreInv(s) && RunsNow(s, i) && s.ops[i].Kind() != Revoke
    ensures Grows(s, DenyHeld(s, i, reason).0)
  {
    if s.ops[i].Kind() == Http && s.ops[i].hasResponse && !s.ops[i].transportLost {
      HttpDenialGrows(s, i, reason);
    } else {
      assert Base(s, i);
      RecordGrows(s, i, DenyWithoutEffect(s, i, reason).0.ops[i], s.trace);
    }
  }

  lemma HttpDenialGrows(s: State, i: nat, reason: Reason)
    requires CoreInv(s) && RunsNow(s, i) && s.ops[i].Kind() == Http && !s.ops[i].transportLost
    ensures Grows(s, HttpBoundary(s, i, HttpDenial, NoFault, reason).0)
  {
    assert Base(s, i);
    PermitAccepted(s, i, HttpDenial);
    SmallStepGrows(s, HttpBoundary(s, i, HttpDenial, NoFault, reason).0, i);
  }

  lemma ExecuteGrows(s: State, i: nat)
    requires CoreInv(s) && RunsNow(s, i)
    ensures Grows(s, Execute(s, i).0)
  {
    assert Base(s, i);
    if s.ops[i].spec.RevokeCase? {
      PermitAccepted(s, i, RevokeCommit);
      SmallStepGrows(s, RunRevoke(s, i).0, i);
    } else {
      match AuthorizationFailure(s, i)
      case Some(reason) => DenyHeldGrows(s, i, reason);
      case None => SmallStepGrows(s, Execute(s, i).0, i);
    }
  }

  lemma CrossBoundaryGrows(s: State, i: nat)
    requires CoreInv(s) && RunsNow(s, i) && s.ops[i].Kind() != Revoke
    ensures Grows(s, CrossBoundary(s, i).0)
  {
    assert Base(s, i);
    var o := s.ops[i];
    match AuthorizationFailure(s, i)
    case Some(reason) => DenyHeldGrows(s, i, reason);
    case None =>
      if o.spec.store != Allow {
        DenyHeldGrows(s, i, if o.spec.store == Deny then StoreDenied else StoreFailed);
      } else {
        PermitAccepted(s, i, if o.spec.HttpCase? then HttpRelease else ProviderStart);
        SmallStepGrows(s, CrossBoundary(s, i).0, i);
      }
  }

  lemma TurnGrows(s: State, d: Domain)
    requires CoreInv(s) && s.owner == Running && s.At(d).active.None? && s.At(d).queue != []
    ensures Grows(s, Execute(Take(s, d), s.At(d).queue[0]).0)
  {
    var i := s.At(d).queue[0];
    TakeKeeps(s, d);
    assert Live(s.ops[i]) && Base(s, i) by { TakeHead(s, d); }
    SmallStepGrows(s, Take(s, d), i);
    ExecuteGrows(Take(s, d), i);
    GrowsTransitive(s, Take(s, d), Execute(Take(s, d), i).0);
  }

  lemma FreeGrows(t: State, i: nat)
    requires CoreInv(t) && Releasing(t, i)
    ensures Grows(t, Free(t, i))
  {
    SmallStepGrows(t, Free(t, i), i);
  }

  lemma {:induction false} PumpGrows(s: State, d: Domain)
    requires CoreInv(s) && s.owner == Running && s.At(d).active.None?
    requires forall e :: e != d ==> Quiet(s, e)
    ensures Grows(s, Pump(s, d))
    decreases |s.At(d).queue|
  {
    if s.At(d).queue != [] {
      var i := s.At(d).queue[0];
      var (t, releases) := Execute(Take(s, d), i);
      TurnGrows(s, d);
      if releases {
        TurnKeeps(s, d);
        FreeGrows(t, i);
        FreeTurnKeeps(t, i);
        PumpGrows(Free(t, i), d);
        GrowsTransitive(s, t, Free(t, i));
        GrowsTransitive(s, Free(t, i), Pump(s, d));
      }
    }
  }

  lemma ReleaseGrows(s: State, i: nat)
    requires CoreInv(s) && Releasing(s, i) && forall e :: e != s.ops[i].domain ==> Quiet(s, e)
    ensures Grows(s, Release(s, i))
  {
    FreeTurnKeeps(s, i);
    FreeGrows(s, i);
    PumpGrows(Free(s, i), s.ops[i].domain);
    GrowsTransitive(s, Free(s, i), Release(s, i));
  }

  lemma EnqueueGrows(s: State, i: nat)
    requires Unplaced(s, i)
    ensures Grows(s, Enqueue(s, i))
  {
    var t := Append(s, i);
    var d := s.ops[i].domain;
    SmallStepGrows(s, t, i);
    if s.At(d).active.None? {
      AppendKeeps(s, i);
      PumpGrows(t, d);
    }
    GrowsTransitive(s, t, Enqueue(s, i));
  }

  lemma EndGrows(s: State, owner: OwnerState, e: TraceEvent, reason: Reason)
    ensures Grows(s, InvalidateAll(s.(owner := owner).Emit(e), reason))
  {
    var t := InvalidateAll(s.(owner := owner).Emit(e), reason);
    forall i | 0 <= i < |s.ops| ensures Progress(s.ops[i], t.ops[i]) {
      InvalidatedFields(s.ops[i], reason);
    }
    assert Earlier(s.trace, t.trace.before);
  }

  lemma PoisonGrows(s: State, cause: PoisonCause)
    ensures Grows(s, Poison(s, cause))
  {
    EndGrows(s, Poisoned, PoisonedEvent(cause), OwnerPoisoned);
  }

  lemma CompletionGrows(s: State, i: nat)
    requires Wf(s) && i < |s.ops| && s.ops[i].spec.ProviderCase?
    ensures Grows(s, FinishCompletion(s, i)) && Grows(s, StartCompletion(s, i))
  {
    RecordGrows(s, i, FinishCompletion(s, i).ops[i], s.trace);
    RecordGrows(s, i, s.ops[i].(at := AtCompletion), s.trace);
  }

  lemma CrossedGrows(s: State, i: nat)
    requires Inv(s) && i < |s.ops| && s.owner == Running
    requires s.ops[i].at == AfterStore || s.ops[i].at == AtPreBoundary
    requires !s.ops[i].spec.RevokeCase?
    ensures Grows(s, Crossed(s, i).0)
  {
    ResumeKeeps(s, i);
    var s0 := s.SetOp(i, s.ops[i].(at := Executing));
    RecordGrows(s, i, s0.ops[i], s.trace);
    CrossBoundaryGrows(s0, i);
    GrowsTransitive(s, s0, Crossed(s, i).0);
  }

  lemma AfterBoundaryGrows(t: State, releases: bool, i: nat)
    requires CoreInv(t) && Outcome(t, i, releases) && forall e :: e != t.ops[i].domain ==> Quiet(t, e)
    ensures Grows(t, AfterBoundary((t, releases), i))
  {
    if releases {
      ReleaseGrows(t, i);
      ReleaseSettles(t, i);
      var u := Release(t, i);
      if t.ops[i].spec.ProviderCase? {
        CompletionGrows(u, i);
        GrowsTransitive(t, u, StartCompletion(u, i));
      }
    }
  }

  lemma BoundaryGrows(s: State, i: nat)
    requires Inv(s) && i < |s.ops| && s.owner == Running
    requires s.ops[i].at == AfterStore || s.ops[i].at == AtPreBoundary
    requires !s.ops[i].spec.RevokeCase?
    ensures Grows(s, Boundary(s, i))
  {
    CrossedKeeps(s, i);
    CrossedGrows(s, i);
    var (t, releases) := Crossed(s, i);
    AfterBoundaryGrows(t, releases, i);
    GrowsTransitive(s, t, Boundary(s, i));
  }

  lemma NewGrows(s: State, d: Domain, spec: Case)
    ensures Grows(s, WithNew(s, d, spec)) && Grows(s, StepPending(s, d, spec))
  {
  }

  lemma RequestGrows(s: State, d: Domain, spec: Case)
    requires Inv(s)
    ensures Grows(s, StepRequest(s, d, spec))
  {
    NewGrows(s, d, spec);
    if s.owner == Running && spec.HttpCase? {
      assert StepRequest(s, d, spec) == StepPending(s, d, spec);
    } else if s.owner == Running {
      NewOperationUnplaced(s, d, spec);
      var s1 := WithNew(s, d, spec);
      EnqueueGrows(s1, |s.ops|);
      GrowsTransitive(s, s1, Enqueue(s1, |s.ops|));
    }
  }

  lemma ServerReceivesGrows(s: State, i: nat)
    requires Inv(s) && i < |s.ops|
    ensures Grows(s, StepServerReceives(s, i))
  {
    if s.owner == Running && i in s.pending {
      UnpendedUnplaced(s, i);
      var t := s.(pending := Without(s.pending, i)).SetOp(i, s.ops[i].(hasResponse := true));
      SmallStepGrows(s, t, i);
      EnqueueGrows(t, i);
      GrowsTransitive(s, t, Enqueue(t, i));
    }
  }

  lemma CloseGrows(s: State, i: nat)
    requires i < |s.ops| && Wf(s)
    ensures Grows(s, StepResponseClose(s, i))
  {
    if s.ops[i].hasResponse {
      var o := s.ops[i];
      var s0 := s.SetOp(i, o.(transportLost := true));
      SmallStepGrows(s, s0, i);
      PoisonGrows(s0, TransportLost);
      GrowsTransitive(s, s0, Poison(s0, TransportLost));
      var s1 := OnServerClose(s, i);
      SmallStepGrows(s1, StepResponseClose(s, i), i);
      GrowsTransitive(s, s1, StepResponseClose(s, i));
    }
  }

  lemma BoundaryContinuesGrows(s: State, i: nat)
    requires Inv(s) && i < |s.ops|
    ensures Grows(s, StepBoundaryContinues(s, i))
  {
    var o := s.ops[i];
    if o.at.AtHttp? && o.at.result.Some? {
      assert Base(s, i);
      var s1 := s.SetOp(i, o.(at := Returned));
      SmallStepGrows(s, s1, i);
      if o.at.result.value != FinishedResult {
        PoisonGrows(s1, TransportTerminal);
      } else if s.owner == Running {
        FinishedReturns(s, i);
        ReleaseGrows(s1, i);
      }
      GrowsTransitive(s, s1, StepBoundaryContinues(s, i));
    }
  }

  lemma ClientClosesGrows(s: State, i: nat)
    requires Wf(s) && i < |s.ops|
    ensures Grows(s, StepClientCloses(s, i))
  {
    InvalidatedFields(s.ops[i].(transportLost := true), LostBeforeQueue);
    SmallStepGrows(s, StepClientCloses(s, i), i);
  }

  lemma CancelGrows(s: State, i: nat)
    requires Wf(s) && i < |s.ops|
    ensures Grows(s, StepCancel(s, i))
  {
    RecordGrows(s, i, s.ops[i].(cancelRequested := true), s.trace);
  }

  lemma StoreOpensGrows(s: State, i: nat)
    requires Wf(s) && i < |s.ops|
    ensures Grows(s, StepStoreOpens(s, i))
  {
    RecordGrows(s, i, s.ops[i].(at := AfterStore), s.trace);
  }

  lemma ResponseFinishGrows(s: State, i: nat)
    requires Wf(s) && i < |s.ops|
    ensures Grows(s, StepResponseFinish(s, i))
  {
    var o := s.ops[i];
    RecordGrows(s, i, o.(finishObserved := true, at := Resolved(o.at, FinishedResult)),
                Then(s.trace, FinishEvent(i, o.domain)));
  }

  lemma ResponseErrorGrows(s: State, i: nat)
    requires Wf(s) && i < |s.ops|
    ensures Grows(s, StepResponseError(s, i))
  {
    var o := s.ops[i];
    RecordGrows(s, i, o.(terminalFailure := true, at := Resolved(o.at, TerminalResult)), s.trace);
  }

  lemma StoreContinuesGrows(s: State, i: nat)
    requires Inv(s) && i < |s.ops|
    ensures Grows(s, StepStoreContinues(s, i))
  {
    var o := s.ops[i];
    if o.at != AfterStore || o.spec.RevokeCase? {
    } else if s.owner != Running {
      RecordGrows(s, i, o.(at := Returned), s.trace);
    } else if o.spec.preGated {
      RecordGrows(s, i, o.(at := AtPreBoundary), s.trace);
    } else {
      BoundaryGrows(s, i);
    }
  }

  lemma PreBoundaryOpensGrows(s: State, i: nat)
    requires Inv(s) && i < |s.ops|
    ensures Grows(s, StepPreBoundaryOpens(s, i))
  {
    var o := s.ops[i];
    if o.at != AtPreBoundary || o.spec.RevokeCase? {
    } else if s.owner != Running {
      RecordGrows(s, i, o.(at := Returned), s.trace);
    } else {
      BoundaryGrows(s, i);
    }
  }

  /** No step takes back a decision, a cancellation, a settlement or an event. */
  lemma NextGrows(s: State, step: Step)
    requires Inv(s)
    ensures Grows(s, Next(s, step))
  {
    match step
    case Request(d, spec) => RequestGrows(s, d, spec);
    case Stop => EndGrows(s, Stopped, StoppedEvent, OwnerStopped);
    case Advance(i, what) =>
      if i < |s.ops| {
        match what
        case ServerReceives => ServerReceivesGrows(s, i);
        case ClientCloses => ClientClosesGrows(s, i);
        case Cancel => CancelGrows(s, i);
        case StoreOpens => StoreOpensGrows(s, i);
        case StoreContinues => StoreContinuesGrows(s, i);
        case PreBoundaryOpens => PreBoundaryOpensGrows(s, i);
        case ResponseFinish => ResponseFinishGrows(s, i);
        case ResponseError => ResponseErrorGrows(s, i);
        case ResponseClose => CloseGrows(s, i);
        case BoundaryContinues => BoundaryContinuesGrows(s, i);
        case CompletionOpens =>
          if s.ops[i].spec.ProviderCase? { CompletionGrows(s, i); }
      }
  }

  lemma RunSnoc(s: State, before: seq<Step>, step: Step)
    requires Wf(s)
    ensures Run(s, before + [step]) == Next(Run(s, before), step)
  {
    assert (before + [step])[..|before|] == before;
  }

  lemma GrowsOneMore(s: State, r: State, before: seq<Step>, step: Step)
    requires Inv(s) && Grows(r, Run(s, before))
    ensures Grows(r, Run(s, before + [step]))
  {
    RunKeeps(s, before);
    RunSnoc(s, before, step);
    var t := Run(s, before);
    NextGrows(t, step);
    GrowsTransitive(r, t, Next(t, step));
  }

  lemma {:induction false} RunGrows(s: State, steps: seq<Step>, more: seq<Step>)
    requires Inv(s)
    ensures Grows(Run(s, steps), Run(s, steps + more))
    decreases |more|
  {
    if more == [] {
      assert steps + more == steps;
      GrowsReflexive(Run(s, steps));
    } else {
      var butLast, last := more[..|more| - 1], more[|more| - 1];
      assert steps + more == (steps + butLast) + [last];
      RunGrows(s, steps, butLast);
      GrowsOneMore(s, Run(s, steps), steps + butLast, last);
    }
  }

  lemma GrowsReflexive(s: State)
    ensures Grows(s, s)
  {
  }
}
