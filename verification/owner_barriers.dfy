/** Barriers hold: nothing is admitted, and no job completes, before its own barriers were opened. */
module OwnerBarriers {
  import opened Prelude
  import opened Permits
  import opened OwnerModel
  import opened OwnerInvariant
  import opened OwnerSteps
  import opened OwnerProgress
  import opened OwnerTheorems
  import opened OwnerOutcomes

  datatype Barrier = StoreBarrier | PreBoundaryBarrier | CompletionBarrier

  ghost predicate Gated(o: Operation, b: Barrier) {
    match b
    case StoreBarrier => !o.spec.RevokeCase? && o.spec.storeGated
    case PreBoundaryBarrier => !o.spec.RevokeCase? && o.spec.preGated
    case CompletionBarrier => o.spec.ProviderCase? && o.spec.completionGated
  }

  ghost function Opening(b: Barrier): OperationStep {
    match b
    case StoreBarrier => StoreOpens
    case PreBoundaryBarrier => PreBoundaryOpens
    case CompletionBarrier => CompletionOpens
  }

  ghost predicate Decided(o: Operation) {
    o.decision.Some? && o.decision != Some(Admitted)
  }

  /** The operation has not passed the barrier. */
  ghost predicate Before(o: Operation, b: Barrier) {
    match b
    case StoreBarrier => Decided(o) || (o.decision.None? && o.at in {NotStarted, AtStoreBarrier})
    case PreBoundaryBarrier =>
      Decided(o) || (o.decision.None? && o.at in {NotStarted, AtStoreBarrier, AfterStore, AtPreBoundary})
    case CompletionBarrier => o.completion.None? || o.completion == Some(NeverStarted)
  }

  /** If there is such an operation and it has that barrier, it has not passed it. */
  ghost predicate HeldBack(s: State, i: nat, b: Barrier) {
    i < |s.ops| && Gated(s.ops[i], b) ==> Before(s.ops[i], b)
  }

  lemma TakenBefore(o: Operation, revoked: bool, b: Barrier)
    requires Gated(o, b) && Before(o, b)
    ensures Before(TakenRecord(o, revoked), b)
  {
  }

  lemma EndedBefore(o: Operation, reason: Reason, b: Barrier)
    requires Before(o, b)
    ensures Before(EndedRecord(o, reason), b)
  {
  }

  lemma BystanderBefore(s: State, t: State, i: nat, b: Barrier)
    requires i < |s.ops| && Bystander(s, t, i) && Gated(s.ops[i], b) && Before(s.ops[i], b)
    ensures Before(t.ops[i], b)
  {
    TakenBefore(s.ops[i], t.At(s.ops[i].domain).revoked, b);
    EndedBefore(s.ops[i], OwnerStopped, b);
    EndedBefore(s.ops[i], OwnerPoisoned, b);
  }

  lemma QueuedBefore(o: Operation, generation: nat, response: bool, b: Barrier)
    ensures var r := QueuedRecord(o.(hasResponse := response), generation);
      (Gated(r, b) <==> Gated(o, b)) && (Before(r, b) <==> Before(o, b))
  {
  }

  lemma ReceivedBefore(s: State, i: nat, b: Barrier)
    requires Inv(s) && i < |s.ops| && Gated(s.ops[i], b) && Before(s.ops[i], b)
    ensures Before(StepServerReceives(s, i).ops[i], b)
  {
    if s.owner == Running && i in s.pending {
      ReceivedIs(s, i);
      var g := s.At(s.ops[i].domain);
      QueuedBefore(s.ops[i], g.generation, true, b);
      TakenBefore(QueuedRecord(s.ops[i].(hasResponse := true), g.generation), g.revoked, b);
    }
  }

  /** Only a completion can be still ahead of an operation that crosses its boundary. */
  lemma DecidedBefore(o: Operation, revoked: bool, b: Barrier)
    requires !o.spec.RevokeCase? && Gated(o, b) && Before(o, b) && b.CompletionBarrier?
    ensures Before(DecidedRecord(o, revoked), b)
  {
  }

  lemma StoreContinuesBefore(s: State, i: nat, b: Barrier)
    requires Inv(s) && i < |s.ops| && Gated(s.ops[i], b) && Before(s.ops[i], b)
    requires s.ops[i].decision.None? || b.CompletionBarrier?
    ensures Before(StepStoreContinues(s, i).ops[i], b)
  {
    var o := s.ops[i];
    if AtBoundary(s, i) && o.at == AfterStore && !o.spec.preGated {
      BoundaryIs(s, i, i);
      DecidedBefore(o, s.At(o.domain).revoked, b);
    } else if o.at == AfterStore && s.owner != Running {
      assert Ended(o) && Base(s, i);
    }
  }

  lemma PreBoundaryBefore(s: State, i: nat, b: Barrier)
    requires Inv(s) && i < |s.ops| && Gated(s.ops[i], b) && Before(s.ops[i], b) && !b.PreBoundaryBarrier?
    requires s.ops[i].decision.None? || b.CompletionBarrier?
    ensures Before(StepPreBoundaryOpens(s, i).ops[i], b)
  {
    var o := s.ops[i];
    if AtBoundary(s, i) && o.at == AtPreBoundary {
      BoundaryIs(s, i, i);
      DecidedBefore(o, s.At(o.domain).revoked, b);
    }
  }

  lemma FinishedBefore(s: State, i: nat, b: Barrier)
    requires Inv(s) && i < |s.ops| && Before(s.ops[i], b) && (s.ops[i].decision.None? || b.CompletionBarrier?)
    ensures Before(StepBoundaryContinues(s, i).ops[i], b)
  {
    var o := s.ops[i];
    if o.at.AtHttp? && o.at.result.Some? {
      assert Base(s, i);
      if s.owner == Running && o.at.result.value == FinishedResult {
        FinishedContinues(s, i);
      } else {
        EndedIs(o.(at := Returned), OwnerPoisoned);
      }
    }
  }

  lemma CloseBefore(s: State, i: nat, b: Barrier)
    requires Inv(s) && i < |s.ops| && Before(s.ops[i], b) && (s.ops[i].decision.None? || b.CompletionBarrier?)
    ensures Before(StepResponseClose(s, i).ops[i], b)
  {
    var o := s.ops[i];
    assert Base(s, i);
    ServerCloseBefore(s, i, b);
    if o.hasResponse {
      var r := OnServerClose(s, i).ops[i];
      assert r.at == o.at && r.handoffAttempted == o.handoffAttempted;
    }
  }

  lemma ServerCloseBefore(s: State, i: nat, b: Barrier)
    requires Wf(s) && i < |s.ops| && Before(s.ops[i], b)
    ensures var r := OnServerClose(s, i).ops[i];
      && Before(r, b) && r.at == s.ops[i].at && r.handoffAttempted == s.ops[i].handoffAttempted
      && (r.decision == s.ops[i].decision || Decided(r))
  {
    var o := s.ops[i].(transportLost := true);
    EndedIs(o, OwnerPoisoned);
    EndedBefore(o, OwnerPoisoned, b);
  }

  lemma OtherStepsBefore(s: State, i: nat, what: OperationStep, b: Barrier)
    requires Inv(s) && i < |s.ops| && Before(s.ops[i], b) && (s.ops[i].decision.None? || b.CompletionBarrier?)
    requires what in {ClientCloses, Cancel, StoreOpens, ResponseFinish, ResponseError, CompletionOpens}
    requires what != Opening(b)
    ensures Before(StepOperation(s, i, what).ops[i], b)
  {
    assert Base(s, i);
    EndedIs(s.ops[i].(transportLost := true), LostBeforeQueue);
  }

  lemma OwnStepBefore(s: State, i: nat, what: OperationStep, b: Barrier)
    requires Inv(s) && i < |s.ops| && Gated(s.ops[i], b) && Before(s.ops[i], b)
    requires s.ops[i].decision.None? || b.CompletionBarrier?
    requires what != Opening(b)
    ensures Before(StepOperation(s, i, what).ops[i], b)
  {
    match what
    case ServerReceives => ReceivedBefore(s, i, b);
    case StoreContinues => StoreContinuesBefore(s, i, b);
    case PreBoundaryOpens => PreBoundaryBefore(s, i, b);
    case BoundaryContinues => FinishedBefore(s, i, b);
    case ResponseClose => CloseBefore(s, i, b);
    case _ => OtherStepsBefore(s, i, what, b);
  }

  /** A step that does not open the barrier leaves the operation before it. */
  lemma StepBefore(s: State, step: Step, i: nat, b: Barrier)
    requires Inv(s) && i < |s.ops| && Gated(s.ops[i], b) && Before(s.ops[i], b) && step != Advance(i, Opening(b))
    ensures Before(Next(s, step).ops[i], b)
  {
    if !b.CompletionBarrier? && s.ops[i].decision.Some? {
      NextGrows(s, step);
      assert Progress(s.ops[i], Next(s, step).ops[i]);
    } else if IsAbout(step, i) {
      OwnStepBefore(s, i, step.what, b);
    } else {
      StepBystander(s, step, i);
      BystanderBefore(s, Next(s, step), i, b);
    }
  }

  // ---- newcomers --------------------------------------------------------------------------------

  lemma AdvanceCount(s: State, j: nat, what: OperationStep)
    requires Inv(s) && j < |s.ops|
    ensures |StepOperation(s, j, what).ops| == |s.ops|
  {
    match what
    case ServerReceives => if s.owner == Running && j in s.pending { ReceivedIs(s, j); }
    case StoreContinues => BoundaryCount(s, j);
    case PreBoundaryOpens => BoundaryCount(s, j);
    case BoundaryContinues => ContinuesCount(s, j);
    case ResponseClose =>
    case _ => RecordCount(s, j, what);
  }

  lemma BoundaryCount(s: State, j: nat)
    requires Inv(s) && j < |s.ops|
    ensures |StepStoreContinues(s, j).ops| == |s.ops| && |StepPreBoundaryOpens(s, j).ops| == |s.ops|
  {
    if AtBoundary(s, j) { BoundaryIs(s, j, j); }
  }

  lemma ContinuesCount(s: State, j: nat)
    requires Inv(s) && j < |s.ops|
    ensures |StepBoundaryContinues(s, j).ops| == |s.ops|
  {
    var o := s.ops[j];
    if o.at.AtHttp? && o.at.result.Some? {
      var s1 := s.SetOp(j, o.(at := Returned));
      if o.at.result.value == FinishedResult && s.owner == Running {
        FinishedReturns(s, j);
        ReleaseCount(s1, j);
      } else {
        PoisonCount(s1, TransportTerminal);
        PoisonCount(s1, PermitRejected);
      }
    }
  }

  lemma PoisonCount(s: State, cause: PoisonCause)
    ensures |Poison(s, cause).ops| == |s.ops|
  {
  }

  lemma RecordCount(s: State, j: nat, what: OperationStep)
    requires Wf(s) && j < |s.ops|
    requires what in {ClientCloses, Cancel, StoreOpens, ResponseFinish, ResponseError, CompletionOpens}
    ensures |StepOperation(s, j, what).ops| == |s.ops|
  {
  }

  /** A new operation is before all its barriers. */
  lemma RequestedBefore(s: State, d: Domain, spec: Case, i: nat, b: Barrier)
    requires Inv(s) && |s.ops| <= i
    ensures HeldBack(StepRequest(s, d, spec), i, b)
  {
    if s.owner == Running && !spec.HttpCase? {
      NewOperationUnplaced(s, d, spec);
      EnqueueSelf(WithNew(s, d, spec), |s.ops|);
      NewBefore(s, d, spec, b);
    }
  }

  /** Only a call creates an operation. */
  lemma NewHeldBack(s: State, step: Step, i: nat, b: Barrier)
    requires Inv(s) && |s.ops| <= i
    ensures HeldBack(Next(s, step), i, b)
  {
    match step
    case Stop => assert |StepStop(s).ops| == |s.ops|;
    case Advance(j, what) => if j < |s.ops| { AdvanceCount(s, j, what); }
    case Request(d, spec) => RequestedBefore(s, d, spec, i, b);
  }

  lemma NewBefore(s: State, d: Domain, spec: Case, b: Barrier)
    ensures var o := QueuedRecord(NewOperation(d, spec), s.At(d).generation);
      Gated(o, b) ==> Before(o, b) && Before(TakenRecord(o, s.At(d).revoked), b)
  {
    var o := QueuedRecord(NewOperation(d, spec), s.At(d).generation);
    if Gated(o, b) { TakenBefore(o, s.At(d).revoked, b); }
  }

  // ---- every run --------------------------------------------------------------------------------

  lemma CaseStays(s: State, step: Step, i: nat, b: Barrier)
    requires Wf(s) && i < |s.ops|
    ensures i < |Next(s, step).ops| && (Gated(Next(s, step).ops[i], b) <==> Gated(s.ops[i], b))
  {
    assert Next(s, step).ops[i].spec == s.ops[i].spec;
  }

  lemma OldHeldBack(s: State, step: Step, i: nat, b: Barrier)
    requires Inv(s) && step != Advance(i, Opening(b)) && i < |s.ops| && HeldBack(s, i, b)
    ensures HeldBack(Next(s, step), i, b)
  {
    CaseStays(s, step, i, b);
    if Gated(s.ops[i], b) { StepBefore(s, step, i, b); }
  }

  lemma HeldBackStep(s: State, t: State, step: Step, i: nat, b: Barrier)
    requires Inv(s) && t == Next(s, step) && step != Advance(i, Opening(b)) && HeldBack(s, i, b)
    ensures HeldBack(t, i, b)
  {
    if i < |s.ops| { OldHeldBack(s, step, i, b); } else { NewHeldBack(s, step, i, b); }
  }

  lemma {:induction false} BeforeUntilOpened(steps: seq<Step>, i: nat, b: Barrier)
    requires Advance(i, Opening(b)) !in steps
    ensures HeldBack(Run(Init, steps), i, b)
    decreases |steps|
  {
    if steps != [] {
      var (before, step) := (steps[..|steps| - 1], steps[|steps| - 1]);
      assert steps == before + [step];
      ReachableOk(before);
      BeforeUntilOpened(before, i, b);
      RunSnoc(Init, before, step);
      HeldBackStep(Run(Init, before), Run(Init, steps), step, i, b);
    }
  }

  /**
   * In every run a read or provider operation is admitted only after each of its own barriers was
   * opened, and a gated job completes only after its completion barrier was.
   */
  lemma BarriersHold(steps: seq<Step>, i: nat)
    requires i < |Run(Init, steps).ops| && !Run(Init, steps).ops[i].spec.RevokeCase?
    ensures var o := Run(Init, steps).ops[i];
      && (o.decision == Some(Admitted) && o.spec.storeGated ==> Advance(i, StoreOpens) in steps)
      && (o.decision == Some(Admitted) && o.spec.preGated ==> Advance(i, PreBoundaryOpens) in steps)
      && (o.spec.ProviderCase? && o.spec.completionGated && o.completion.Some? && o.completion != Some(NeverStarted)
          ==> Advance(i, CompletionOpens) in steps)
  {
    var o := Run(Init, steps).ops[i];
    if Gated(o, StoreBarrier) && Advance(i, StoreOpens) !in steps { BeforeUntilOpened(steps, i, StoreBarrier); }
    if Gated(o, PreBoundaryBarrier) && Advance(i, PreBoundaryOpens) !in steps {
      BeforeUntilOpened(steps, i, PreBoundaryBarrier);
    }
    if Gated(o, CompletionBarrier) && Advance(i, CompletionOpens) !in steps {
      BeforeUntilOpened(steps, i, CompletionBarrier);
    }
  }
}
