/**
 * Nothing can wait for ever: from every reachable state a benign environment,
 * which lets requests arrive, opens barriers and finishes responses, can bring
 * every operation to its end. No new request, no cancellation and no stop is
 * needed for it.
 */
module OwnerLiveness {
  import opened Prelude
  import opened Permits
  import opened OwnerModel
  import opened OwnerInvariant
  import opened OwnerPreservation
  import opened OwnerSteps
  import opened OwnerProgress
  import opened OwnerTheorems

  predicate Benign(step: Step) {
    step.Advance? &&
    step.what in {ServerReceives, StoreOpens, StoreContinues, PreBoundaryOpens, ResponseFinish, BoundaryContinues}
  }

  predicate AllBenign(steps: seq<Step>) {
    forall k :: 0 <= k < |steps| ==> Benign(steps[k])
  }

  lemma BenignCons(step: Step, rest: seq<Step>)
    requires Benign(step) && AllBenign(rest)
    ensures AllBenign([step] + rest)
  {
  }

  lemma BenignConcat(a: seq<Step>, b: seq<Step>)
    requires AllBenign(a) && AllBenign(b)
    ensures AllBenign(a + b)
  {
  }

  /** How many steps a holder has before it, at most. */
  function Distance(at: Point): nat {
    match at
    case AtStoreBarrier => 5
    case AfterStore => 4
    case AtPreBoundary => 3
    case AtHttp(r) => if r.None? then 2 else 1
    case _ => 0
  }

  function HolderDistance(s: State, d: Domain): nat {
    var g := s.At(d);
    if g.active.Some? && g.active.value < |s.ops| then Distance(s.ops[g.active.value].at) else 0
  }

  /** Every queued operation costs more than a holder can still cost. */
  function Work(s: State, d: Domain): nat {
    6 * |s.At(d).queue| + HolderDistance(s, d)
  }

  /** What moves a waiting holder on. */
  function Onward(at: Point): OperationStep {
    match at
    case AfterStore => StoreContinues
    case AtPreBoundary => PreBoundaryOpens
    case AtHttp(r) => if r.None? then ResponseFinish else BoundaryContinues
    case _ => StoreOpens
  }

  ghost predicate Idle(s: State, d: Domain) {
    s.At(d).active.None? && s.At(d).queue == []
  }

  // ---- a released gate --------------------------------------------------------------------------

  lemma TurnWork(s: State, d: Domain)
    requires CoreInv(s) && s.owner == Running && s.At(d).active.None? && s.At(d).queue != []
    ensures var t := Execute(Take(s, d), s.At(d).queue[0]).0;
      t.At(d).queue == s.At(d).queue[1..] && t.pending == s.pending
  {
    TakeKeeps(s, d);
    ExecuteKeeps(Take(s, d), s.At(d).queue[0]);
  }

  lemma FreeLeaves(s: State, i: nat)
    requires Wf(s) && i < |s.ops|
    ensures Free(s, i).pending == s.pending && Free(s, i).At(s.ops[i].domain).queue == s.At(s.ops[i].domain).queue
  {
  }

  lemma PumpIs(s: State, d: Domain)
    requires Wf(s) && s.owner == Running && s.At(d).active.None? && s.At(d).queue != []
    requires var i := s.At(d).queue[0];
      var (t, releases) := Execute(Take(s, d), i);
      i < |t.ops| && Outcome(t, i, releases) && t.ops[i].domain == d
    ensures var i := s.At(d).queue[0];
      var (t, releases) := Execute(Take(s, d), i);
      Pump(s, d) == if releases then Pump(Free(t, i), d) else t
  {
  }

  lemma StillWork(t: State, d: Domain, q: nat)
    requires |t.At(d).queue| < q
    ensures Work(t, d) <= 6 * q
  {
  }

  /** The pump leaves less to do than it found waiting, and the pending requests alone. */
  lemma {:induction false} PumpWork(s: State, d: Domain)
    requires CoreInv(s) && s.owner == Running && s.At(d).active.None?
    requires forall e :: e != d ==> Quiet(s, e)
    ensures Work(Pump(s, d), d) <= 6 * |s.At(d).queue| && Pump(s, d).pending == s.pending
    decreases |s.At(d).queue|
  {
    if s.At(d).queue != [] {
      var i := s.At(d).queue[0];
      var (t, releases) := Execute(Take(s, d), i);
      TurnKeeps(s, d);
      TurnWork(s, d);
      PumpIs(s, d);
      StillWork(t, d, |s.At(d).queue|);
      if releases {
        FreeTurnKeeps(t, i);
        FreeLeaves(t, i);
        PumpWork(Free(t, i), d);
      }
    }
  }

  lemma ReleaseWork(s: State, i: nat)
    requires CoreInv(s) && Releasing(s, i) && forall e :: e != s.ops[i].domain ==> Quiet(s, e)
    ensures Work(Release(s, i), s.ops[i].domain) <= 6 * |s.At(s.ops[i].domain).queue|
    ensures Release(s, i).pending == s.pending
  {
    FreeTurnKeeps(s, i);
    FreeLeaves(s, i);
    PumpWork(Free(s, i), s.ops[i].domain);
  }

  // ---- one step of a holder ---------------------------------------------------------------------

  /** The holder got further or left, or its failed transport ended the owner. */
  ghost predicate Drains(s: State, t: State, d: Domain) {
    if t.owner == Running then Work(t, d) < Work(s, d) && t.pending == s.pending else TransportFailed(t)
  }

  ghost predicate TransportFailed(s: State) {
    exists i :: 0 <= i < |s.ops| && s.ops[i].terminalFailure
  }

  ghost predicate HandedOff(r: (State, bool), i: nat) {
    i < |r.0.ops| && (r.0.ops[i].at.AtHttp? || r.0.ops[i].at == Returned)
  }

  lemma HttpBoundaryWaits(s: State, i: nat, kind: PermitKind, fault: TransportFault, reason: Reason)
    requires Wf(s) && i < |s.ops|
    ensures HandedOff(HttpBoundary(s, i, kind, fault, reason), i)
  {
  }

  lemma DenyHeldWaits(s: State, i: nat, reason: Reason)
    requires Wf(s) && i < |s.ops|
    ensures HandedOff(DenyHeld(s, i, reason), i)
  {
    HttpBoundaryWaits(s, i, HttpDenial, NoFault, reason);
  }

  lemma AdmitProviderReturns(s: State, i: nat)
    requires Wf(s) && i < |s.ops|
    ensures HandedOff(AdmitProvider(s, i), i)
  {
  }

  /** A holder that crossed the boundary has handed its response off or returned. */
  lemma CrossedWaits(s: State, i: nat)
    requires Wf(s) && i < |s.ops| && !s.ops[i].spec.RevokeCase?
    ensures HandedOff(CrossBoundary(s, i), i)
  {
    var o := s.ops[i];
    match AuthorizationFailure(s, i)
    case Some(reason) => DenyHeldWaits(s, i, reason);
    case None =>
      if o.spec.store != Allow {
        DenyHeldWaits(s, i, if o.spec.store == Deny then StoreDenied else StoreFailed);
      } else if o.spec.HttpCase? {
        HttpBoundaryWaits(s, i, HttpRelease, o.spec.fault, Released);
      } else {
        AdmitProviderReturns(s, i);
      }
  }

  lemma RecordWork(s: State, i: nat, o: Operation, d: Domain)
    requires i < |s.ops| && Distance(o.at) == 0
    ensures Work(s.SetOp(i, o), d) <= Work(s, d)
  {
  }

  function FinishedOp(s: State, i: nat): (o: Operation)
    requires Wf(s) && i < |s.ops| && s.ops[i].spec.ProviderCase?
    ensures FinishCompletion(s, i) == s.SetOp(i, o) && o.at == Returned
  {
    FinishCompletion(s, i).ops[i]
  }

  lemma CompletionWork(s: State, i: nat, d: Domain)
    requires Wf(s) && i < |s.ops| && s.ops[i].spec.ProviderCase?
    ensures Work(StartCompletion(s, i), d) <= Work(s, d)
    ensures StartCompletion(s, i).pending == s.pending && StartCompletion(s, i).owner == s.owner
  {
    if s.ops[i].spec.completionGated {
      RecordWork(s, i, s.ops[i].(at := AtCompletion), d);
    } else {
      RecordWork(s, i, FinishedOp(s, i), d);
    }
  }

  lemma AfterBoundaryDrains(t: State, releases: bool, i: nat)
    requires CoreInv(t) && Outcome(t, i, releases) && (forall e :: e != t.ops[i].domain ==> Quiet(t, e))
    requires !releases ==> t.ops[i].at.AtHttp?
    ensures var u := AfterBoundary((t, releases), i);
            Work(u, t.ops[i].domain) <= 6 * |t.At(t.ops[i].domain).queue| + 2 && u.pending == t.pending
            && u.owner == Running
  {
    if releases {
      ReleaseKeeps(t, i);
      ReleaseWork(t, i);
      if t.ops[i].spec.ProviderCase? { CompletionWork(Release(t, i), i, t.ops[i].domain); }
    }
  }

  lemma BoundaryDrains(s: State, i: nat)
    requires Inv(s) && i < |s.ops| && s.owner == Running && s.HoldsGate(i)
    requires s.ops[i].at == AfterStore || s.ops[i].at == AtPreBoundary
    requires !s.ops[i].spec.RevokeCase?
    ensures Drains(s, Boundary(s, i), s.ops[i].domain)
  {
    CrossedKeeps(s, i);
    var (t, releases) := Crossed(s, i);
    CrossedWaits(s.SetOp(i, s.ops[i].(at := Executing)), i);
    AfterBoundaryDrains(t, releases, i);
  }

  lemma RecordDrains(s: State, i: nat, o: Operation, u: Trace)
    requires i < |s.ops| && s.owner == Running && s.HoldsGate(i) && Distance(o.at) < Distance(s.ops[i].at)
    ensures Drains(s, s.SetOp(i, o).(trace := u), s.ops[i].domain)
  {
  }

  lemma FinishedDrains(s: State, i: nat)
    requires Inv(s) && i < |s.ops| && s.owner == Running && s.HoldsGate(i) && s.ops[i].at == AtHttp(Some(FinishedResult))
    ensures Drains(s, Release(s.SetOp(i, s.ops[i].(at := Returned)), i), s.ops[i].domain)
  {
    var s1 := s.SetOp(i, s.ops[i].(at := Returned));
    FinishedReturns(s, i);
    ReleaseKeeps(s1, i);
    ReleaseWork(s1, i);
  }

  lemma PoisonFails(s: State, i: nat, d: Domain)
    requires Wf(s) && i < |s.ops| && s.owner == Running && s.ops[i].terminalFailure
    ensures Drains(s, Poison(s.SetOp(i, s.ops[i].(at := Returned)), TransportTerminal), d)
  {
    assert Poison(s.SetOp(i, s.ops[i].(at := Returned)), TransportTerminal).ops[i].terminalFailure;
  }

  lemma BoundaryContinuesDrains(s: State, i: nat)
    requires Inv(s) && i < |s.ops| && s.owner == Running && s.HoldsGate(i)
    requires PointOk(s.ops[i]) && s.ops[i].at.AtHttp? && s.ops[i].at.result.Some?
    ensures Drains(s, StepBoundaryContinues(s, i), s.ops[i].domain)
  {
    if s.ops[i].at.result.value == FinishedResult {
      FinishedDrains(s, i);
    } else {
      PoisonFails(s, i, s.ops[i].domain);
    }
  }

  lemma AfterStoreDrains(s: State, i: nat)
    requires Inv(s) && i < |s.ops| && s.owner == Running && s.HoldsGate(i)
    requires s.ops[i].at == AfterStore && !s.ops[i].spec.RevokeCase?
    ensures Drains(s, StepStoreContinues(s, i), s.ops[i].domain)
  {
    if s.ops[i].spec.preGated {
      RecordDrains(s, i, s.ops[i].(at := AtPreBoundary), s.trace);
    } else {
      BoundaryDrains(s, i);
    }
  }

  lemma StoreOpensDrains(s: State, i: nat)
    requires Wf(s) && i < |s.ops| && s.owner == Running && s.HoldsGate(i) && s.ops[i].at == AtStoreBarrier
    ensures Drains(s, StepStoreOpens(s, i), s.ops[i].domain)
  {
    RecordDrains(s, i, s.ops[i].(at := AfterStore), s.trace);
  }

  lemma PreBoundaryDrains(s: State, i: nat)
    requires Inv(s) && i < |s.ops| && s.owner == Running && s.HoldsGate(i)
    requires s.ops[i].at == AtPreBoundary && !s.ops[i].spec.RevokeCase?
    ensures Drains(s, StepPreBoundaryOpens(s, i), s.ops[i].domain)
  {
    BoundaryDrains(s, i);
  }

  lemma ResponseDrains(s: State, i: nat)
    requires i < |s.ops| && s.owner == Running && s.HoldsGate(i) && s.ops[i].at == AtHttp(None)
    requires s.ops[i].handoffAttempted && !s.ops[i].finishObserved && Wf(s)
    ensures Drains(s, StepResponseFinish(s, i), s.ops[i].domain)
  {
    var o := s.ops[i];
    RecordDrains(s, i, o.(finishObserved := true, at := AtHttp(Some(FinishedResult))),
                 Then(s.trace, FinishEvent(i, o.domain)));
  }

  lemma HolderWaits(s: State, d: Domain, i: nat)
    requires Inv(s) && s.owner == Running && s.At(d).active == Some(i)
    ensures i < |s.ops| && s.ops[i].domain == d && s.HoldsGate(i) && PointOk(s.ops[i])
    ensures s.ops[i].at.AtHttp? || s.ops[i].at in {AtStoreBarrier, AfterStore, AtPreBoundary}
  {
    assert DomainOk(s, d) && Quiet(s, d);
    assert Base(s, i);
  }

  lemma OnwardIs(s: State, i: nat)
    requires Wf(s) && i < |s.ops|
    ensures var t := StepOperation(s, i, Onward(s.ops[i].at));
      match s.ops[i].at
      case AfterStore => t == StepStoreContinues(s, i)
      case AtPreBoundary => t == StepPreBoundaryOpens(s, i)
      case AtHttp(r) => t == if r.None? then StepResponseFinish(s, i) else StepBoundaryContinues(s, i)
      case _ => t == StepStoreOpens(s, i)
  {
  }

  lemma HolderDrains(s: State, d: Domain, i: nat)
    requires Inv(s) && s.owner == Running && s.At(d).active == Some(i)
    ensures i < |s.ops| && s.ops[i].domain == d
    ensures Drains(s, StepOperation(s, i, Onward(s.ops[i].at)), d)
  {
    HolderWaits(s, d, i);
    OnwardIs(s, i);
    match s.ops[i].at
    case AtStoreBarrier => StoreOpensDrains(s, i);
    case AfterStore => AfterStoreDrains(s, i);
    case AtPreBoundary => PreBoundaryDrains(s, i);
    case AtHttp(r) => if r.None? { ResponseDrains(s, i); } else { BoundaryContinuesDrains(s, i); }
    case _ =>
  }

  // ---- runs ---------------------------------------------------------------------------------------

  lemma RunCons(s: State, step: Step, rest: seq<Step>)
    requires Wf(s)
    ensures Run(s, [step] + rest) == Run(Next(s, step), rest)
  {
    RunSplits(s, [step], rest);
    assert [step][..0] == [];
  }

  /** t is the state s with the gate of the domain emptied, or ended by a failed transport. */
  ghost predicate Drained(s: State, t: State, d: Domain) {
    if t.owner == Running
    then Idle(t, d) && t.pending == s.pending && forall e :: e != d ==> t.At(e) == s.At(e)
    else TransportFailed(t)
  }

  lemma DrainOne(s: State, d: Domain) returns (step: Step)
    requires Inv(s) && s.owner == Running && !Idle(s, d)
    ensures Benign(step) && Inv(Next(s, step)) && Drains(s, Next(s, step), d)
    ensures forall e :: e != d ==> Next(s, step).At(e) == s.At(e)
  {
    assert Quiet(s, d);
    var i := s.At(d).active.value;
    HolderDrains(s, d, i);
    step := Advance(i, Onward(s.ops[i].at));
    NextKeeps(s, step);
    forall e | e != d ensures Next(s, step).At(e) == s.At(e) { StepElsewhere(s, i, step.what, e); }
  }

  lemma DrainedBefore(s: State, t: State, u: State, d: Domain)
    requires Drained(t, u, d) && t.pending == s.pending && forall e :: e != d ==> t.At(e) == s.At(e)
    ensures Drained(s, u, d)
  {
  }

  /** The gate of a domain can be emptied without touching the other. */
  lemma {:induction false} DrainDomain(s: State, d: Domain) returns (steps: seq<Step>)
    requires Inv(s) && s.owner == Running
    ensures AllBenign(steps) && Drained(s, Run(s, steps), d)
    decreases Work(s, d)
  {
    steps := [];
    if !Idle(s, d) {
      var step := DrainOne(s, d);
      var t := Next(s, step);
      var rest: seq<Step> := [];
      if t.owner == Running {
        rest := DrainDomain(t, d);
        DrainedBefore(s, t, Run(t, rest), d);
      }
      RunCons(s, step, rest);
      BenignCons(step, rest);
      steps := [step] + rest;
    }
  }

  lemma ReceiveOne(s: State, i: nat)
    requires Inv(s) && s.owner == Running && i in s.pending
    ensures i < |s.ops| && Inv(StepServerReceives(s, i)) && StepServerReceives(s, i).owner == Running
    ensures StepServerReceives(s, i).pending == Without(s.pending, i)
  {
    UnpendedUnplaced(s, i);
    var t := s.(pending := Without(s.pending, i)).SetOp(i, s.ops[i].(hasResponse := true));
    EnqueueKeeps(t, i);
    AppendKeeps(t, i);
    if t.At(t.ops[i].domain).active.None? { PumpWork(Append(t, i), t.ops[i].domain); }
  }

  lemma {:induction false} WithoutIsShorter(ids: seq<nat>, i: nat)
    ensures |Without(ids, i)| <= |ids| && (i in ids ==> |Without(ids, i)| < |ids|)
  {
    if ids != [] { WithoutIsShorter(ids[1..], i); }
  }

  lemma ReceiveFirst(s: State) returns (step: Step)
    requires Inv(s) && s.owner == Running && s.pending != []
    ensures Benign(step) && Inv(Next(s, step)) && Next(s, step).owner == Running
    ensures |Next(s, step).pending| < |s.pending|
  {
    var i := s.pending[0];
    step := Advance(i, ServerReceives);
    ReceiveOne(s, i);
    WithoutIsShorter(s.pending, i);
  }

  lemma {:induction false} ReceiveAll(s: State) returns (steps: seq<Step>)
    requires Inv(s) && s.owner == Running
    ensures AllBenign(steps) && Received(Run(s, steps))
    decreases |s.pending|
  {
    steps := [];
    if s.pending != [] {
      var step := ReceiveFirst(s);
      var rest := ReceiveAll(Next(s, step));
      RunCons(s, step, rest);
      BenignCons(step, rest);
      steps := [step] + rest;
    }
  }

  ghost predicate Received(s: State) {
    Inv(s) && s.owner == Running && s.pending == []
  }

  lemma IdleIsSettled(s: State, i: nat)
    requires Inv(s) && i < |s.ops| && (s.owner == Running ==> s.pending == [] && Idle(s, Alpha) && Idle(s, Beta))
    ensures s.ops[i].done
  {
    assert Base(s, i);
    if s.owner == Running { assert Live(s.ops[i]); } else { assert Ended(s.ops[i]); }
  }

  /** The owner of s is driven to a state where nothing waits, or to the failure of a transport. */
  lemma DrainAll(s: State) returns (steps: seq<Step>)
    requires Inv(s) && s.owner == Running
    ensures AllBenign(steps) && Inv(Run(s, steps))
    ensures var t := Run(s, steps);
            if t.owner == Running then t.pending == [] && Idle(t, Alpha) && Idle(t, Beta) else TransportFailed(t)
  {
    var first := ReceiveAll(s);
    var s1 := Run(s, first);
    var second := DrainDomain(s1, Alpha);
    var s2 := Run(s1, second);
    RunKeeps(s1, second);
    RunSplits(s, first, second);
    BenignConcat(first, second);
    steps := first + second;
    if s2.owner == Running {
      var third := DrainDomain(s2, Beta);
      RunKeeps(s2, third);
      RunSplits(s, first + second, third);
      BenignConcat(first + second, third);
      steps := first + second + third;
    }
  }

  /**
   * From every reachable state some benign continuation settles every operation,
   * and the owner is still running unless a transport failed.
   */
  lemma EverythingCanSettle(steps: seq<Step>) returns (more: seq<Step>)
    ensures AllBenign(more)
    ensures var t := Run(Init, steps + more);
            forall i :: 0 <= i < |t.ops| ==> t.ops[i].done
    ensures Run(Init, steps).owner == Running ==>
              Run(Init, steps + more).owner == Running || TransportFailed(Run(Init, steps + more))
  {
    ReachableOk(steps);
    var s := Run(Init, steps);
    more := [];
    assert steps + [] == steps;
    if s.owner == Running {
      more := DrainAll(s);
      RunSplits(Init, steps, more);
    }
    var t := Run(Init, steps + more);
    forall i | 0 <= i < |t.ops| ensures t.ops[i].done { IdleIsSettled(t, i); }
  }
}
