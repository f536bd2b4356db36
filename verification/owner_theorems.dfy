/** The effect-ordering guarantees, over every run of the owner. */
module OwnerTheorems {
  import opened Prelude
  import opened Permits
  import opened OwnerModel
  import opened OwnerInvariant
  import opened OwnerPreservation
  import opened OwnerSteps
  import opened OwnerProgress

  lemma ReachableOk(steps: seq<Step>)
    ensures Inv(Run(Init, steps))
  {
    InitOk();
    RunKeeps(Init, steps);
  }

  lemma {:induction false} EarlierOk(u: Trace, t: Trace)
    requires TraceOk(t) && Earlier(u, t)
    ensures TraceOk(u)
    decreases t
  {
    if u != t { EarlierOk(u, t.before); }
  }

  // ---- revocation barrier -----------------------------------------------------------------------

  lemma BarrierAt(s: State, d: Domain, x: nat, y: nat)
    requires Inv(s)
    requires var order := QueuedOrder(s.trace, d);
      && x < y < |order| && Revokes(s, order[x])
      && order[y] < |s.ops| && s.ops[order[y]].Kind() != Revoke
    ensures var i := QueuedOrder(s.trace, d)[y];
      s.ops[i].decision != Some(Admitted) && AdmittingEffects(s.trace, i) == 0
  {
    var held := HeldOrder(s.trace, d);
    var order := QueuedOrder(s.trace, d);
    assert DomainOk(s, d) && Base(s, order[y]);
    if y < |held| {
      assert Revokes(s, held[x]) && !Admits(s, held[y]);
    } else {
      assert order[y] == s.At(d).queue[y - |held|];
      assert s.ops[order[y]].domain == d;
    }
  }

  /**
   * Once a revocation is queued in a domain, no read or provider operation queued later in that
   * domain is ever admitted: it has no admitting decision and no release or start permit of it was
   * ever accepted.
   */
  lemma QueuedRevocationBlocksLaterEffects(steps: seq<Step>, d: Domain, x: nat, y: nat)
    requires var s := Run(Init, steps);
      var order := QueuedOrder(s.trace, d);
      && x < y < |order| && Revokes(s, order[x])
      && order[y] < |s.ops| && s.ops[order[y]].Kind() != Revoke
    ensures var s := Run(Init, steps);
      var i := QueuedOrder(s.trace, d)[y];
      s.ops[i].decision != Some(Admitted) && AdmittingEffects(s.trace, i) == 0
  {
    ReachableOk(steps);
    BarrierAt(Run(Init, steps), d, x, y);
  }

  /** Every accepted release or start permit precedes the first commit of its domain. */
  lemma EffectsPrecedeCommit(steps: seq<Step>, u: Trace)
    requires Earlier(u, Run(Init, steps).trace)
    requires u.Then? && u.event.ConsumedEvent? && IsAdmittingKind(u.event.kind)
    ensures Commits(u.before, u.event.domain) == 0 && u.event.generation == 1
  {
    ReachableOk(steps);
    EarlierOk(u, Run(Init, steps).trace);
  }

  lemma {:induction false} AdmissionsCarryFirstGeneration(t: Trace, k: nat)
    requires TraceOk(t) && k < |Admissions(t)|
    ensures Admissions(t)[k].generation == 1
    decreases t
  {
    if k < |Admissions(t.before)| { AdmissionsCarryFirstGeneration(t.before, k); }
  }

  /** The generation counts the commits, revocation is one-way, and every job is of generation 1. */
  lemma GenerationCountsCommits(steps: seq<Step>, d: Domain)
    ensures var s := Run(Init, steps);
      && s.At(d).generation == 1 + Commits(s.trace, d)
      && (s.At(d).revoked <==> Commits(s.trace, d) > 0)
      && (forall k :: 0 <= k < |s.jobs| ==> s.jobs[k].generation == 1)
  {
    ReachableOk(steps);
    var s := Run(Init, steps);
    assert DomainOk(s, d);
    forall k | 0 <= k < |s.jobs| ensures s.jobs[k].generation == 1 {
      AdmissionsCarryFirstGeneration(s.trace, k);
    }
  }

  // ---- FIFO exclusion and definitive release ----------------------------------------------------

  /**
   * Operations take a gate in the order in which they were queued; each is queued at most once;
   * of those that took the gate all but the present holder have settled; and a running owner
   * leaves no gate free while somebody waits for it.
   */
  lemma FifoExclusion(steps: seq<Step>, d: Domain)
    ensures var s := Run(Init, steps);
      var g := s.At(d);
      && QueuedOrder(s.trace, d) == HeldOrder(s.trace, d) + g.queue
      && (forall i: nat :: Queuings(s.trace, i) <= 1 && Holds(s.trace, i) <= 1)
      && (forall i: nat :: i in HeldOrder(s.trace, d) ==>
            i < |s.ops| && s.ops[i].domain == d && (g.active == Some(i) || s.ops[i].phase == Settled))
      && (s.owner == Running && g.active.None? ==> g.queue == [])
  {
    ReachableOk(steps);
    var s := Run(Init, steps);
    assert DomainOk(s, d) && Quiet(s, d);
    forall i: nat ensures Queuings(s.trace, i) <= 1 && Holds(s.trace, i) <= 1 {
      if i < |s.ops| { assert Base(s, i); } else { assert NoEventsOf(s.trace, i); }
    }
    forall i: nat | i in HeldOrder(s.trace, d)
      ensures i < |s.ops| && s.ops[i].domain == d && (s.At(d).active == Some(i) || s.ops[i].phase == Settled)
    {
      assert TookGate(s, d, i);
      assert Base(s, i);
    }
  }

  lemma GateLeft(s: State, t: State, d: Domain)
    requires Inv(s) && Inv(t) && Grows(s, t)
    requires s.At(d).active.Some? && t.At(d).active != s.At(d).active
    requires s.At(d).active.value < |s.ops| ==>
      t.ops[s.At(d).active.value].domain == s.ops[s.At(d).active.value].domain
    ensures var i := s.At(d).active.value;
      && i < |t.ops| && t.ops[i].phase == Settled && Definitive(t.ops[i])
      && (t.ops[i].Kind() == Provider && t.ops[i].decision == Some(Admitted) ==> AdmissionsOf(t.trace, i) == 1)
      && (t.ops[i].Kind() == Revoke ==> Effects(t.trace, i) == 1)
  {
    var i := s.At(d).active.value;
    assert DomainOk(s, d) && Base(s, i);
    assert Progress(s.ops[i], t.ops[i]);
    assert Base(t, i);
  }

  /**
   * A gate leaves its holder only after a commit, a recorded job, a denial with no hand-off, or a
   * hand-off whose finish was observed.
   */
  lemma GateLeavesDefinitively(steps: seq<Step>, step: Step, d: Domain)
    requires Run(Init, steps).At(d).active.Some?
    requires Next(Run(Init, steps), step).At(d).active != Run(Init, steps).At(d).active
    ensures var i := Run(Init, steps).At(d).active.value;
      var t := Next(Run(Init, steps), step);
      && i < |t.ops| && t.ops[i].phase == Settled && Definitive(t.ops[i])
      && (t.ops[i].Kind() == Provider && t.ops[i].decision == Some(Admitted) ==> AdmissionsOf(t.trace, i) == 1)
      && (t.ops[i].Kind() == Revoke ==> Effects(t.trace, i) == 1)
  {
    ReachableOk(steps);
    var s := Run(Init, steps);
    NextKeeps(s, step);
    NextGrows(s, step);
    GateLeft(s, Next(s, step), d);
  }

  // ---- at most one effect per operation ---------------------------------------------------------

  /** Any permit accepted for an operation is its only one, and it is tied to its decision. */
  lemma AtMostOneEffect(steps: seq<Step>, i: nat)
    requires i < |Run(Init, steps).ops|
    ensures var s := Run(Init, steps);
      && Effects(s.trace, i) <= 1 && AdmittingEffects(s.trace, i) <= 1 && AdmissionsOf(s.trace, i) <= 1
      && (AdmittingEffects(s.trace, i) == 1 <==> s.ops[i].Kind() != Revoke && s.ops[i].decision == Some(Admitted))
      && (s.ops[i].handoffAttempted ==> Effects(s.trace, i) == 1)
  {
    ReachableOk(steps);
    assert Base(Run(Init, steps), i);
  }

  /** No permit is ever refused, so the owner is never poisoned for that reason. */
  lemma NoPermitRefused(steps: seq<Step>, u: Trace)
    requires Earlier(u, Run(Init, steps).trace) && u.Then?
    ensures !u.event.RejectedEvent? && u.event != PoisonedEvent(PermitRejected)
  {
    ReachableOk(steps);
    EarlierOk(u, Run(Init, steps).trace);
  }

  /** Every minted permit is accepted by the very next event. */
  lemma {:induction false} MintedIsConsumed(t: Trace, u: Trace)
    requires TraceOk(t) && !EndsInMint(t) && Earlier(u, t) && EndsInMint(u)
    ensures Earlier(Then(u, ConsumedEvent(u.event.op, u.event.domain, u.event.generation, u.event.kind)), t)
    decreases t
  {
    if t.before != u {
      if EndsInMint(t.before) {
        MintedIsConsumed(t.before.before, u);
        EarlierTransitive(
          Then(u, ConsumedEvent(u.event.op, u.event.domain, u.event.generation, u.event.kind)), t.before.before, t);
      } else {
        MintedIsConsumed(t.before, u);
      }
    }
  }

  lemma EveryMintedPermitIsAcceptedAtOnce(steps: seq<Step>, u: Trace)
    requires Earlier(u, Run(Init, steps).trace) && EndsInMint(u)
    ensures var m := u.event;
      Earlier(Then(u, ConsumedEvent(m.op, m.domain, m.generation, m.kind)), Run(Init, steps).trace)
  {
    ReachableOk(steps);
    MintedIsConsumed(Run(Init, steps).trace, u);
  }

  /** A decision is written once, and what is settled stays settled. */
  lemma DecisionWrittenOnce(steps: seq<Step>, more: seq<Step>, i: nat)
    requires i < |Run(Init, steps).ops| && Run(Init, steps).ops[i].decision.Some?
    ensures i < |Run(Init, steps + more).ops|
    ensures var (o, r) := (Run(Init, steps).ops[i], Run(Init, steps + more).ops[i]);
      r.decision == o.decision && r.reason == o.reason && (o.done ==> r.done)
  {
    InitOk();
    RunGrows(Init, steps, more);
    assert Progress(Run(Init, steps).ops[i], Run(Init, steps + more).ops[i]);
  }

  /** An undecided operation is neither admitted nor settled, whatever became of the owner. */
  lemma UndecidedPhase(s: State, i: nat)
    requires Inv(s) && i < |s.ops| && s.ops[i].decision.None?
    ensures s.ops[i].phase !in {AdmittedPhase, Settled} && !s.ops[i].done && s.owner == Running
  {
    assert Base(s, i);
    assert s.owner != Running ==> Ended(s.ops[i]);
    assert Live(s.ops[i]);
  }

  /**
   * A withdrawal takes hold of exactly the undecided reads and provider operations, queued, held or
   * not yet received. It is then noted and changes nothing else; any other changes nothing at all.
   */
  lemma CancelTakesHold(steps: seq<Step>, i: nat)
    requires i < |Run(Init, steps).ops|
    ensures var s := Run(Init, steps);
      var (o, t) := (s.ops[i], Next(s, Advance(i, Cancel)));
      if o.Kind() != Revoke && o.decision.None? then t == s.(ops := s.ops[i := o.(cancelRequested := true)]) else t == s
  {
    ReachableOk(steps);
    var s := Run(Init, steps);
    if s.ops[i].decision.None? { UndecidedPhase(s, i); }
  }

  /** An operation withdrawn before it was decided is never admitted after that. */
  lemma CancelPreventsAdmission(steps: seq<Step>, i: nat, more: seq<Step>)
    requires i < |Run(Init, steps).ops|
    requires Run(Init, steps).ops[i].Kind() != Revoke && Run(Init, steps).ops[i].decision.None?
    ensures var s := Run(Init, steps + [Advance(i, Cancel)] + more);
      && i < |s.ops| && s.ops[i].cancelRequested
      && s.ops[i].decision != Some(Admitted) && AdmittingEffects(s.trace, i) == 0
  {
    var cancelled := steps + [Advance(i, Cancel)];
    CancelTakesHold(steps, i);
    RunSnoc(Init, steps, Advance(i, Cancel));
    assert Run(Init, cancelled).ops[i].cancelRequested;
    InitOk();
    RunGrows(Init, cancelled, more);
    ReachableOk(cancelled + more);
    assert Progress(Run(Init, cancelled).ops[i], Run(Init, cancelled + more).ops[i]);
    assert Base(Run(Init, cancelled + more), i);
  }

  // ---- fail-closed freeze, no lost operation ----------------------------------------------------

  ghost predicate Frozen(s: State, t: State) {
    && t.alpha == s.alpha && t.beta == s.beta && t.jobs == s.jobs && |t.ops| == |s.ops|
    && (forall i: nat :: Effects(t.trace, i) == Effects(s.trace, i))
  }

  lemma EndedCloseFrozen(s: State, i: nat)
    requires Inv(s) && s.owner != Running && i < |s.ops|
    ensures Frozen(s, StepResponseClose(s, i)) && StepResponseClose(s, i).owner == s.owner
  {
    assert OnServerClose(s, i) == s || OnServerClose(s, i) == s.SetOp(i, s.ops[i].(transportLost := true));
  }

  lemma EndedBoundaryFrozen(s: State, i: nat)
    requires Inv(s) && s.owner != Running && i < |s.ops|
    ensures Frozen(s, StepBoundaryContinues(s, i)) && StepBoundaryContinues(s, i).owner == s.owner
  {
    assert Base(s, i);
  }

  lemma EndedOperationFrozen(s: State, i: nat, what: OperationStep)
    requires Inv(s) && s.owner != Running && i < |s.ops|
    ensures Frozen(s, StepOperation(s, i, what)) && StepOperation(s, i, what).owner == s.owner
  {
    match what
    case ResponseClose => EndedCloseFrozen(s, i);
    case BoundaryContinues => EndedBoundaryFrozen(s, i);
    case _ =>
  }

  lemma EndedStepFrozen(s: State, step: Step)
    requires Inv(s) && s.owner != Running
    ensures Frozen(s, Next(s, step))
    ensures Next(s, step).owner == Stopped || (Next(s, step).owner == Poisoned && s.owner == Poisoned)
  {
    match step
    case Request(_, _) =>
    case Stop =>
    case Advance(i, what) =>
      if i < |s.ops| { EndedOperationFrozen(s, i, what); }
  }

  lemma {:induction false} EndedRunFrozen(s: State, steps: seq<Step>)
    requires Inv(s) && s.owner != Running
    ensures var t := Run(s, steps);
      && Inv(t) && Frozen(s, t) && (t.owner == Stopped || (t.owner == Poisoned && s.owner == Poisoned))
    decreases |steps|
  {
    if steps != [] {
      var u := Run(s, steps[..|steps| - 1]);
      EndedRunFrozen(s, steps[..|steps| - 1]);
      EndedStepFrozen(u, steps[|steps| - 1]);
      NextKeeps(u, steps[|steps| - 1]);
    }
  }

  lemma {:induction false} RunSplits(s: State, steps: seq<Step>, more: seq<Step>)
    requires Wf(s)
    ensures Run(s, steps + more) == Run(Run(s, steps), more)
    decreases |more|
  {
    if more == [] {
      assert steps + more == steps;
    } else {
      assert (steps + more)[..|steps + more| - 1] == steps + more[..|more| - 1];
      RunSplits(s, steps, more[..|more| - 1]);
    }
  }

  /**
   * A poisoned owner stays poisoned or is stopped, a stopped one stays stopped. From then on no
   * generation, queue, holder or job changes and no permit is accepted, and every operation that
   * ever was created is settled.
   */
  lemma FailClosed(steps: seq<Step>, more: seq<Step>)
    requires Run(Init, steps).owner != Running
    ensures var (s, t) := (Run(Init, steps), Run(Init, steps + more));
      && Frozen(s, t)
      && (t.owner == Stopped || (t.owner == Poisoned && s.owner == Poisoned))
      && (forall i :: 0 <= i < |t.ops| ==> t.ops[i].done && t.ops[i].decision.Some?)
  {
    ReachableOk(steps);
    EndedRunFrozen(Run(Init, steps), more);
    RunSplits(Init, steps, more);
    var t := Run(Init, steps + more);
    forall i | 0 <= i < |t.ops| ensures t.ops[i].done && t.ops[i].decision.Some? {
      assert Ended(t.ops[i]) && Base(t, i);
    }
  }

  /** An unsettled operation is in exactly one place: pending, its domain's queue, or its gate. */
  lemma NoOperationLost(steps: seq<Step>, i: nat)
    requires i < |Run(Init, steps).ops| && !Run(Init, steps).ops[i].done
    ensures var s := Run(Init, steps);
      var d := s.ops[i].domain;
      var (pending, queued, held) := (i in s.pending, i in s.At(d).queue, s.At(d).active == Some(i));
      && s.owner == Running
      && (pending || queued || held)
      && !(pending && queued) && !(pending && held) && !(queued && held)
      && (forall e :: e != d ==> i !in s.At(e).queue && s.At(e).active != Some(i))
  {
    ReachableOk(steps);
    var s := Run(Init, steps);
    assert Base(s, i);
    assert DomainOk(s, Alpha) && DomainOk(s, Beta);
  }

  // ---- independence -----------------------------------------------------------------------------

  lemma {:induction false} PumpElsewhere(s: State, d: Domain, e: Domain)
    requires CoreInv(s) && s.owner == Running && s.At(d).active.None? && e != d
    requires forall e :: e != d ==> Quiet(s, e)
    ensures Pump(s, d).At(e) == s.At(e)
    decreases |s.At(d).queue|
  {
    if s.At(d).queue != [] {
      var i := s.At(d).queue[0];
      TakeKeeps(s, d);
      ExecuteKeeps(Take(s, d), i);
      var (t, releases) := Execute(Take(s, d), i);
      if releases {
        TurnKeeps(s, d);
        FreeTurnKeeps(t, i);
        PumpElsewhere(Free(t, i), d, e);
      }
    }
  }

  lemma AfterBoundaryElsewhere(t: State, releases: bool, i: nat, e: Domain)
    requires CoreInv(t) && Outcome(t, i, releases) && (forall e :: e != t.ops[i].domain ==> Quiet(t, e))
    requires e != t.ops[i].domain
    ensures AfterBoundary((t, releases), i).At(e) == t.At(e)
  {
    if releases { ReleaseElsewhere(t, i, e); }
  }

  lemma BoundaryElsewhere(s: State, i: nat, e: Domain)
    requires Inv(s) && i < |s.ops| && s.owner == Running && e != s.ops[i].domain
    requires s.ops[i].at == AfterStore || s.ops[i].at == AtPreBoundary
    requires !s.ops[i].spec.RevokeCase?
    ensures Boundary(s, i).At(e) == s.At(e)
  {
    CrossedKeeps(s, i);
    AfterBoundaryElsewhere(Crossed(s, i).0, Crossed(s, i).1, i, e);
  }

  lemma EnqueueElsewhere(s: State, i: nat, e: Domain)
    requires Unplaced(s, i) && e != s.ops[i].domain
    ensures Enqueue(s, i).At(e) == s.At(e)
  {
    AppendKeeps(s, i);
    if s.At(s.ops[i].domain).active.None? { PumpElsewhere(Append(s, i), s.ops[i].domain, e); }
  }

  lemma ReleaseElsewhere(s: State, i: nat, e: Domain)
    requires CoreInv(s) && Releasing(s, i) && forall e :: e != s.ops[i].domain ==> Quiet(s, e)
    requires e != s.ops[i].domain
    ensures Release(s, i).At(e) == s.At(e)
  {
    FreeTurnKeeps(s, i);
    PumpElsewhere(Free(s, i), s.ops[i].domain, e);
  }

  lemma BoundaryContinuesElsewhere(s: State, i: nat, e: Domain)
    requires Inv(s) && i < |s.ops| && s.owner == Running && s.ops[i].at == AtHttp(Some(FinishedResult))
    requires e != s.ops[i].domain
    ensures StepBoundaryContinues(s, i).At(e) == s.At(e)
  {
    var o := s.ops[i];
    assert Base(s, i) && Live(o);
    var s1 := s.SetOp(i, o.(at := Returned));
    HolderStep(s, i, o.(at := Returned), s.trace, s.jobs);
    QuietElsewhere(s, s1, i, o.domain);
    ReleaseElsewhere(s1, i, e);
  }

  lemma StoreElsewhere(s: State, i: nat, e: Domain)
    requires Inv(s) && i < |s.ops| && e != s.ops[i].domain
    ensures StepStoreContinues(s, i).At(e) == s.At(e) && StepPreBoundaryOpens(s, i).At(e) == s.At(e)
  {
    var o := s.ops[i];
    if s.owner == Running && !o.spec.RevokeCase? && (o.at == AfterStore || o.at == AtPreBoundary) {
      BoundaryElsewhere(s, i, e);
    }
  }

  lemma ServerReceivesElsewhere(s: State, i: nat, e: Domain)
    requires Inv(s) && i < |s.ops| && e != s.ops[i].domain
    ensures StepServerReceives(s, i).At(e) == s.At(e)
  {
    if s.owner == Running && i in s.pending {
      UnpendedUnplaced(s, i);
      EnqueueElsewhere(s.(pending := Without(s.pending, i)).SetOp(i, s.ops[i].(hasResponse := true)), i, e);
    }
  }

  /** Steps that change records only. */
  lemma RecordsOnly(s: State, i: nat, what: OperationStep)
    requires Wf(s) && i < |s.ops|
    requires what !in {ServerReceives, StoreContinues, PreBoundaryOpens, BoundaryContinues}
    ensures StepOperation(s, i, what).alpha == s.alpha && StepOperation(s, i, what).beta == s.beta
  {
  }

  lemma StepElsewhere(s: State, i: nat, what: OperationStep, e: Domain)
    requires Inv(s) && i < |s.ops| && e != s.ops[i].domain
    ensures StepOperation(s, i, what).At(e) == s.At(e)
  {
    match what
    case ServerReceives => ServerReceivesElsewhere(s, i, e);
    case StoreContinues => StoreElsewhere(s, i, e);
    case PreBoundaryOpens => StoreElsewhere(s, i, e);
    case BoundaryContinues => AfterHttpElsewhere(s, i, e);
    case _ => RecordsOnly(s, i, what);
  }

  lemma AfterHttpElsewhere(s: State, i: nat, e: Domain)
    requires Inv(s) && i < |s.ops| && e != s.ops[i].domain
    ensures StepBoundaryContinues(s, i).At(e) == s.At(e)
  {
    var o := s.ops[i];
    if s.owner == Running && o.at == AtHttp(Some(FinishedResult)) {
      BoundaryContinuesElsewhere(s, i, e);
    } else if o.at.AtHttp? && o.at.result.Some? {
      var s1 := s.SetOp(i, o.(at := Returned));
      assert s1.At(e) == s.At(e);
      assert o.at.result.value == FinishedResult ==> Release(s1, i) == s1;
    }
  }

  /** A step of an operation never touches the other domain's gate. */
  lemma DomainsAreIndependent(steps: seq<Step>, i: nat, what: OperationStep, e: Domain)
    requires i < |Run(Init, steps).ops| && e != Run(Init, steps).ops[i].domain
    ensures Next(Run(Init, steps), Advance(i, what)).At(e) == Run(Init, steps).At(e)
  {
    ReachableOk(steps);
    StepElsewhere(Run(Init, steps), i, what, e);
  }
}
