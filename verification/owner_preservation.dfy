/** Every piece of a step keeps the owner's invariant. */
module OwnerPreservation {
  import opened Prelude
  import opened Permits
  import opened OwnerModel
  import opened OwnerInvariant

  // ---- preservation inside a step -------------------------------------------------------------

  /** Everything that Base says about an operation is the same in both states, or has grown. */
  ghost predicate SameFor(s: State, t: State, k: nat)
    requires k < |s.ops| && k < |t.ops|
  {
    var d := s.ops[k].domain;
    && t.ops[k] == s.ops[k]
    && (k in t.At(d).queue <==> k in s.At(d).queue)
    && (t.At(d).active == Some(k) <==> s.At(d).active == Some(k))
    && (k in t.pending <==> k in s.pending)
    && Queuings(t.trace, k) == Queuings(s.trace, k)
    && Holds(t.trace, k) == Holds(s.trace, k)
    && Effects(t.trace, k) == Effects(s.trace, k)
    && AdmittingEffects(t.trace, k) == AdmittingEffects(s.trace, k)
    && AdmissionsOf(t.trace, k) == AdmissionsOf(s.trace, k)
    && s.At(d).generation <= t.At(d).generation
    && (s.At(d).revoked ==> t.At(d).revoked)
  }

  lemma BaseFrame(s: State, t: State, k: nat)
    requires k < |s.ops| && k < |t.ops| && Base(s, k) && SameFor(s, t, k)
    ensures Base(t, k)
  {
  }

  /** No queue, no order and no admission of the domain changes; its gate may be given up. */
  ghost predicate SameOrder(s: State, t: State, d: Domain) {
    && |t.ops| >= |s.ops|
    && t.At(d).queue == s.At(d).queue && t.At(d).active in {s.At(d).active, None}
    && t.At(d).generation == s.At(d).generation && t.At(d).revoked == s.At(d).revoked
    && QueuedOrder(t.trace, d) == QueuedOrder(s.trace, d)
    && HeldOrder(t.trace, d) == HeldOrder(s.trace, d)
    && Commits(t.trace, d) == Commits(s.trace, d)
    && forall k :: 0 <= k < |s.ops| ==> SameStanding(s.ops[k], t.ops[k])
  }

  ghost predicate SameStanding(p: Operation, o: Operation) {
    && o.domain == p.domain && o.spec == p.spec
    && (o.at == NotStarted ==> p.at == NotStarted)
    && (o.decision == Some(Admitted) ==> p.decision == Some(Admitted))
  }

  lemma DomainFrame(s: State, t: State, d: Domain)
    requires DomainOk(s, d) && SameOrder(s, t, d)
    ensures DomainOk(t, d)
  {
    var order := HeldOrder(s.trace, d);
    forall k: nat | k in order ensures TookGate(t, d, k) { assert TookGate(s, d, k); }
    forall x, y | 0 <= x < y < |order| && Revokes(t, order[x]) ensures !Admits(t, order[y]) {
      assert order[x] in order && order[y] in order;
      assert TookGate(s, d, order[x]) && TookGate(s, d, order[y]);
      assert Revokes(s, order[x]);
      assert !Admits(s, order[y]);
    }
  }

  lemma TakeHead(s: State, d: Domain)
    requires CoreInv(s) && s.owner == Running && s.At(d).active.None? && s.At(d).queue != []
    ensures var i := s.At(d).queue[0];
      && i < |s.ops| && s.ops[i].domain == d && Base(s, i) && Live(s.ops[i])
      && s.ops[i].at == NotStarted && s.ops[i].expectedGeneration.Some?
      && i !in s.At(d).queue[1..] && i !in s.pending
      && (forall k :: k in s.At(d).queue <==> k == i || k in s.At(d).queue[1..])
      && Distinct(s.At(d).queue[1..])
      && HeldOrder(s.trace, d) + s.At(d).queue == (HeldOrder(s.trace, d) + [i]) + s.At(d).queue[1..]
  {
    var i := s.At(d).queue[0];
    assert i in s.At(d).queue;
    assert DomainOk(s, d);
    assert Base(s, i);
  }

  lemma TakeSelf(s: State, d: Domain, i: nat)
    requires Wf(s) && s.At(d).queue != [] && s.At(d).queue[0] == i && i < |s.ops| && s.ops[i].domain == d
    requires Base(s, i) && Live(s.ops[i]) && s.ops[i].at == NotStarted && s.ops[i].expectedGeneration.Some?
    requires i !in s.At(d).queue[1..] && i !in s.pending
    ensures Base(Take(s, d), i) && Live(Take(s, d).ops[i])
  {
  }

  lemma TakeOther(s: State, d: Domain, k: nat)
    requires Wf(s) && s.At(d).queue != [] && s.At(d).active.None? && k < |s.ops| && k != s.At(d).queue[0]
    requires k in s.At(d).queue <==> k in s.At(d).queue[1..]
    ensures SameFor(s, Take(s, d), k) && Take(s, d).ops[k] == s.ops[k]
  {
  }

  lemma TakeBase(s: State, d: Domain, k: nat)
    requires CoreInv(s) && s.owner == Running && s.At(d).active.None? && s.At(d).queue != []
    requires k < |s.ops|
    ensures Base(Take(s, d), k) && Live(Take(s, d).ops[k])
  {
    TakeHead(s, d);
    if k == s.At(d).queue[0] {
      TakeSelf(s, d, k);
    } else {
      assert Base(s, k) && Live(s.ops[k]);
      TakeOther(s, d, k);
      BaseFrame(s, Take(s, d), k);
    }
  }

  lemma TakeBarrier(s: State, d: Domain)
    requires CoreInv(s) && s.owner == Running && s.At(d).active.None? && s.At(d).queue != []
    ensures RevocationBarrier(Take(s, d), HeldOrder(s.trace, d) + [s.At(d).queue[0]])
  {
    TakeHead(s, d);
    assert DomainOk(s, d);
    var t := Take(s, d);
    var held := HeldOrder(s.trace, d);
    var i := s.At(d).queue[0];
    var order := held + [i];
    forall x, y | 0 <= x < y < |order| && Revokes(t, order[x]) ensures !Admits(t, order[y]) {
      assert order[x] == held[x];
      if y < |held| { assert Revokes(s, held[x]) && !Admits(s, held[y]); }
    }
  }

  lemma TakeDomainSelf(s: State, d: Domain)
    requires Wf(s) && DomainOk(s, d) && s.At(d).queue != []
    requires RevocationBarrier(Take(s, d), HeldOrder(s.trace, d) + [s.At(d).queue[0]])
    ensures DomainOk(Take(s, d), d)
  {
    var t, i := Take(s, d), s.At(d).queue[0];
    var held := HeldOrder(s.trace, d) + [i];
    assert i in s.At(d).queue;
    assert HeldOrder(t.trace, d) == held;
    assert HeldOrder(s.trace, d) + s.At(d).queue == held + t.At(d).queue;
    forall k: nat | k in held ensures TookGate(t, d, k) {
      if k != i { assert TookGate(s, d, k); }
    }
  }

  lemma TakeSameOrder(s: State, d: Domain, e: Domain)
    requires Wf(s) && s.At(d).queue != [] && d != e
    ensures SameOrder(s, Take(s, d), e)
  {
  }

  lemma TakeDomain(s: State, d: Domain, e: Domain)
    requires CoreInv(s) && s.owner == Running && s.At(d).active.None? && s.At(d).queue != []
    ensures DomainOk(Take(s, d), e)
  {
    assert DomainOk(s, e);
    if e == d {
      TakeBarrier(s, d);
      TakeDomainSelf(s, d);
    } else {
      TakeSameOrder(s, d, e);
      DomainFrame(s, Take(s, d), e);
    }
  }

  lemma TakeKeeps(s: State, d: Domain)
    requires CoreInv(s) && s.owner == Running && s.At(d).active.None? && s.At(d).queue != []
    ensures CoreInv(Take(s, d)) && RunsNow(Take(s, d), s.At(d).queue[0])
    ensures forall e :: e != d ==> Take(s, d).At(e) == s.At(e)
    ensures forall k :: 0 <= k < |s.ops| && k != s.At(d).queue[0] ==> Take(s, d).ops[k] == s.ops[k]
    ensures Take(s, d).ops[s.At(d).queue[0]].domain == d
  {
    TakeHead(s, d);
    forall k | 0 <= k < |s.ops| ensures Base(Take(s, d), k) && Live(Take(s, d).ops[k]) {
      TakeBase(s, d, k);
    }
    TakeDomain(s, d, Alpha);
    TakeDomain(s, d, Beta);
    NoneBeyondThen(s.trace, Take(s, d).trace.event, |s.ops|);
  }

  // ---- the holder executes ----------------------------------------------------------------------

  /** The trace grew only by events of this operation that are no queuing and no holding. */
  ghost predicate TraceLocal(t: Trace, u: Trace, i: nat) {
    && (forall d :: QueuedOrder(u, d) == QueuedOrder(t, d) && HeldOrder(u, d) == HeldOrder(t, d))
    && (forall k: nat :: Queuings(u, k) == Queuings(t, k))
    && (forall k: nat :: Holds(u, k) == Holds(t, k))
    && (forall k: nat :: k != i ==> Effects(u, k) == Effects(t, k))
    && (forall k: nat :: k != i ==> AdmittingEffects(u, k) == AdmittingEffects(t, k))
    && (forall k: nat :: k != i ==> AdmissionsOf(u, k) == AdmissionsOf(t, k))
    && (HasEnded(u) <==> HasEnded(t))
  }

  /** The gate of this operation's domain: nothing, or a commit. */
  ghost predicate GateGrows(s: State, t: State, d: Domain) {
    && t.At(d).active == s.At(d).active
    && s.At(d).generation <= t.At(d).generation
    && (s.At(d).revoked ==> t.At(d).revoked)
    && t.At(d).generation == 1 + Commits(t.trace, d)
    && (t.At(d).revoked <==> Commits(t.trace, d) > 0)
  }

  /** What LocalStep asks of the new state, apart from the old invariant. */
  ghost predicate Local(s: State, t: State, i: nat)
    requires i < |s.ops|
  {
    && OnlyAbout(s, t, i) && TraceLocal(s.trace, t.trace, i) && GateGrows(s, t, s.ops[i].domain)
    && (forall d :: d != s.ops[i].domain ==> Commits(t.trace, d) == Commits(s.trace, d))
    && Base(t, i) && Live(t.ops[i]) && t.ops[i].at != NotStarted
    && TraceOk(t.trace) && !EndsInMint(t.trace) && t.jobs == Admissions(t.trace)
  }

  /** A change to one started operation keeps the invariant if it keeps it for that operation. */
  lemma LocalStep(s: State, t: State, i: nat)
    requires CoreInv(s) && s.owner == Running && i < |s.ops| && s.ops[i].at != NotStarted
    requires Local(s, t, i)
    requires Admits(t, i) ==> Admits(s, i) || (s.HoldsGate(i) && !s.At(s.ops[i].domain).revoked)
    ensures CoreInv(t)
  {
    forall k | 0 <= k < |t.ops| ensures Base(t, k) && Live(t.ops[k]) {
      if k != i {
        assert Base(s, k) && Live(s.ops[k]);
        BaseFrame(s, t, k);
      }
    }
    LocalStepDomain(s, t, i, Alpha);
    LocalStepDomain(s, t, i, Beta);
    forall k: nat | |t.ops| <= k ensures NoEventsOf(t.trace, k) { assert NoEventsOf(s.trace, k); }
  }

  /** No admission behind a revocation: the revocation would still hold the gate, or have committed. */
  lemma LocalBarrier(s: State, t: State, i: nat, order: seq<nat>)
    requires i < |s.ops| && |t.ops| == |s.ops| && t.ops[i].spec == s.ops[i].spec
    requires forall k :: 0 <= k < |s.ops| ==> Base(s, k)
    requires forall k :: 0 <= k < |s.ops| && k != i ==> t.ops[k] == s.ops[k]
    requires Admits(t, i) ==> Admits(s, i) || (s.HoldsGate(i) && !s.At(s.ops[i].domain).revoked)
    requires RevocationBarrier(s, order) && forall k: nat :: k in order ==> TookGate(s, s.ops[i].domain, k)
    ensures RevocationBarrier(t, order)
  {
    forall x, y | 0 <= x < y < |order| && Revokes(t, order[x]) ensures !Admits(t, order[y]) {
      var r, k := order[x], order[y];
      assert r in order && k in order;
      assert Revokes(s, r);
      assert !Admits(s, k);
      assert Base(s, r);
    }
  }

  lemma LocalStepSelf(s: State, t: State, i: nat)
    requires i < |s.ops| && OnlyAbout(s, t, i) && TraceLocal(s.trace, t.trace, i) && GateGrows(s, t, s.ops[i].domain)
    requires DomainOk(s, s.ops[i].domain) && RevocationBarrier(t, HeldOrder(s.trace, s.ops[i].domain))
    requires t.ops[i].at != NotStarted
    ensures DomainOk(t, s.ops[i].domain)
  {
    var d := s.ops[i].domain;
    forall k: nat | k in HeldOrder(s.trace, d) ensures TookGate(t, d, k) { assert TookGate(s, d, k); }
  }

  lemma LocalStepOther(s: State, t: State, i: nat, d: Domain)
    requires i < |s.ops| && OnlyAbout(s, t, i) && TraceLocal(s.trace, t.trace, i) && d != s.ops[i].domain
    requires Commits(t.trace, d) == Commits(s.trace, d) && DomainOk(s, d)
    ensures DomainOk(t, d)
  {
    var held := HeldOrder(s.trace, d);
    forall k: nat | k in held ensures TookGate(t, d, k) && k != i { assert TookGate(s, d, k); }
    forall x, y | 0 <= x < y < |held| && Revokes(t, held[x]) ensures !Admits(t, held[y]) {
      assert held[x] in held && held[y] in held;
      assert Revokes(s, held[x]);
      assert !Admits(s, held[y]);
    }
  }

  lemma LocalStepDomain(s: State, t: State, i: nat, d: Domain)
    requires i < |s.ops| && (forall k :: 0 <= k < |s.ops| ==> Base(s, k)) && DomainOk(s, d)
    requires OnlyAbout(s, t, i) && TraceLocal(s.trace, t.trace, i) && GateGrows(s, t, s.ops[i].domain)
    requires d != s.ops[i].domain ==> Commits(t.trace, d) == Commits(s.trace, d)
    requires t.ops[i].at != NotStarted
    requires Admits(t, i) ==> Admits(s, i) || (s.HoldsGate(i) && !s.At(s.ops[i].domain).revoked)
    ensures DomainOk(t, d)
  {
    if d == s.ops[i].domain {
      LocalBarrier(s, t, i, HeldOrder(s.trace, d));
      LocalStepSelf(s, t, i);
    } else {
      LocalStepOther(s, t, i, d);
    }
  }

  /** What accepting a permit adds to the trace. */
  ghost predicate PermitTrace(t: Trace, u: Trace, i: nat, kind: PermitKind) {
    && TraceLocal(t, u, i)
    && TraceOk(u) && !EndsInMint(u)
    && (forall d :: Commits(u, d) == Commits(t, d))
    && Effects(u, i) == Effects(t, i) + 1
    && AdmittingEffects(u, i) == AdmittingEffects(t, i) + (if IsAdmittingKind(kind) then 1 else 0)
    && AdmissionsOf(u, i) == AdmissionsOf(t, i)
    && Admissions(u) == Admissions(t)
  }

  /** The recheck just before the boundary is the recheck at the boundary: no permit is refused. */
  lemma PermitAccepted(s: State, i: nat, kind: PermitKind)
    requires CoreInv(s) && RunsNow(s, i) && !s.ops[i].transportLost
    requires IsAdmittingKind(kind) ==> AuthorizationFailure(s, i).None?
    ensures MintAndConsume(s, i, kind).1
    ensures PermitTrace(s.trace, MintAndConsume(s, i, kind).0.trace, i, kind)
    ensures IsAdmittingKind(kind) ==>
      && !s.At(s.ops[i].domain).revoked && s.At(s.ops[i].domain).generation == 1
      && Commits(s.trace, s.ops[i].domain) == 0 && s.ops[i].expectedGeneration == Some(1)
      && !s.ops[i].cancelRequested
  {
    assert DomainOk(s, s.ops[i].domain);
    var d := s.ops[i].domain;
    var m := MintedEvent(i, d, s.At(d).generation, kind);
    var c := ConsumedEvent(i, d, s.At(d).generation, kind);
    assert MintAndConsume(s, i, kind).0.trace == Then(Then(s.trace, m), c);
    TraceLocalThen(s.trace, s.trace, m, i);
    TraceLocalThen(s.trace, Then(s.trace, m), c, i);
    assert EventOk(s.trace, m) && EventOk(Then(s.trace, m), c);
  }

  ghost predicate LocalEvent(e: TraceEvent, i: nat) {
    && !e.QueuedEvent? && !e.HeldEvent? && !e.PoisonedEvent? && !e.StoppedEvent?
    && e.op == i
  }

  lemma TraceLocalThen(t: Trace, u: Trace, e: TraceEvent, i: nat)
    requires TraceLocal(t, u, i) && LocalEvent(e, i)
    ensures TraceLocal(t, Then(u, e), i)
    ensures Effects(Then(u, e), i) == Effects(u, i) + if e.ConsumedEvent? then 1 else 0
    ensures AdmittingEffects(Then(u, e), i)
         == AdmittingEffects(u, i) + if e.ConsumedEvent? && IsAdmittingKind(e.kind) then 1 else 0
    ensures AdmissionsOf(Then(u, e), i) == AdmissionsOf(u, i) + if e.ProviderAdmittedEvent? then 1 else 0
    ensures !e.ProviderAdmittedEvent? ==> Admissions(Then(u, e)) == Admissions(u)
    ensures forall d :: Commits(Then(u, e), d) == Commits(u, d) + if e.CommitEvent? && e.domain == d then 1 else 0
  {
  }

  /** The holder's record is replaced and events of its own are appended. */
  function WithHolder(s: State, i: nat, o: Operation, u: Trace, jobs: seq<ProviderJob>): State
    requires i < |s.ops|
  {
    s.(ops := s.ops[i := o], trace := u, jobs := jobs)
  }

  /** What must be checked of the new record of a holder that keeps the gate. */
  ghost predicate HolderOk(s: State, i: nat, o: Operation, u: Trace)
    requires i < |s.ops|
  {
    var p := s.ops[i];
    && o.domain == p.domain && o.spec == p.spec && o.expectedGeneration == p.expectedGeneration
    && OperationOk(o) && Live(o) && o.at != NotStarted && o.phase != Settled
    && Effects(u, i) == (if Effected(o) then 1 else 0)
    && AdmittingEffects(u, i) == (if o.Kind() != Revoke && o.decision == Some(Admitted) then 1 else 0)
    && AdmissionsOf(u, i) == (if o.Kind() == Provider && o.decision == Some(Admitted) then 1 else 0)
    && (o.decision == Some(Admitted) ==>
          && o.Kind() != Revoke && o.expectedGeneration == Some(1)
          && (p.decision == Some(Admitted) || !s.At(p.domain).revoked))
    && (o.Kind() == Revoke ==> o.at == Executing)
  }

  lemma HolderLocal(s: State, i: nat, o: Operation, u: Trace, jobs: seq<ProviderJob>)
    requires i < |s.ops| && s.owner == Running && s.HoldsGate(i) && Base(s, i) && DomainOk(s, s.ops[i].domain)
    requires HolderOk(s, i, o, u)
    requires TraceLocal(s.trace, u, i) && TraceOk(u) && !EndsInMint(u) && jobs == Admissions(u)
    requires forall d :: Commits(u, d) == Commits(s.trace, d)
    ensures Local(s, WithHolder(s, i, o, u, jobs), i)
  {
  }

  lemma HolderStep(s: State, i: nat, o: Operation, u: Trace, jobs: seq<ProviderJob>)
    requires CoreInv(s) && s.owner == Running && i < |s.ops| && s.HoldsGate(i)
    requires HolderOk(s, i, o, u)
    requires TraceLocal(s.trace, u, i) && TraceOk(u) && !EndsInMint(u) && jobs == Admissions(u)
    requires forall d :: Commits(u, d) == Commits(s.trace, d)
    ensures CoreInv(WithHolder(s, i, o, u, jobs)) && OnlyAbout(s, WithHolder(s, i, o, u, jobs), i)
  {
    assert Base(s, i);
    assert DomainOk(s, s.ops[i].domain);
    HolderLocal(s, i, o, u, jobs);
    LocalStep(s, WithHolder(s, i, o, u, jobs), i);
  }

  lemma RunRevokeLocal(s: State, i: nat, u: Trace)
    requires i < |s.ops| && s.owner == Running && s.HoldsGate(i) && s.ops[i].Kind() == Revoke
    requires s.ops[i].at == Executing
    requires Base(s, i) && DomainOk(s, s.ops[i].domain) && s.jobs == Admissions(s.trace) && !HasEnded(s.trace)
    requires PermitTrace(s.trace, u, i, RevokeCommit)
    ensures Local(s, Committed(s, i, u), i)
    ensures Releasing(Committed(s, i, u), i) && OnlyAbout(s, Committed(s, i, u), i)
  {
    TraceLocalThen(s.trace, u, Committed(s, i, u).trace.event, i);
  }

  lemma RunRevokeIs(s: State, i: nat)
    requires Wf(s) && i < |s.ops| && MintAndConsume(s, i, RevokeCommit).1
    ensures RunRevoke(s, i) == (CommitRevocation(MintAndConsume(s, i, RevokeCommit).0, i), true)
    ensures CommitRevocation(MintAndConsume(s, i, RevokeCommit).0, i)
            == Committed(s, i, MintAndConsume(s, i, RevokeCommit).0.trace)
  {
  }

  /** The state after the commit of a permit that the trace u accepted. */
  function Committed(s: State, i: nat, u: Trace): State
    requires i < |s.ops|
  {
    var d := s.ops[i].domain;
    var g := s.At(d);
    s.With(d, g.(generation := g.generation + 1, revoked := true))
     .SetOp(i, Decide(s.ops[i], AdmittedPhase, Admitted, Reason.Committed).(at := Returned))
     .(trace := Then(u, CommitEvent(i, d, g.generation + 1)))
  }

  lemma RunRevokeKeeps(s: State, i: nat)
    requires CoreInv(s) && RunsNow(s, i) && s.ops[i].Kind() == Revoke
    ensures RunRevoke(s, i).1 && CoreInv(RunRevoke(s, i).0)
    ensures Releasing(RunRevoke(s, i).0, i) && OnlyAbout(s, RunRevoke(s, i).0, i)
  {
    assert Base(s, i);
    PermitAccepted(s, i, RevokeCommit);
    RunRevokeIs(s, i);
    var u := MintAndConsume(s, i, RevokeCommit).0.trace;
    RunRevokeLocal(s, i, u);
    LocalStep(s, Committed(s, i, u), i);
  }

  lemma DenyWithoutEffectKeeps(s: State, i: nat, reason: Reason)
    requires CoreInv(s) && RunsNow(s, i) && s.ops[i].Kind() != Revoke
    ensures DenyWithoutEffect(s, i, reason).1 && CoreInv(DenyWithoutEffect(s, i, reason).0)
    ensures Releasing(DenyWithoutEffect(s, i, reason).0, i) && OnlyAbout(s, DenyWithoutEffect(s, i, reason).0, i)
  {
    assert Base(s, i) && Live(s.ops[i]);
    HolderStep(s, i, DenyWithoutEffect(s, i, reason).0.ops[i], s.trace, s.jobs);
  }

  lemma HandOffOk(s: State, i: nat, kind: PermitKind, fault: TransportFault, reason: Reason, u: Trace)
    requires i < |s.ops| && Base(s, i) && Live(s.ops[i]) && s.ops[i].at == Executing && s.ops[i].Kind() == Http
    requires kind == HttpDenial || (kind == HttpRelease && s.ops[i].expectedGeneration == Some(1)
                                    && !s.At(s.ops[i].domain).revoked && !s.ops[i].cancelRequested)
    requires Effects(u, i) == Effects(s.trace, i) + 1 && AdmissionsOf(u, i) == AdmissionsOf(s.trace, i)
    requires AdmittingEffects(u, i) == AdmittingEffects(s.trace, i) + (if IsAdmittingKind(kind) then 1 else 0)
    ensures HolderOk(s, i, HandOff(s.ops[i], kind, fault, reason), u)
  {
  }

  lemma HttpBoundaryIs(s: State, i: nat, kind: PermitKind, fault: TransportFault, reason: Reason)
    requires Wf(s) && i < |s.ops| && MintAndConsume(s, i, kind).1
    ensures var u := Then(MintAndConsume(s, i, kind).0.trace, HandoffEvent(i, s.ops[i].domain));
            HttpBoundary(s, i, kind, fault, reason)
            == (WithHolder(s, i, HandOff(s.ops[i], kind, fault, reason), u, s.jobs), false)
  {
  }

  lemma HttpBoundaryKeeps(s: State, i: nat, kind: PermitKind, fault: TransportFault, reason: Reason)
    requires CoreInv(s) && RunsNow(s, i) && s.ops[i].Kind() == Http && !s.ops[i].transportLost
    requires kind == HttpDenial || (kind == HttpRelease && AuthorizationFailure(s, i).None?)
    ensures !HttpBoundary(s, i, kind, fault, reason).1 && CoreInv(HttpBoundary(s, i, kind, fault, reason).0)
    ensures Waits(HttpBoundary(s, i, kind, fault, reason).0, i)
    ensures OnlyAbout(s, HttpBoundary(s, i, kind, fault, reason).0, i)
  {
    assert Base(s, i) && Live(s.ops[i]);
    PermitAccepted(s, i, kind);
    var u := MintAndConsume(s, i, kind).0.trace;
    var e := HandoffEvent(i, s.ops[i].domain);
    TraceLocalThen(s.trace, u, e, i);
    HandOffOk(s, i, kind, fault, reason, Then(u, e));
    HttpBoundaryIs(s, i, kind, fault, reason);
    HolderStep(s, i, HandOff(s.ops[i], kind, fault, reason), Then(u, e), s.jobs);
  }

  lemma DenyHeldKeeps(s: State, i: nat, reason: Reason)
    requires CoreInv(s) && RunsNow(s, i) && s.ops[i].Kind() != Revoke
    ensures CoreInv(DenyHeld(s, i, reason).0) && OnlyAbout(s, DenyHeld(s, i, reason).0, i)
    ensures Outcome(DenyHeld(s, i, reason).0, i, DenyHeld(s, i, reason).1)
  {
    if s.ops[i].Kind() != Http || !s.ops[i].hasResponse || s.ops[i].transportLost {
      DenyWithoutEffectKeeps(s, i, reason);
    } else {
      HttpBoundaryKeeps(s, i, HttpDenial, NoFault, reason);
    }
  }

  lemma ResolveKeeps(s: State, i: nat)
    requires CoreInv(s) && RunsNow(s, i) && s.ops[i].Kind() != Revoke && AuthorizationFailure(s, i).None?
    ensures !Execute(s, i).1 && CoreInv(Execute(s, i).0)
    ensures Waits(Execute(s, i).0, i) && OnlyAbout(s, Execute(s, i).0, i)
  {
    assert Base(s, i) && Live(s.ops[i]);
    HolderStep(s, i, Execute(s, i).0.ops[i], s.trace, s.jobs);
  }

  lemma ExecuteKeeps(s: State, i: nat)
    requires CoreInv(s) && RunsNow(s, i)
    ensures CoreInv(Execute(s, i).0) && OnlyAbout(s, Execute(s, i).0, i)
    ensures Outcome(Execute(s, i).0, i, Execute(s, i).1)
  {
    if s.ops[i].spec.RevokeCase? {
      RunRevokeKeeps(s, i);
    } else {
      match AuthorizationFailure(s, i)
      case Some(reason) => DenyHeldKeeps(s, i, reason);
      case None => ResolveKeeps(s, i);
    }
  }

  lemma AdmitOk(s: State, i: nat, u: Trace)
    requires i < |s.ops| && Base(s, i) && Live(s.ops[i]) && s.ops[i].at == Executing && s.ops[i].Kind() == Provider
    requires s.ops[i].expectedGeneration == Some(1) && !s.At(s.ops[i].domain).revoked && !s.ops[i].cancelRequested
    requires Effects(u, i) == Effects(s.trace, i) + 1 && AdmissionsOf(u, i) == AdmissionsOf(s.trace, i) + 1
    requires AdmittingEffects(u, i) == AdmittingEffects(s.trace, i) + 1
    ensures HolderOk(s, i, Decide(s.ops[i], AdmittedPhase, Admitted, Started).(at := Returned), u)
  {
  }

  lemma AdmitProviderIs(s: State, i: nat)
    requires Wf(s) && i < |s.ops| && MintAndConsume(s, i, ProviderStart).1
    ensures var d := s.ops[i].domain;
            var generation := s.At(d).generation;
            AdmitProvider(s, i) == (
              WithHolder(s, i, Decide(s.ops[i], AdmittedPhase, Admitted, Started).(at := Returned),
                         Then(MintAndConsume(s, i, ProviderStart).0.trace, ProviderAdmittedEvent(i, d, generation)),
                         s.jobs + [ProviderJob(i, d, generation)]),
              true)
  {
  }

  lemma AdmitProviderKeeps(s: State, i: nat)
    requires CoreInv(s) && RunsNow(s, i) && s.ops[i].Kind() == Provider && AuthorizationFailure(s, i).None?
    ensures AdmitProvider(s, i).1 && CoreInv(AdmitProvider(s, i).0)
    ensures Releasing(AdmitProvider(s, i).0, i) && OnlyAbout(s, AdmitProvider(s, i).0, i)
  {
    assert Base(s, i) && Live(s.ops[i]);
    PermitAccepted(s, i, ProviderStart);
    AdmitProviderIs(s, i);
    var t := AdmitProvider(s, i).0;
    TraceLocalThen(s.trace, MintAndConsume(s, i, ProviderStart).0.trace, t.trace.event, i);
    AdmitOk(s, i, t.trace);
    HolderStep(s, i, t.ops[i], t.trace, t.jobs);
  }

  lemma CrossBoundaryKeeps(s: State, i: nat)
    requires CoreInv(s) && RunsNow(s, i) && s.ops[i].Kind() != Revoke
    ensures CoreInv(CrossBoundary(s, i).0) && OnlyAbout(s, CrossBoundary(s, i).0, i)
    ensures Outcome(CrossBoundary(s, i).0, i, CrossBoundary(s, i).1)
  {
    var o := s.ops[i];
    match AuthorizationFailure(s, i)
    case Some(reason) => DenyHeldKeeps(s, i, reason);
    case None =>
      if o.spec.store != Allow {
        DenyHeldKeeps(s, i, if o.spec.store == Deny then StoreDenied else StoreFailed);
      } else if o.spec.HttpCase? {
        HttpBoundaryKeeps(s, i, HttpRelease, o.spec.fault, Released);
      } else {
        AdmitProviderKeeps(s, i);
      }
  }

  // ---- the gate ---------------------------------------------------------------------------------

  lemma FreeSelf(s: State, i: nat)
    requires Wf(s) && i < |s.ops| && Base(s, i) && Live(s.ops[i]) && s.HoldsGate(i) && s.ops[i].at == Returned
    ensures Base(Free(s, i), i) && Live(Free(s, i).ops[i])
  {
  }

  lemma FreeOther(s: State, i: nat, k: nat)
    requires Wf(s) && i < |s.ops| && k < |s.ops| && k != i && s.HoldsGate(i)
    ensures SameFor(s, Free(s, i), k) && Free(s, i).ops[k] == s.ops[k]
  {
  }

  lemma FreeBase(s: State, i: nat, k: nat)
    requires CoreInv(s) && Releasing(s, i) && k < |s.ops|
    ensures Base(Free(s, i), k) && Live(Free(s, i).ops[k])
  {
    assert Base(s, k) && Live(s.ops[k]);
    if k == i {
      FreeSelf(s, i);
    } else {
      FreeOther(s, i, k);
      BaseFrame(s, Free(s, i), k);
    }
  }

  lemma FreeSameOrder(s: State, i: nat, d: Domain)
    requires Wf(s) && i < |s.ops|
    ensures SameOrder(s, Free(s, i), d)
  {
  }

  lemma FreeDomain(s: State, i: nat, d: Domain)
    requires CoreInv(s) && Releasing(s, i)
    ensures DomainOk(Free(s, i), d)
  {
    assert DomainOk(s, d);
    FreeSameOrder(s, i, d);
    DomainFrame(s, Free(s, i), d);
  }

  lemma FreeKeeps(s: State, i: nat)
    requires CoreInv(s) && Releasing(s, i)
    ensures CoreInv(Free(s, i))
  {
    forall k | 0 <= k < |s.ops| ensures Base(Free(s, i), k) && Live(Free(s, i).ops[k]) {
      FreeBase(s, i, k);
    }
    FreeDomain(s, i, Alpha);
    FreeDomain(s, i, Beta);
    NoneBeyondThen(s.trace, Free(s, i).trace.event, |s.ops|);
  }

  lemma QuietElsewhere(s: State, t: State, i: nat, d: Domain)
    requires CoreInv(s) && s.owner == Running
    requires forall e :: e != d ==> Quiet(s, e) && t.At(e) == s.At(e)
    requires i < |s.ops| && s.ops[i].domain == d && |t.ops| == |s.ops| && t.owner == s.owner
    requires forall k :: 0 <= k < |s.ops| && k != i ==> t.ops[k] == s.ops[k]
    ensures forall e :: e != d ==> Quiet(t, e)
  {
    forall e | e != d ensures Quiet(t, e) {
      assert DomainOk(s, e);
    }
  }

  /** One turn of the pump: the head takes the gate and runs up to its first await or its end. */
  lemma TurnKeeps(s: State, d: Domain)
    requires CoreInv(s) && s.owner == Running && s.At(d).active.None? && s.At(d).queue != []
    requires forall e :: e != d ==> Quiet(s, e)
    ensures var i := s.At(d).queue[0];
      var (t, releases) := Execute(Take(s, d), i);
      && CoreInv(t) && Outcome(t, i, releases) && t.ops[i].domain == d
      && (forall e :: e != d ==> Quiet(t, e))
  {
    var i := s.At(d).queue[0];
    TakeKeeps(s, d);
    ExecuteKeeps(Take(s, d), i);
    TakeHead(s, d);
    QuietElsewhere(s, Execute(Take(s, d), i).0, i, d);
  }

  lemma FreeTurnKeeps(s: State, i: nat)
    requires CoreInv(s) && Releasing(s, i) && forall e :: e != s.ops[i].domain ==> Quiet(s, e)
    ensures var t := Free(s, i);
      CoreInv(t) && t.At(s.ops[i].domain).active.None? && forall e :: e != s.ops[i].domain ==> Quiet(t, e)
  {
    FreeKeeps(s, i);
    QuietElsewhere(s, Free(s, i), i, s.ops[i].domain);
  }

  lemma {:induction false} PumpKeeps(s: State, d: Domain)
    requires CoreInv(s) && s.owner == Running && s.At(d).active.None?
    requires forall e :: e != d ==> Quiet(s, e)
    ensures Inv(Pump(s, d)) && Pump(s, d).owner == Running
    decreases |s.At(d).queue|
  {
    if s.At(d).queue != [] {
      TurnKeeps(s, d);
      var i := s.At(d).queue[0];
      var (t, releases) := Execute(Take(s, d), i);
      if releases {
        FreeTurnKeeps(t, i);
        PumpKeeps(Free(t, i), d);
      }
    }
  }

  lemma ReleaseKeeps(s: State, i: nat)
    requires CoreInv(s) && Releasing(s, i) && forall e :: e != s.ops[i].domain ==> Quiet(s, e)
    ensures Inv(Release(s, i)) && Release(s, i).owner == Running
  {
    FreeTurnKeeps(s, i);
    PumpKeeps(Free(s, i), s.ops[i].domain);
  }
}
