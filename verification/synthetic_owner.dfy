/**
 * The owner as the object it is: operations, gates and the permit authority are mutable records,
 * and every private method is proved to do to them what the step relation says.
 */
module SyntheticOwners {
  import opened Prelude
  import opened Permits
  import opened OwnerModel
  import Invariant = OwnerInvariant
  import Theorems = OwnerTheorems

  class OperationRecord {
    const id: nat
    const domain: Domain
    const spec: Case
    var expectedGeneration: Option<nat>
    var phase: Phase
    var decision: Option<Decision>
    var reason: Option<Reason>
    var cancelRequested: bool
    var transportLost: bool
    var hasResponse: bool
    var handoffAttempted: bool
    var finishObserved: bool
    var terminalFailure: bool
    var done: bool
    var queuedAnswer: Option<bool>
    var completion: Option<Completion>
    var at: Point

    function View(): Operation
      reads this
    {
      Operation(domain, spec, expectedGeneration, phase, decision, reason, cancelRequested, transportLost,
                hasResponse, handoffAttempted, finishObserved, terminalFailure, done, queuedAnswer, completion, at)
    }

    constructor (id: nat, domain: Domain, spec: Case)
      ensures this.id == id && View() == NewOperation(domain, spec)
    {
      this.id, this.domain, this.spec := id, domain, spec;
      expectedGeneration, phase, decision, reason := None, Queued, None, None;
      cancelRequested, transportLost, hasResponse := false, false, false;
      handoffAttempted, finishObserved, terminalFailure := false, false, false;
      done, queuedAnswer, completion, at := false, None, None, NotStarted;
    }

    method Decide(phase: Phase, decision: Decision, reason: Reason)
      modifies this
      ensures View() == OwnerModel.Decide(old(View()), phase, decision, reason)
    {
      this.phase, this.decision, this.reason := phase, Some(decision), Some(reason);
    }

    method Admit(reason: Reason)
      modifies this
      ensures View() == OwnerModel.Decide(old(View()), AdmittedPhase, Admitted, reason).(at := Returned)
    {
      Decide(AdmittedPhase, Admitted, reason);
      at := Returned;
    }

    method Deny(reason: Reason)
      modifies this
      ensures View() == OwnerModel.Decide(old(View()), DeniedPhase, Denied, reason).(
        at := Returned, completion := Some(old(completion).GetOr(NeverStarted)))
    {
      Decide(DeniedPhase, Denied, reason);
      completion := Some(completion.GetOr(NeverStarted));
      at := Returned;
    }

    method Settle()
      modifies this
      ensures View() == old(View()).(phase := Settled, done := true)
    {
      phase := Settled;
      done := true;
    }

    method Hold()
      modifies this
      ensures View() == old(View()).(phase := Held, at := Executing)
    {
      phase := Held;
      at := Executing;
    }

    /** The store resolution runs up to its barrier or its end. */
    method Resolve()
      requires !spec.RevokeCase?
      modifies this
      ensures View() == old(View()).(phase := Resolving, at := if spec.storeGated then AtStoreBarrier else AfterStore)
    {
      phase := Resolving;
      at := if spec.storeGated then AtStoreBarrier else AfterStore;
    }

    /** The one hand-off, which may throw after the response left. */
    method HandOff(kind: PermitKind, fault: TransportFault, reason: Reason)
      modifies this
      ensures View() == OwnerModel.HandOff(old(View()), kind, fault, reason)
    {
      if kind == HttpRelease { Decide(AdmittedPhase, Admitted, reason); } else { Decide(DeniedPhase, Denied, reason); }
      handoffAttempted := true;
      at := AtHttp(None);
      if fault == EndThrowsAfterEnd {
        terminalFailure := true;
        at := AtHttp(Some(TerminalResult));
      }
    }

    method Queue(generation: nat)
      modifies this
      ensures View() == old(View()).(expectedGeneration := Some(generation), phase := Queued,
                                     queuedAnswer := Some(old(queuedAnswer).GetOr(true)))
    {
      expectedGeneration := Some(generation);
      phase := Queued;
      queuedAnswer := Some(queuedAnswer.GetOr(true));
    }

    method Complete(stopped: bool)
      requires spec.ProviderCase?
      modifies this
      ensures View() == old(View()).(at := Returned, completion := Some(old(completion).GetOr(
        if stopped then Ignored else if spec.succeeds then CompletedOk else CompletedError)))
    {
      var outcome := if stopped then Ignored else if spec.succeeds then CompletedOk else CompletedError;
      completion := Some(completion.GetOr(outcome));
      at := Returned;
    }

    method Invalidate(reason: Reason)
      modifies this
      ensures View() == InvalidatedOp(old(View()), reason)
    {
      if done { return; }
      if decision == None {
        decision := Some(Invalidated);
        this.reason := Some(reason);
      }
      queuedAnswer := Some(queuedAnswer.GetOr(false));
      if decision != Some(Admitted) { completion := Some(completion.GetOr(NeverStarted)); }
      done := true;
    }
  }

  class DomainGate {
    var generation: nat
    var revoked: bool
    var queue: seq<OperationRecord>
    var active: OperationRecord?

    function View(): Gate
      reads this
    {
      Gate(generation, revoked, Ids(queue), if active == null then None else Some(active.id))
    }

    constructor ()
      ensures View() == FreshGate && queue == [] && active == null
    {
      generation, revoked, queue, active := 1, false, [], null;
    }

    method Commit()
      modifies this
      ensures View() == old(View()).(generation := old(generation) + 1, revoked := true)
      ensures queue == old(queue) && active == old(active)
    {
      generation := generation + 1;
      revoked := true;
    }

    method Leave()
      modifies this
      ensures View() == old(View()).(active := None)
      ensures queue == old(queue) && active == null
    {
      active := null;
    }

    method Shift()
      requires queue != []
      modifies this
      ensures View() == old(View()).(queue := old(View()).queue[1..], active := Some(old(queue[0]).id))
      ensures queue == old(queue[1..]) && active == old(queue[0]) && generation == old(generation)
    {
      active := queue[0];
      queue := queue[1..];
      assert Ids(queue) == Ids(old(queue))[1..];
    }

    method Push(op: OperationRecord)
      modifies this
      ensures View() == old(View()).(queue := old(View()).queue + [op.id])
      ensures queue == old(queue) + [op] && active == old(active) && generation == old(generation)
    {
      queue := queue + [op];
      assert Ids(queue) == Ids(old(queue)) + [op.id];
    }
  }

  function Ids(list: seq<OperationRecord>): (r: seq<nat>)
    ensures |r| == |list| && forall k :: 0 <= k < |list| ==> r[k] == list[k].id
  {
    seq(|list|, k requires 0 <= k < |list| => list[k].id)
  }

  function Views(list: seq<OperationRecord>): (r: seq<Operation>)
    reads list
    ensures |r| == |list| && forall k :: 0 <= k < |list| ==> r[k] == list[k].View()
  {
    seq(|list|, k requires 0 <= k < |list| reads list => list[k].View())
  }

  lemma ViewsSnoc(list: seq<OperationRecord>, op: OperationRecord)
    ensures Views(list + [op]) == Views(list) + [op.View()]
  {
  }

  lemma WfGrows(s: State, o: Operation)
    requires Wf(s)
    ensures Wf(s.(ops := s.ops + [o]))
  {
  }

  lemma InvalidatedAll(s: State, ops: seq<Operation>, reason: Reason)
    requires |ops| == |s.ops|
    requires forall k :: 0 <= k < |ops| ==>
      ops[k] == if Stored(s, k) then InvalidatedOp(s.ops[k], reason) else s.ops[k]
    ensures InvalidateAll(s, reason) == s.(ops := ops)
  {
    assert InvalidateAll(s, reason).ops == ops;
  }

  /** A pump that finds the gate free and somebody waiting runs the head, which may release. */
  lemma PumpTurn(s: State, d: Domain)
    requires Wf(s) && s.owner == Running && s.At(d).active.None? && s.At(d).queue != []
    requires s.At(d).queue[0] in s.At(d).queue && s.ops[s.At(d).queue[0]].domain == d
    ensures var i := s.At(d).queue[0];
      Pump(s, d) == ReleaseIf(Execute(Take(s, d), i), i)
  {
  }

  function CommittedOp(s: State, i: nat, generation: nat): State
    requires i < |s.ops|
  {
    s.SetOp(i, Decide(s.ops[i], AdmittedPhase, Admitted, Committed).(at := Returned))
     .Emit(CommitEvent(i, s.ops[i].domain, generation))
  }

  function CommittedGate(s: State, d: Domain): (t: State)
    ensures t.ops == s.ops
  {
    s.With(d, s.At(d).(generation := s.At(d).generation + 1, revoked := true))
  }

  lemma CommitParts(s: State, i: nat)
    requires Wf(s) && i < |s.ops|
    ensures var d := s.ops[i].domain;
            var generation := s.At(d).generation + 1;
            CommitRevocation(s, i)
            == CommittedOp(CommittedGate(s, d), i, generation)
  {
  }

  /** The cases of a holder that starts to run. */
  lemma ExecuteCases(s: State, i: nat)
    requires Wf(s) && i < |s.ops|
    ensures s.ops[i].spec.RevokeCase? ==> Execute(s, i) == RunRevoke(s, i)
    ensures !s.ops[i].spec.RevokeCase? && AuthorizationFailure(s, i).Some? ==>
              Execute(s, i) == DenyHeld(s, i, AuthorizationFailure(s, i).value)
    ensures !s.ops[i].spec.RevokeCase? && AuthorizationFailure(s, i).None? ==>
              Execute(s, i) == (ResolveHeld(s, i), false)
  {
  }

  function ResolveHeld(s: State, i: nat): State
    requires i < |s.ops| && !s.ops[i].spec.RevokeCase?
  {
    s.SetOp(i, s.ops[i].(phase := Resolving, at := if s.ops[i].spec.storeGated then AtStoreBarrier else AfterStore))
  }

  /** A late refusal at the boundary does not go on to a completion. */
  lemma LateDenial(s: State, i: nat)
    requires Wf(s) && i < |s.ops| && !s.ops[i].spec.RevokeCase? && AuthorizationFailure(s, i).Some?
    ensures AfterBoundary(CrossBoundary(s, i), i) == ReleaseIf(DenyHeld(s, i, AuthorizationFailure(s, i).value), i)
  {
  }

  /** The cases of an authorised holder that crosses the boundary. */
  lemma CrossBoundaryCases(s: State, i: nat)
    requires Wf(s) && i < |s.ops| && !s.ops[i].spec.RevokeCase? && AuthorizationFailure(s, i).None?
    ensures s.ops[i].spec.store != Allow ==>
              AfterBoundary(CrossBoundary(s, i), i)
              == ReleaseIf(DenyHeld(s, i, if s.ops[i].spec.store == Deny then StoreDenied else StoreFailed), i)
    ensures s.ops[i].spec.store == Allow && s.ops[i].spec.HttpCase? ==>
              AfterBoundary(CrossBoundary(s, i), i) == HttpBoundary(s, i, HttpRelease, s.ops[i].spec.fault, Released).0
    ensures s.ops[i].spec.store == Allow && s.ops[i].spec.ProviderCase? ==>
              AfterBoundary(CrossBoundary(s, i), i) == AfterBoundary(AdmitProvider(s, i), i)
  {
  }

  lemma ServerCloseCases(s: State, i: nat)
    requires Wf(s) && i < |s.ops|
    ensures s.ops[i].finishObserved || s.ops[i].transportLost ==> OnServerClose(s, i) == s
    ensures !(s.ops[i].finishObserved || s.ops[i].transportLost) ==>
              OnServerClose(s, i) == LostOp(s, i, s.owner == Running && s.HoldsGate(i))
  {
  }

  function LostOp(s: State, i: nat, poisons: bool): State
    requires i < |s.ops|
  {
    var s1 := s.SetOp(i, s.ops[i].(transportLost := true));
    if poisons then Poison(s1, TransportLost) else s1
  }

  class SyntheticOwner {
    var state: OwnerState
    const alpha: DomainGate
    const beta: DomainGate
    var ops: seq<OperationRecord>
    var pending: seq<OperationRecord>
    var jobs: seq<ProviderJob>
    const permits: PermitAuthority
    var trace: Trace

    function GateOf(d: Domain): DomainGate {
      match d case Alpha => alpha case Beta => beta
    }

    function View(): State
      reads this, alpha, beta, ops
    {
      State(state, alpha.View(), beta.View(), Views(ops), Ids(pending), jobs, trace)
    }

    /** The record is one of the owner's operations. */
    ghost predicate Knows(op: OperationRecord)
      reads this
    {
      op.id < |ops| && ops[op.id] == op
    }

    ghost predicate GateValid(g: DomainGate, d: Domain)
      reads this, g
    {
      && (forall q :: q in g.queue ==> Knows(q) && q.domain == d)
      && (g.active != null ==> Knows(g.active) && g.active.domain == d)
    }

    ghost predicate Valid()
      reads this, alpha, beta, ops
      ensures Valid() ==> Wf(View())
    {
      && alpha != beta
      && (forall k :: 0 <= k < |ops| ==> ops[k].id == k)
      && GateValid(alpha, Alpha) && GateValid(beta, Beta)
      && (forall q :: q in pending ==> Knows(q))
      && Wf(View())
    }

    constructor ()
      ensures Valid() && View() == Init && fresh(alpha) && fresh(beta) && fresh(permits)
    {
      state, ops, pending, jobs, trace := Running, [], [], [], Start;
      alpha := new DomainGate();
      beta := new DomainGate();
      permits := new PermitAuthority();
    }

    lemma ValidIsWf()
      requires Valid()
      ensures Wf(View())
    {
      IdsKnown(alpha.queue);
      IdsKnown(beta.queue);
      IdsKnown(pending);
    }

    lemma IdsKnown(list: seq<OperationRecord>)
      requires forall q :: q in list ==> Knows(q)
      ensures forall i :: i in Ids(list) ==> 0 <= i < |ops| && ops[i] in list
      ensures forall k :: 0 <= k < |ops| && ops[k].id == k ==> (k in Ids(list) <==> ops[k] in list)
    {
      forall i | i in Ids(list) ensures 0 <= i < |ops| && ops[i] in list {
        var k :| 0 <= k < |list| && Ids(list)[k] == i;
        assert list[k] in list;
      }
      forall k | 0 <= k < |ops| && ops[k].id == k && ops[k] in list ensures k in Ids(list) {
        var j :| 0 <= j < |list| && list[j] == ops[k];
        assert Ids(list)[j] == k;
      }
    }

    // ---- frames -------------------------------------------------------------------------------

    /** No record but this one changed, and no record was added. */
    twostate predicate OnlyRecord(op: OperationRecord)
      reads this, ops
    {
      ops == old(ops) && forall o :: o in old(ops) && o != op ==> unchanged(o)
    }

    twostate lemma RecordViews(op: OperationRecord)
      requires old(Valid()) && old(Knows(op)) && OnlyRecord(op)
      ensures Views(ops) == old(Views(ops))[op.id := op.View()]
    {
      var s := old(Views(ops))[op.id := op.View()];
      forall k | 0 <= k < |ops| ensures Views(ops)[k] == s[k] {
        assert ops[k] in old(ops);
      }
    }

    /** The same, told of the whole owner. */
    twostate lemma RecordChanged(op: OperationRecord)
      requires old(Valid()) && old(Knows(op)) && OnlyRecord(op)
      requires unchanged(alpha) && unchanged(beta) && pending == old(pending) && state == old(state)
      ensures Valid() && View() == old(View()).SetOp(op.id, op.View()).(jobs := jobs, trace := trace)
    {
      RecordViews(op);
    }

    /** Only the gate of this domain changed. */
    twostate lemma GateChanged(d: Domain)
      requires old(Valid()) && unchanged(this) && (forall o :: o in ops ==> unchanged(o))
      requires forall e :: e != d ==> unchanged(GateOf(e))
      requires GateValid(GateOf(d), d)
      ensures Valid() && View() == old(View()).With(d, GateOf(d).View())
    {
      IdsKnown(GateOf(d).queue);
      var other := if d == Alpha then Beta else Alpha;
      assert unchanged(GateOf(other));
      forall k | 0 <= k < |ops| ensures Views(ops)[k] == old(Views(ops))[k] {
        assert ops[k] in ops;
      }
    }

    /** Only the pending requests changed. */
    twostate lemma PendingChanged()
      requires old(Valid()) && ops == old(ops) && state == old(state) && jobs == old(jobs) && trace == old(trace)
      requires unchanged(alpha) && unchanged(beta) && (forall o :: o in ops ==> unchanged(o))
      requires forall q :: q in pending ==> Knows(q)
      ensures Valid() && View() == old(View()).(pending := Ids(pending))
    {
      IdsKnown(pending);
      forall k | 0 <= k < |ops| ensures Views(ops)[k] == old(Views(ops))[k] {
        assert ops[k] in ops;
      }
    }

    method Emit(e: TraceEvent)
      requires Valid()
      modifies this`trace
      ensures Valid() && View() == old(View()).Emit(e)
    {
      trace := Then(trace, e);
    }

    // ---- poison and invalidation --------------------------------------------------------------

    method InvalidateEach(list: seq<OperationRecord>, reason: Reason)
      requires Valid() && forall q :: q in list ==> Knows(q)
      modifies ops
      ensures Valid()
      ensures forall k :: 0 <= k < |ops| ==>
        ops[k].View() == if ops[k] in list then InvalidatedOp(old(ops[k].View()), reason) else old(ops[k].View())
    {
      for j := 0 to |list|
        invariant forall k :: 0 <= k < |ops| ==>
          ops[k].View() == if ops[k] in list[..j] then InvalidatedOp(old(ops[k].View()), reason) else old(ops[k].View())
      {
        label before:
        assert list[j] in list;
        list[j].Invalidate(reason);
        forall k | 0 <= k < |ops|
          ensures ops[k].View() ==
            if ops[k] in list[..j + 1] then InvalidatedOp(old(ops[k].View()), reason) else old(ops[k].View())
        {
          assert list[..j + 1] == list[..j] + [list[j]];
          if ops[k] != list[j] { assert unchanged@before(ops[k]); }
        }
      }
      assert list[..|list|] == list;
    }

    function Holder(g: DomainGate): seq<OperationRecord>
      reads g
    {
      if g.active == null then [] else [g.active]
    }

    lemma HeldAndQueued(g: DomainGate, k: nat)
      requires (g == alpha || g == beta) && Valid() && k < |ops|
      ensures ops[k] in g.queue <==> k in g.View().queue
      ensures ops[k] in Holder(g) <==> g.View().active == Some(k)
    {
      IdsKnown(g.queue);
    }

    lemma PendingIds(k: nat)
      requires Valid() && k < |ops|
      ensures ops[k] in pending <==> k in View().pending
    {
      IdsKnown(pending);
    }

    /** Per domain the queue, then the holder; finally the requests the server has not seen. */
    method InvalidateAll(reason: Reason)
      requires Valid()
      modifies ops
      ensures Valid() && View() == OwnerModel.InvalidateAll(old(View()), reason)
    {
      var all := alpha.queue + Holder(alpha) + beta.queue + Holder(beta) + pending;
      forall k | 0 <= k < |ops| ensures ops[k] in all <==> Stored(View(), k) {
        HeldAndQueued(alpha, k);
        HeldAndQueued(beta, k);
        PendingIds(k);
      }
      ghost var s := View();
      InvalidateEach(all, reason);
      InvalidatedAll(s, Views(ops), reason);
    }

    method Poison(cause: PoisonCause)
      requires Valid()
      modifies this`state, this`trace, ops
      ensures Valid() && View() == OwnerModel.Poison(old(View()), cause)
    {
      if state != Running { return; }
      state := Poisoned;
      Emit(PoisonedEvent(cause));
      assert View() == old(View()).(owner := Poisoned).Emit(PoisonedEvent(cause));
      InvalidateAll(OwnerPoisoned);
    }

    method Stop()
      requires Valid()
      modifies this`state, this`trace, ops
      ensures Valid() && View() == StepStop(old(View()))
    {
      ValidIsWf();
      if state == Stopped { return; }
      state := Stopped;
      Emit(StoppedEvent);
      assert View() == old(View()).(owner := Stopped).Emit(StoppedEvent);
      InvalidateAll(OwnerStopped);
    }

    // ---- permits ------------------------------------------------------------------------------

    method Mint(op: OperationRecord, kind: PermitKind) returns (permit: Permit)
      requires Valid() && Knows(op)
      modifies this`trace, permits
      ensures Valid()
      ensures var g := GateOf(op.domain).generation;
        && View() == old(View()).Emit(MintedEvent(op.id, op.domain, g, kind))
        && permit in permits.records
        && permits.records[permit] == Record(Binding(op.domain, g, op.id, kind), false)
    {
      var generation := GateOf(op.domain).generation;
      Emit(MintedEvent(op.id, op.domain, generation, kind));
      permit := MintPermit(Binding(op.domain, generation, op.id, kind));
    }

    method MintPermit(binding: Binding) returns (permit: Permit)
      requires Valid()
      modifies permits
      ensures Valid() && View() == old(View())
      ensures permit in permits.records && permits.records[permit] == Record(binding, false)
    {
      permit := permits.Mint(binding);
    }

    /** Consume at the effect boundary, rechecking owner state, gate holder, cancellation and authorization. */
    method Consume(op: OperationRecord, permit: Permit, kind: PermitKind) returns (accepted: bool)
      requires Valid() && Knows(op)
      modifies this`trace, permits
      ensures Valid()
      ensures var g := GateOf(op.domain).generation;
        && accepted == (Judge(Lookup(old(permits.records), permit), Binding(op.domain, g, op.id, kind)) == Accepted
                        && BoundaryHolds(old(View()), op.id, kind))
        && View() == old(View()).Emit(
             if accepted then ConsumedEvent(op.id, op.domain, g, kind) else RejectedEvent(op.id, op.domain, g, kind))
    {
      var gate := GateOf(op.domain);
      var verdict := permits.Consume(permit, Binding(op.domain, gate.generation, op.id, kind));
      assert View() == old(View());
      var holds := Recheck(op, kind);
      accepted := verdict == Accepted && holds;
      if accepted {
        Emit(ConsumedEvent(op.id, op.domain, gate.generation, kind));
      } else {
        Emit(RejectedEvent(op.id, op.domain, gate.generation, kind));
      }
    }

    /** Owner state, gate holder, transport, cancellation and authorization, in the source's order. */
    method Recheck(op: OperationRecord, kind: PermitKind) returns (holds: bool)
      requires Valid() && Knows(op)
      ensures holds == BoundaryHolds(View(), op.id, kind)
    {
      var gate := GateOf(op.domain);
      assert View().ops[op.id] == op.View();
      if state != Running { return false; }
      if gate.active != op { return false; }
      if op.transportLost { return false; }
      if kind == HttpRelease || kind == ProviderStart {
        if op.cancelRequested || gate.revoked || Some(gate.generation) != op.expectedGeneration { return false; }
      }
      return true;
    }

    method AuthorizationFailure(op: OperationRecord) returns (failure: Option<Reason>)
      requires Valid() && Knows(op)
      ensures failure == OwnerModel.AuthorizationFailure(View(), op.id)
    {
      var gate := GateOf(op.domain);
      assert View().ops[op.id] == op.View();
      if op.cancelRequested { return Some(Cancelled); }
      if op.transportLost { return Some(LostWhileQueued); }
      if gate.revoked || Some(gate.generation) != op.expectedGeneration { return Some(RevokedOrStale); }
      return None;
    }

    /** Mint and consume in the same synchronous step, as the owner always does. */
    method MintAndConsume(op: OperationRecord, kind: PermitKind) returns (accepted: bool)
      requires Valid() && Knows(op)
      modifies this`trace, permits
      ensures Valid()
      ensures (View(), accepted) == OwnerModel.MintAndConsume(old(View()), op.id, kind)
    {
      var permit := Mint(op, kind);
      assert View().ops[op.id] == op.View();
      accepted := Consume(op, permit, kind);
    }

    // ---- small changes to the holder and its gate ---------------------------------------------

    /** The coroutine of this operation moves on. */
    method MoveTo(op: OperationRecord, at: Point)
      requires Valid() && Knows(op)
      modifies op`at
      ensures Valid() && View() == old(View()).SetOp(op.id, old(View()).ops[op.id].(at := at))
    {
      assert View().ops[op.id] == op.View();
      op.at := at;
      RecordChanged(op);
    }

    method AdmitRecord(op: OperationRecord, reason: Reason)
      requires Valid() && Knows(op)
      modifies op
      ensures Valid()
      ensures View() == old(View()).SetOp(op.id,
        OwnerModel.Decide(old(View()).ops[op.id], AdmittedPhase, Admitted, reason).(at := Returned))
    {
      assert View().ops[op.id] == op.View();
      op.Admit(reason);
      RecordChanged(op);
    }

    method SettleRecord(op: OperationRecord)
      requires Valid() && Knows(op)
      modifies op
      ensures Valid() && View() == old(View()).SetOp(op.id, old(View()).ops[op.id].(phase := Settled, done := true))
    {
      assert View().ops[op.id] == op.View();
      op.Settle();
      RecordChanged(op);
    }

    method HoldRecord(op: OperationRecord)
      requires Valid() && Knows(op)
      modifies op
      ensures Valid() && View() == old(View()).SetOp(op.id, old(View()).ops[op.id].(phase := Held, at := Executing))
    {
      assert View().ops[op.id] == op.View();
      op.Hold();
      RecordChanged(op);
    }

    method CommitGate(d: Domain) returns (generation: nat)
      requires Valid()
      modifies alpha, beta
      ensures Valid()
      ensures View() == CommittedGate(old(View()), d) && generation == old(View()).At(d).generation + 1
    {
      GateOf(d).Commit();
      GateChanged(d);
      generation := GateOf(d).generation;
    }

    method LeaveGate(d: Domain)
      requires Valid()
      modifies alpha, beta
      ensures Valid()
      ensures View() == old(View()).With(d, old(View()).At(d).(active := None))
    {
      GateOf(d).Leave();
      GateChanged(d);
    }

    method ShiftGate(d: Domain) returns (next: OperationRecord)
      requires Valid() && GateOf(d).queue != []
      modifies alpha, beta
      ensures Valid()
      ensures next == old(GateOf(d).queue)[0] && Knows(next) && next.domain == d
      ensures View() == old(View()).With(d, old(View()).At(d).(
        queue := old(View()).At(d).queue[1..], active := Some(next.id)))
    {
      next := GateOf(d).queue[0];
      assert next in GateOf(d).queue;
      GateOf(d).Shift();
      GateChanged(d);
    }

    method CommitRevocation(op: OperationRecord)
      requires Valid() && Knows(op)
      modifies alpha, beta, op, this`trace
      ensures Valid()
      ensures View() == OwnerModel.CommitRevocation(old(View()), op.id)
    {
      assert View().ops[op.id] == op.View();
      CommitParts(View(), op.id);
      var generation := CommitGate(op.domain);
      CommitRecord(op, generation);
    }

    method CommitRecord(op: OperationRecord, generation: nat)
      requires Valid() && Knows(op)
      modifies op, this`trace
      ensures Valid()
      ensures View() == CommittedOp(old(View()), op.id, generation)
    {
      assert View().ops[op.id] == op.View();
      AdmitRecord(op, Committed);
      Emit(CommitEvent(op.id, op.domain, generation));
    }

    method FreeHolder(op: OperationRecord)
      requires Valid() && Knows(op)
      modifies alpha, beta, op, this`trace
      ensures Valid()
      ensures View() == Free(old(View()), op.id)
    {
      assert View().ops[op.id] == op.View();
      SettleRecord(op);
      LeaveGate(op.domain);
      Emit(SettledEvent(op.id, op.domain));
    }

    method TakeHead(d: Domain) returns (next: OperationRecord)
      requires Valid() && GateOf(d).queue != []
      modifies alpha, beta, ops, this`trace
      ensures Valid()
      ensures next == old(GateOf(d).queue)[0] && Knows(next) && next.domain == d
      ensures View() == Take(old(View()), d) && ops == old(ops)
    {
      next := ShiftGate(d);
      assert next in ops;
      HoldRecord(next);
      Emit(HeldEvent(next.id, d, GateOf(d).generation));
    }

    method DenyRecord(op: OperationRecord, reason: Reason)
      requires Valid() && Knows(op)
      modifies op
      ensures Valid() && View() == OwnerModel.DenyWithoutEffect(old(View()), op.id, reason).0
    {
      assert View().ops[op.id] == op.View();
      op.Deny(reason);
      RecordChanged(op);
    }

    method HandOffResponse(op: OperationRecord, kind: PermitKind, fault: TransportFault, reason: Reason)
      requires Valid() && Knows(op)
      modifies op, this`trace
      ensures Valid()
      ensures View() == old(View()).SetOp(op.id, OwnerModel.HandOff(old(View()).ops[op.id], kind, fault, reason))
                                   .Emit(HandoffEvent(op.id, op.domain))
    {
      assert View().ops[op.id] == op.View();
      op.HandOff(kind, fault, reason);
      trace := Then(trace, HandoffEvent(op.id, op.domain));
      RecordChanged(op);
    }

    // ---- running the holder -------------------------------------------------------------------

    method RunRevoke(op: OperationRecord)
      requires Valid() && Knows(op)
      modifies this, alpha, beta, ops, permits
      ensures Valid() && ops == old(ops)
      ensures View() == ReleaseIf(OwnerModel.RunRevoke(old(View()), op.id), op.id)
      decreases |View().At(op.domain).queue|, 3
    {
      var accepted := MintAndConsume(op, RevokeCommit);
      if !accepted {
        MoveTo(op, Returned);
        Poison(PermitRejected);
      } else {
        CommitRevocation(op);
        Release(op);
      }
    }

    method Release(op: OperationRecord)
      requires Valid() && Knows(op)
      modifies this, alpha, beta, ops, permits
      ensures Valid() && ops == old(ops)
      ensures View() == OwnerModel.Release(old(View()), op.id)
      decreases |View().At(op.domain).queue|, 2
    {
      if GateOf(op.domain).active != op || state != Running { return; }
      FreeHolder(op);
      Pump(op.domain);
    }

    method Pump(d: Domain)
      requires Valid()
      modifies this, alpha, beta, ops, permits
      ensures Valid() && ops == old(ops)
      ensures View() == OwnerModel.Pump(old(View()), d)
      decreases |View().At(d).queue|, 1
    {
      if state != Running || GateOf(d).active != null { return; }
      if GateOf(d).queue == [] { return; }
      assert GateOf(d).queue[0] in GateOf(d).queue;
      assert View().ops[GateOf(d).queue[0].id] == GateOf(d).queue[0].View();
      PumpTurn(View(), d);
      var next := TakeHead(d);
      Execute(next);
    }

    method Execute(op: OperationRecord)
      requires Valid() && Knows(op)
      modifies this, alpha, beta, ops, permits
      ensures Valid() && ops == old(ops)
      ensures View() == ReleaseIf(OwnerModel.Execute(old(View()), op.id), op.id)
      decreases |View().At(op.domain).queue|, 7
    {
      assert View().ops[op.id].spec == op.spec;
      ExecuteCases(View(), op.id);
      if op.spec.RevokeCase? { RunRevoke(op); } else { Authorize(op); }
    }

    method Authorize(op: OperationRecord)
      requires Valid() && Knows(op) && !op.spec.RevokeCase? && View().ops[op.id].spec == op.spec
      modifies this, alpha, beta, ops, permits
      ensures Valid() && ops == old(ops)
      ensures View() == ReleaseIf(OwnerModel.Execute(old(View()), op.id), op.id)
      decreases |View().At(op.domain).queue|, 6
    {
      ExecuteCases(View(), op.id);
      var early := AuthorizationFailure(op);
      if early.Some? { DenyHeld(op, early.value); } else { Resolve(op); }
    }

    method Resolve(op: OperationRecord)
      requires Valid() && Knows(op) && !op.spec.RevokeCase?
      modifies op
      ensures Valid()
      ensures View() == ResolveHeld(old(View()), op.id)
    {
      assert View().ops[op.id] == op.View();
      op.Resolve();
      RecordChanged(op);
    }

    method DenyWithoutEffect(op: OperationRecord, reason: Reason)
      requires Valid() && Knows(op)
      modifies this, alpha, beta, ops, permits
      ensures Valid() && ops == old(ops)
      ensures View() == ReleaseIf(OwnerModel.DenyWithoutEffect(old(View()), op.id, reason), op.id)
      decreases |View().At(op.domain).queue|, 3
    {
      DenyRecord(op, reason);
      Release(op);
    }

    method DenyHttp(op: OperationRecord, reason: Reason)
      requires Valid() && Knows(op)
      modifies this, alpha, beta, ops, permits
      ensures Valid() && ops == old(ops)
      ensures View() == ReleaseIf(OwnerModel.DenyHttp(old(View()), op.id, reason), op.id)
      decreases |View().At(op.domain).queue|, 4
    {
      assert View().ops[op.id] == op.View();
      if !op.hasResponse || op.transportLost {
        DenyWithoutEffect(op, reason);
      } else {
        HttpBoundary(op, HttpDenial, NoFault, reason);
      }
    }

    method DenyHeld(op: OperationRecord, reason: Reason)
      requires Valid() && Knows(op)
      modifies this, alpha, beta, ops, permits
      ensures Valid() && ops == old(ops)
      ensures View() == ReleaseIf(OwnerModel.DenyHeld(old(View()), op.id, reason), op.id)
      decreases |View().At(op.domain).queue|, 5
    {
      assert View().ops[op.id].spec == op.spec;
      if op.spec.HttpCase? { DenyHttp(op, reason); } else { DenyWithoutEffect(op, reason); }
    }

    /** The HTTP effect boundary: the permit, then the hand-off. */
    method HttpBoundary(op: OperationRecord, kind: PermitKind, fault: TransportFault, reason: Reason)
      requires Valid() && Knows(op)
      modifies this, alpha, beta, ops, permits
      ensures Valid() && ops == old(ops)
      ensures View() == OwnerModel.HttpBoundary(old(View()), op.id, kind, fault, reason).0
    {
      var accepted := MintAndConsume(op, kind);
      if !accepted {
        MoveTo(op, AtHttp(Some(RejectedResult)));
      } else {
        HandOffResponse(op, kind, fault, reason);
      }
    }

    /** Synchronous admission: the permit, the frozen job, the decision. */
    method AdmitProvider(op: OperationRecord) returns (admitted: bool)
      requires Valid() && Knows(op)
      modifies this, alpha, beta, ops, permits
      ensures Valid() && ops == old(ops)
      ensures (View(), admitted) == OwnerModel.AdmitProvider(old(View()), op.id)
    {
      admitted := MintAndConsume(op, ProviderStart);
      if !admitted {
        MoveTo(op, Returned);
        Poison(PermitRejected);
      } else {
        RecordJob(op);
        AdmitRecord(op, Started);
        Emit(ProviderAdmittedEvent(op.id, op.domain, GateOf(op.domain).generation));
      }
    }

    method RecordJob(op: OperationRecord)
      requires Valid() && Knows(op)
      modifies this`jobs
      ensures Valid()
      ensures View() == old(View()).(jobs := old(View()).jobs
        + [ProviderJob(op.id, op.domain, old(View()).At(op.domain).generation)])
    {
      jobs := jobs + [ProviderJob(op.id, op.domain, GateOf(op.domain).generation)];
    }

    method FinishCompletion(op: OperationRecord)
      requires Valid() && Knows(op) && op.spec.ProviderCase?
      modifies op
      ensures Valid() && View() == OwnerModel.FinishCompletion(old(View()), op.id)
    {
      assert View().ops[op.id] == op.View();
      op.Complete(state == Stopped);
      RecordChanged(op);
    }

    method StartCompletion(op: OperationRecord)
      requires Valid() && Knows(op) && op.spec.ProviderCase?
      modifies op
      ensures Valid() && View() == OwnerModel.StartCompletion(old(View()), op.id)
    {
      assert View().ops[op.id] == op.View();
      if op.spec.completionGated { MoveTo(op, AtCompletion); } else { FinishCompletion(op); }
    }

    /** After the last await: recheck, apply the store outcome, cross the boundary, release. */
    method CrossBoundary(op: OperationRecord)
      requires Valid() && Knows(op) && !op.spec.RevokeCase?
      modifies this, alpha, beta, ops, permits
      ensures Valid() && ops == old(ops)
      ensures View() == AfterBoundary(OwnerModel.CrossBoundary(old(View()), op.id), op.id)
    {
      assert View().ops[op.id].spec == op.spec;
      var late := AuthorizationFailure(op);
      if late.Some? { RefuseLate(op, late.value); } else { ApplyOutcome(op); }
    }

    method RefuseLate(op: OperationRecord, reason: Reason)
      requires Valid() && Knows(op) && !op.spec.RevokeCase?
      requires View().ops[op.id].spec == op.spec && OwnerModel.AuthorizationFailure(View(), op.id) == Some(reason)
      modifies this, alpha, beta, ops, permits
      ensures Valid() && ops == old(ops)
      ensures View() == AfterBoundary(OwnerModel.CrossBoundary(old(View()), op.id), op.id)
    {
      LateDenial(View(), op.id);
      DenyHeld(op, reason);
    }

    method ApplyOutcome(op: OperationRecord)
      requires Valid() && Knows(op) && !op.spec.RevokeCase?
      requires View().ops[op.id].spec == op.spec && OwnerModel.AuthorizationFailure(View(), op.id).None?
      modifies this, alpha, beta, ops, permits
      ensures Valid() && ops == old(ops)
      ensures View() == AfterBoundary(OwnerModel.CrossBoundary(old(View()), op.id), op.id)
    {
      CrossBoundaryCases(View(), op.id);
      if op.spec.store != Allow {
        DenyHeld(op, if op.spec.store == Deny then StoreDenied else StoreFailed);
      } else if op.spec.HttpCase? {
        HttpBoundary(op, HttpRelease, op.spec.fault, Released);
      } else {
        StartProvider(op);
      }
    }

    method StartProvider(op: OperationRecord)
      requires Valid() && Knows(op) && op.spec.ProviderCase?
      modifies this, alpha, beta, ops, permits
      ensures Valid() && ops == old(ops)
      ensures View() == AfterBoundary(OwnerModel.AdmitProvider(old(View()), op.id), op.id)
    {
      assert View().ops[op.id].spec == op.spec;
      var admitted := AdmitProvider(op);
      if admitted {
        Release(op);
        StartCompletion(op);
      }
    }

    method Boundary(op: OperationRecord)
      requires Valid() && Knows(op) && !op.spec.RevokeCase?
      modifies this, alpha, beta, ops, permits
      ensures Valid() && ops == old(ops)
      ensures View() == OwnerModel.Boundary(old(View()), op.id)
    {
      MoveTo(op, Executing);
      CrossBoundary(op);
    }

    // ---- queuing ------------------------------------------------------------------------------

    method PushGate(op: OperationRecord)
      requires Valid() && Knows(op)
      modifies alpha, beta
      ensures Valid()
      ensures View() == old(View()).With(op.domain, old(View()).At(op.domain).(
        queue := old(View()).At(op.domain).queue + [op.id]))
    {
      GateOf(op.domain).Push(op);
      GateChanged(op.domain);
    }

    method QueueRecord(op: OperationRecord)
      requires Valid() && Knows(op)
      modifies op
      ensures Valid()
      ensures View() == old(View()).SetOp(op.id, old(View()).ops[op.id].(
        expectedGeneration := Some(old(View()).At(op.domain).generation),
        phase := Queued,
        queuedAnswer := Some(old(View()).ops[op.id].queuedAnswer.GetOr(true))))
    {
      assert View().ops[op.id] == op.View();
      op.Queue(GateOf(op.domain).generation);
      RecordChanged(op);
    }

    method Enqueue(op: OperationRecord)
      requires Valid() && Knows(op)
      modifies this, alpha, beta, ops, permits
      ensures Valid() && ops == old(ops)
      ensures View() == OwnerModel.Enqueue(old(View()), op.id)
    {
      assert View().ops[op.id] == op.View();
      QueueRecord(op);
      PushGate(op);
      Emit(QueuedEvent(op.id, op.domain, GateOf(op.domain).generation));
      assert View() == Append(old(View()), op.id);
      Pump(op.domain);
    }

    /** A new operation record; an HTTP operation becomes pending until the server sees its request. */
    method NewOperationRecord(d: Domain, spec: Case) returns (op: OperationRecord)
      requires Valid()
      modifies this`ops
      ensures Valid() && Knows(op) && fresh(op) && op.id == |old(ops)| && op.domain == d && op.spec == spec
      ensures ops == old(ops) + [op]
      ensures View() == old(View()).(ops := old(View()).ops + [NewOperation(d, spec)])
    {
      op := new OperationRecord(|ops|, d, spec);
      AddRecord(op);
    }

    method AddRecord(op: OperationRecord)
      requires Valid() && op.id == |ops|
      modifies this`ops
      ensures Valid() && Knows(op) && ops == old(ops) + [op]
      ensures View() == old(View()).(ops := old(View()).ops + [op.View()])
    {
      ViewsSnoc(ops, op);
      WfGrows(View(), op.View());
      ops := ops + [op];
      assert forall q: OperationRecord :: old(Knows(q)) ==> Knows(q);
    }

    method AddPending(op: OperationRecord)
      requires Valid() && Knows(op)
      modifies this`pending
      ensures Valid() && View() == old(View()).(pending := old(View()).pending + [op.id])
    {
      pending := pending + [op];
      PendingChanged();
      assert Ids(pending) == Ids(old(pending)) + [op.id];
    }

    method RemovePending(op: OperationRecord)
      requires Valid() && Knows(op)
      modifies this`pending
      ensures Valid() && View() == old(View()).(pending := Without(old(View()).pending, op.id))
    {
      assert forall q :: q in pending && q.id == op.id ==> q == op;
      pending := RecordsWithout(pending, op);
      PendingChanged();
    }

    // ---- the public interface and the events ----------------------------------------------------

    /** Accepted only by a running owner; the source throws otherwise. */
    method Request(d: Domain, spec: Case) returns (op: OperationRecord?)
      requires Valid()
      modifies this, alpha, beta, ops, permits
      ensures Valid() && View() == StepRequest(old(View()), d, spec)
      ensures op == null <==> old(state) != Running
    {
      if state != Running { return null; }
      op := NewOperationRecord(d, spec);
      if spec.HttpCase? { AddPending(op); } else { Enqueue(op); }
    }

    method OnRequest(op: OperationRecord)
      requires Valid() && Knows(op)
      modifies this, alpha, beta, ops, permits
      ensures Valid() && View() == StepServerReceives(old(View()), op.id)
    {
      PendingIds(op.id);
      if state != Running || op !in pending { return; }
      RemovePending(op);
      AttachResponse(op);
      Enqueue(op);
    }

    method AttachResponse(op: OperationRecord)
      requires Valid() && Knows(op)
      modifies op
      ensures Valid() && View() == old(View()).SetOp(op.id, old(View()).ops[op.id].(hasResponse := true))
    {
      assert View().ops[op.id] == op.View();
      op.hasResponse := true;
      RecordChanged(op);
    }

    method OnClientClose(op: OperationRecord)
      requires Valid() && Knows(op)
      modifies this`pending, op
      ensures Valid() && View() == StepClientCloses(old(View()), op.id)
    {
      PendingIds(op.id);
      if op !in pending { return; }
      RemovePending(op);
      assert View().ops[op.id] == op.View();
      label removed:
      op.transportLost := true;
      op.Invalidate(LostBeforeQueue);
      RecordChanged@removed(op);
    }

    /** True iff the withdrawal takes hold; an admitted effect is never recalled. */
    method Cancel(op: OperationRecord) returns (cancelled: bool)
      requires Valid() && Knows(op) && !op.spec.RevokeCase?
      modifies op
      ensures Valid() && View() == StepCancel(old(View()), op.id)
      ensures cancelled <==> old(op.decision) == None && old(op.phase) != AdmittedPhase && old(op.phase) != Settled
      ensures op.cancelRequested == (old(op.cancelRequested) || cancelled)
      ensures old(Invariant.Inv(View())) ==> (cancelled <==> old(op.decision) == None)
    {
      assert View().ops[op.id] == op.View();
      if Invariant.Inv(View()) && op.decision == None { Theorems.UndecidedPhase(View(), op.id); }
      if op.decision != None || op.phase == AdmittedPhase || op.phase == Settled { return false; }
      op.cancelRequested := true;
      RecordChanged(op);
      return true;
    }

    method OnStoreOpen(op: OperationRecord)
      requires Valid() && Knows(op)
      modifies op
      ensures Valid() && View() == StepStoreOpens(old(View()), op.id)
    {
      assert View().ops[op.id] == op.View();
      if op.at == AtStoreBarrier { MoveTo(op, AfterStore); }
    }

    method AfterStoreOutcome(op: OperationRecord)
      requires Valid() && Knows(op)
      modifies this, alpha, beta, ops, permits
      ensures Valid() && View() == StepStoreContinues(old(View()), op.id)
    {
      assert View().ops[op.id] == op.View();
      if op.at != AfterStore || op.spec.RevokeCase? { return; }
      if state != Running { MoveTo(op, Returned); return; }
      if op.spec.preGated { MoveTo(op, AtPreBoundary); } else { Boundary(op); }
    }

    method OnPreBoundaryOpen(op: OperationRecord)
      requires Valid() && Knows(op)
      modifies this, alpha, beta, ops, permits
      ensures Valid() && View() == StepPreBoundaryOpens(old(View()), op.id)
    {
      assert View().ops[op.id] == op.View();
      if op.at != AtPreBoundary || op.spec.RevokeCase? { return; }
      if state != Running { MoveTo(op, Returned); } else { Boundary(op); }
    }

    method OnFinish(op: OperationRecord)
      requires Valid() && Knows(op)
      modifies op, this`trace
      ensures Valid() && View() == StepResponseFinish(old(View()), op.id)
    {
      assert View().ops[op.id] == op.View();
      if !op.handoffAttempted || op.finishObserved { return; }
      op.finishObserved := true;
      op.at := Resolved(op.at, FinishedResult);
      trace := Then(trace, FinishEvent(op.id, op.domain));
      RecordChanged(op);
    }

    /** The boundary's error listener, and the boundary's own close listener. */
    method OnTerminal(op: OperationRecord)
      requires Valid() && Knows(op)
      modifies op
      ensures Valid()
      ensures View() == old(View()).SetOp(op.id, old(View()).ops[op.id].(
        terminalFailure := true, at := Resolved(old(op.at), TerminalResult)))
    {
      assert View().ops[op.id] == op.View();
      op.terminalFailure := true;
      op.at := Resolved(op.at, TerminalResult);
      RecordChanged(op);
    }

    method OnError(op: OperationRecord)
      requires Valid() && Knows(op)
      modifies op
      ensures Valid() && View() == StepResponseError(old(View()), op.id)
    {
      assert View().ops[op.id] == op.View();
      if op.handoffAttempted { OnTerminal(op); }
    }

    method LoseTransport(op: OperationRecord)
      requires Valid() && Knows(op)
      modifies op
      ensures Valid() && View() == old(View()).SetOp(op.id, old(View()).ops[op.id].(transportLost := true))
    {
      assert View().ops[op.id] == op.View();
      op.transportLost := true;
      RecordChanged(op);
    }

    method OnServerClose(op: OperationRecord)
      requires Valid() && Knows(op)
      modifies this, ops
      ensures Valid() && ops == old(ops) && View() == OwnerModel.OnServerClose(old(View()), op.id)
    {
      assert View().ops[op.id] == op.View();
      ServerCloseCases(View(), op.id);
      if op.finishObserved || op.transportLost { return; }
      var holds := state == Running && GateOf(op.domain).active == op;
      assert holds <==> state == Running && View().HoldsGate(op.id);
      LosesUnderGate(op, holds);
    }

    /** Loss under a held gate poisons. */
    method LosesUnderGate(op: OperationRecord, holds: bool)
      requires Valid() && Knows(op)
      modifies this, ops
      ensures Valid() && ops == old(ops)
      ensures View() == LostOp(old(View()), op.id, holds)
    {
      assert op in ops;
      LoseTransport(op);
      if holds { Poison(TransportLost); }
    }

    method OnClose(op: OperationRecord)
      requires Valid() && Knows(op)
      modifies this, ops
      ensures Valid() && View() == StepResponseClose(old(View()), op.id)
    {
      assert View().ops[op.id] == op.View();
      assert op in ops;
      if !op.hasResponse { return; }
      OnServerClose(op);
      assert View().ops[op.id] == op.View();
      if op.handoffAttempted && !op.finishObserved { OnTerminal(op); }
    }

    method AfterHttp(op: OperationRecord)
      requires Valid() && Knows(op)
      modifies this, alpha, beta, ops, permits
      ensures Valid() && View() == StepBoundaryContinues(old(View()), op.id)
    {
      assert View().ops[op.id] == op.View();
      assert op in ops;
      if !op.at.AtHttp? || op.at.result.None? { return; }
      var result := op.at.result.value;
      MoveTo(op, Returned);
      match result
      case FinishedResult => Release(op);
      case TerminalResult => Poison(TransportTerminal);
      case RejectedResult => if state == Running { Poison(PermitRejected); }
    }

    method OnCompletionOpen(op: OperationRecord)
      requires Valid() && Knows(op)
      modifies op
      ensures Valid() && View() == StepCompletionOpens(old(View()), op.id)
    {
      assert View().ops[op.id] == op.View();
      if op.at == AtCompletion && op.spec.ProviderCase? { FinishCompletion(op); }
    }
  }

  method RecordsWithout(list: seq<OperationRecord>, op: OperationRecord) returns (kept: seq<OperationRecord>)
    requires forall q :: q in list && q.id == op.id ==> q == op
    ensures Ids(kept) == Without(Ids(list), op.id)
    ensures forall q :: q in kept ==> q in list
  {
    kept := [];
    ghost var ids := Ids(list);
    for j := 0 to |list|
      invariant Ids(kept) == Without(ids[..j], op.id)
      invariant forall q :: q in kept ==> q in list
    {
      WithoutSnoc(ids[..j], ids[j], op.id);
      assert ids[..j + 1] == ids[..j] + [ids[j]];
      if list[j] != op {
        assert Ids(kept + [list[j]]) == Ids(kept) + [list[j].id];
        kept := kept + [list[j]];
      }
    }
    assert ids[..|list|] == ids;
  }

  /** Any step of the step relation, performed on the objects. */
  method Perform(owner: SyntheticOwner, step: Step)
    requires owner.Valid()
    modifies owner, owner.alpha, owner.beta, owner.ops, owner.permits
    ensures owner.Valid() && owner.View() == Next(old(owner.View()), step)
  {
    match step
    case Request(d, spec) => var _ := owner.Request(d, spec);
    case Stop => owner.Stop();
    case Advance(i, what) =>
      if i < |owner.ops| { PerformOn(owner, owner.ops[i], what); }
  }

  method PerformOn(owner: SyntheticOwner, op: OperationRecord, what: OperationStep)
    requires owner.Valid() && owner.Knows(op)
    modifies owner, owner.alpha, owner.beta, owner.ops, owner.permits
    ensures owner.Valid() && owner.View() == StepOperation(old(owner.View()), op.id, what)
  {
    assert op in owner.ops && owner.View().ops[op.id] == op.View();
    match what
    case ServerReceives => owner.OnRequest(op);
    case ClientCloses => owner.OnClientClose(op);
    case Cancel => if !op.spec.RevokeCase? { var _ := owner.Cancel(op); }
    case StoreOpens => owner.OnStoreOpen(op);
    case StoreContinues => owner.AfterStoreOutcome(op);
    case PreBoundaryOpens => owner.OnPreBoundaryOpen(op);
    case ResponseFinish => owner.OnFinish(op);
    case ResponseError => owner.OnError(op);
    case ResponseClose => owner.OnClose(op);
    case BoundaryContinues => owner.AfterHttp(op);
    case CompletionOpens => owner.OnCompletionOpen(op);
  }

  lemma {:induction false} WithoutSnoc(ids: seq<nat>, j: nat, i: nat)
    ensures Without(ids + [j], i) == Without(ids, i) + if j == i then [] else [j]
  {
    if ids == [] {
      assert ids + [j] == [j];
    } else {
      assert (ids + [j])[1..] == ids[1..] + [j];
      WithoutSnoc(ids[1..], j, i);
    }
  }
}
