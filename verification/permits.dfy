/** Single-use effect permits (scripts/local-synthetic-alpha/permits.ts). */
module Permits {
  import opened Prelude

  datatype Domain = Alpha | Beta

  datatype PermitKind = HttpRelease | HttpDenial | ProviderStart | RevokeCommit

  /** Operation `op-<n>` is represented by the number n. */
  datatype Binding = Binding(domain: Domain, generation: nat, operationId: nat, kind: PermitKind)

  datatype Verdict =
    | Accepted | Forged | Replayed | WrongDomain | WrongGeneration | WrongOperation | WrongKind

  datatype Record = Record(binding: Binding, used: bool)

  /** The verdict on presenting a permit with this record (None: the authority never minted it). */
  function Judge(record: Option<Record>, expected: Binding): Verdict {
    match record
    case None => Forged
    case Some(r) =>
      if r.used then Replayed
      else if r.binding.domain != expected.domain then WrongDomain
      else if r.binding.operationId != expected.operationId then WrongOperation
      else if r.binding.kind != expected.kind then WrongKind
      else if r.binding.generation != expected.generation then WrongGeneration
      else Accepted
  }

  function Lookup<K>(records: map<K, Record>, k: K): Option<Record> {
    if k in records then Some(records[k]) else None
  }

  /** A known permit is spent by its first presentation, whatever the verdict. */
  function Spend<K>(records: map<K, Record>, k: K): map<K, Record> {
    if k in records then records[k := records[k].(used := true)] else records
  }

  datatype Presentation<K> = Presentation(candidate: K, expected: Binding)

  /** The verdicts of an authority on a whole history of presentations. */
  function Verdicts<K>(records: map<K, Record>, ps: seq<Presentation<K>>): (vs: seq<Verdict>)
    ensures |vs| == |ps|
  {
    if ps == [] then []
    else
      [Judge(Lookup(records, ps[0].candidate), ps[0].expected)]
      + Verdicts(Spend(records, ps[0].candidate), ps[1..])
  }

  /** Nothing before position j presented the candidate of position j. */
  ghost predicate FirstPresentation<K>(ps: seq<Presentation<K>>, j: nat)
    requires j < |ps|
  {
    forall i :: 0 <= i < j ==> ps[i].candidate != ps[j].candidate
  }

  /**
   * In any history of presentations, exactly those are accepted that are the first presentation
   * of a minted, unspent permit with exactly its own binding. Mismatched presentations burn the
   * permit, forgeries never succeed, and no permit is accepted twice.
   */
  lemma {:induction false} AcceptedExactlyOnFirstMatchingPresentation<K>(
      records: map<K, Record>, ps: seq<Presentation<K>>, j: nat)
    requires j < |ps|
    ensures Verdicts(records, ps)[j] == Accepted
       <==> && FirstPresentation(ps, j)
            && ps[j].candidate in records
            && records[ps[j].candidate] == Record(ps[j].expected, false)
  {
    if j == 0 {
    } else {
      var k := ps[0].candidate;
      AcceptedExactlyOnFirstMatchingPresentation(Spend(records, k), ps[1..], j - 1);
      assert ps[1..][j - 1] == ps[j];
      if k == ps[j].candidate {
        assert !FirstPresentation(ps, j);
      } else {
        FirstAfter(ps, j);
      }
    }
  }

  /** Which verdict stands for which presentation. */
  ghost predicate IsVerdict(v: Verdict, minted: bool, spent: bool, own: Binding, expected: Binding) {
    && (v == Forged <==> !minted)
    && (v == Replayed <==> minted && spent)
    && (minted && !spent ==>
          && (v == WrongDomain <==> own.domain != expected.domain)
          && (v == WrongOperation <==> own.domain == expected.domain && own.operationId != expected.operationId)
          && (v == WrongKind <==>
                own.domain == expected.domain && own.operationId == expected.operationId && own.kind != expected.kind)
          && (v == WrongGeneration <==>
                && own.domain == expected.domain && own.operationId == expected.operationId && own.kind == expected.kind
                && own.generation != expected.generation)
          && (v == Accepted <==> own == expected))
  }

  ghost predicate SpentBefore<K>(records: map<K, Record>, ps: seq<Presentation<K>>, j: nat)
    requires j < |ps|
  {
    !FirstPresentation(ps, j) || (ps[j].candidate in records && records[ps[j].candidate].used)
  }

  /** Every verdict of every history: unknown, spent, or the first part of the binding that differs. */
  lemma {:induction false} VerdictsAreExact<K>(records: map<K, Record>, ps: seq<Presentation<K>>, j: nat, own: Binding)
    requires j < |ps|
    requires ps[j].candidate in records ==> own == records[ps[j].candidate].binding
    ensures IsVerdict(
      Verdicts(records, ps)[j], ps[j].candidate in records, SpentBefore(records, ps, j), own, ps[j].expected)
  {
    if j > 0 {
      var k := ps[0].candidate;
      assert ps[1..][j - 1] == ps[j];
      VerdictsAreExact(Spend(records, k), ps[1..], j - 1, own);
      if k == ps[j].candidate {
        assert !FirstPresentation(ps, j);
      } else {
        FirstAfter(ps, j);
      }
    }
  }

  lemma FirstAfter<K>(ps: seq<Presentation<K>>, j: nat)
    requires 0 < j < |ps| && ps[0].candidate != ps[j].candidate
    ensures FirstPresentation(ps[1..], j - 1) <==> FirstPresentation(ps, j)
  {
    assert forall i :: 0 <= i < j ==> ps[1..][i] == ps[i + 1];
    if FirstPresentation(ps[1..], j - 1) {
      forall i | 0 <= i < j ensures ps[i].candidate != ps[j].candidate {
        if i > 0 { assert ps[1..][i - 1] == ps[i]; }
      }
    }
  }

  /** The opaque token: only the authority that minted it can interpret it. */
  class Permit {
    constructor () {}
  }

  class PermitAuthority {
    var records: map<Permit, Record>

    constructor ()
      ensures records == map[]
    {
      records := map[];
    }

    method Mint(binding: Binding) returns (permit: Permit)
      modifies this
      ensures fresh(permit) && permit !in old(records)
      ensures records == old(records)[permit := Record(binding, false)]
    {
      permit := new Permit();
      // A token allocated now was not a key before, because keys are allocated objects.
      records := records[permit := Record(binding, false)];
    }

    method Consume(candidate: Permit?, expected: Binding) returns (verdict: Verdict)
      modifies this
      ensures candidate == null ==> verdict == Forged && records == old(records)
      ensures candidate != null ==>
        && verdict == Judge(Lookup(old(records), candidate), expected)
        && records == Spend(old(records), candidate)
    {
      if candidate == null { return Forged; }
      if candidate !in records { return Forged; }
      var record := records[candidate];
      if record.used { return Replayed; }
      records := records[candidate := record.(used := true)];
      var binding := record.binding;
      if binding.domain != expected.domain { return WrongDomain; }
      if binding.operationId != expected.operationId { return WrongOperation; }
      if binding.kind != expected.kind { return WrongKind; }
      if binding.generation != expected.generation { return WrongGeneration; }
      return Accepted;
    }
  }
}
