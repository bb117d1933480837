/**
  Choosing the agent for one customer: among the registry entries whose
  score reaches the customer's score, the one with the lowest score, the
  first in registry order among equals. The customer count of an entry
  plays no part, because `customers.length && score` evaluates to `score`
  (every Ruby integer is truthy).
 */
module Selection {
  import opened Wrappers
  import opened Entities

  /** An entry may serve a customer when its score is at least the
      customer's score. */
  predicate Eligible(e: Load, c: Customer)
  {
    e.score >= c.score
  }

  /** Some entry of the registry may serve the customer. */
  predicate Qualifies(reg: seq<Load>, c: Customer)
  {
    exists k :: 0 <= k < |reg| && Eligible(reg[k], c)
  }

  /** `select { score >= customer score }.min_by { score }`: the position of
      the chosen entry, or None when no entry qualifies. The chosen entry is
      eligible, has the lowest score of all eligible entries, and every
      eligible entry before it has a strictly higher score. */
  function FindAvailable(reg: seq<Load>, c: Customer): (r: Option<nat>)
    ensures r.None? <==> !Qualifies(reg, c)
    ensures r.Some? ==> r.value < |reg| && Eligible(reg[r.value], c)
    ensures r.Some? ==> forall k :: 0 <= k < |reg| && Eligible(reg[k], c) ==> reg[r.value].score <= reg[k].score
    ensures r.Some? ==> forall k :: 0 <= k < r.value && Eligible(reg[k], c) ==> reg[r.value].score < reg[k].score
  {
    if reg == [] then None
    else
      var n := |reg| - 1;
      var best := FindAvailable(reg[..n], c);
      if !Eligible(reg[n], c) then best
      else if best.None? || reg[n].score < reg[best.value].score then Some(n)
      else best
  }

  /** The choice depends only on the keys' scores in order: two registries
      of the same shape choose the same entry, whatever their loads. */
  lemma FindAvailableIgnoresLoad(a: seq<Load>, b: seq<Load>, c: Customer)
    requires SameShape(a, b)
    ensures FindAvailable(a, c) == FindAvailable(b, c)
  {
    var ra, rb := FindAvailable(a, c), FindAvailable(b, c);
    if ra.Some? && rb.Some? {
      assert Eligible(b[ra.value], c) && Eligible(a[rb.value], c);
    }
  }

  /** The converse of FindAvailable's contract: an eligible entry with the
      lowest score, before which every eligible entry scores strictly
      higher, is the one chosen. */
  lemma FindAvailableChooses(reg: seq<Load>, c: Customer, k: nat)
    requires k < |reg| && Eligible(reg[k], c)
    requires forall j :: 0 <= j < |reg| && Eligible(reg[j], c) ==> reg[k].score <= reg[j].score
    requires forall j :: 0 <= j < k && Eligible(reg[j], c) ==> reg[k].score < reg[j].score
    ensures FindAvailable(reg, c) == Some(k)
  {
    assert Qualifies(reg, c);
  }
}
