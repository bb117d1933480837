/**
  The values the balancer works on: agents ("customer success"), customers,
  and the per-agent entries of the registry the run builds and mutates.
 */
module Entities {

  /** An agent as supplied to the balancer: an id and a capability score. */
  datatype CustomerSuccess = CustomerSuccess(id: int, score: int)

  /** A customer as supplied to the balancer: an id and a required score. */
  datatype Customer = Customer(id: int, score: int)

  /** One registry entry: the agent's id (the hash key), its score, and the
      ids of the customers assigned to it so far, in assignment order. */
  datatype Load = Load(id: int, score: int, customers: seq<int>)

  /** No two agents share an id. */
  predicate UniqueIds(css: seq<CustomerSuccess>)
  {
    forall i, j :: 0 <= i < j < |css| ==> css[i].id != css[j].id
  }

  /** No two customers share an id. */
  predicate DistinctCustomerIds(cs: seq<Customer>)
  {
    forall i, j :: 0 <= i < j < |cs| ==> cs[i].id != cs[j].id
  }

  /** No two registry entries share a key. */
  predicate UniqueKeys(reg: seq<Load>)
  {
    forall i, j :: 0 <= i < j < |reg| ==> reg[i].id != reg[j].id
  }

  /** Two registries hold the same keys with the same scores, in the same
      order; only their customer lists may differ. */
  predicate SameShape(a: seq<Load>, b: seq<Load>)
  {
    |a| == |b| && forall k :: 0 <= k < |a| ==> a[k].id == b[k].id && a[k].score == b[k].score
  }

  /** The number of customers assigned across the whole registry. */
  function TotalAssigned(reg: seq<Load>): nat
  {
    if reg == [] then 0 else TotalAssigned(reg[..|reg| - 1]) + |reg[|reg| - 1].customers|
  }

  /** Replacing one entry changes the total by the difference of the two
      entries' list lengths. */
  lemma {:induction false} TotalAssignedUpdate(reg: seq<Load>, k: nat, e: Load)
    requires k < |reg|
    ensures TotalAssigned(reg[k := e]) + |reg[k].customers| == TotalAssigned(reg) + |e.customers|
    decreases |reg|
  {
    var n := |reg| - 1;
    var upd := reg[k := e];
    assert upd[..n] == if k < n then reg[..n][k := e] else reg[..n];
    if k < n {
      TotalAssignedUpdate(reg[..n], k, e);
    }
  }
}
