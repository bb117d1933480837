/**
  The balancer: build the registry, hand every customer in input order to
  the agent the selector picks, then report the agent with the most
  customers (0 on a tie).
 */
module Balancing {
  import opened Wrappers
  import opened Entities
  import opened Registry
  import opened Selection
  import opened Winner

  /** One iteration of the main loop: select an agent for `c` and, when one
      qualifies, append `c`'s id to its list. Keys and scores stay, and one
      more customer is assigned exactly when some entry qualifies. */
  function Step(reg: seq<Load>, c: Customer): (r: seq<Load>)
    ensures SameShape(reg, r)
    ensures TotalAssigned(r) == TotalAssigned(reg) + (if Qualifies(reg, c) then 1 else 0)
    ensures !Qualifies(reg, c) ==> r == reg
  {
    match FindAvailable(reg, c)
    case None => reg
    case Some(k) => Assigned(reg, k, c.id)
  }

  /** When the selector picks entry `k`, a step is that entry's append. */
  lemma StepAppendsToChosen(reg: seq<Load>, c: Customer, k: nat)
    requires FindAvailable(reg, c) == Some(k)
    ensures k < |reg| && Step(reg, c) == Assigned(reg, k, c.id)
  {
  }

  /** The registry after the main loop has processed `cs` in order. The
      registry never gains or loses keys and no score changes. */
  function Run(reg: seq<Load>, cs: seq<Customer>): (r: seq<Load>)
    ensures SameShape(reg, r)
  {
    if cs == [] then reg else Step(Run(reg, cs[..|cs| - 1]), cs[|cs| - 1])
  }

  /** Processing one more customer is one more Step. */
  lemma RunPrefixStep(reg: seq<Load>, cs: seq<Customer>, i: nat)
    requires i < |cs|
    ensures Run(reg, cs[..i + 1]) == Step(Run(reg, cs[..i]), cs[i])
  {
    assert cs[..i + 1][..i] == cs[..i];
  }

  /** When no entry qualifies for any of the customers, the loop leaves the
      registry exactly as it was. */
  lemma {:induction false} RunUnserved(reg: seq<Load>, cs: seq<Customer>)
    requires forall i :: 0 <= i < |cs| ==> !Qualifies(reg, cs[i])
    ensures Run(reg, cs) == reg
    decreases |cs|
  {
    if cs != [] {
      var n := |cs| - 1;
      assert forall i :: 0 <= i < n ==> cs[..n][i] == cs[i];
      RunUnserved(reg, cs[..n]);
    }
  }

  /** The ids, in input order, of the customers of `cs` that the selector
      gives to entry `k` of `reg`. */
  function ChosenBy(reg: seq<Load>, cs: seq<Customer>, k: nat): (r: seq<int>)
  {
    if cs == [] then []
    else
      var c := cs[|cs| - 1];
      ChosenBy(reg, cs[..|cs| - 1], k) + (if FindAvailable(reg, c) == Some(k) then [c.id] else [])
  }

  /** The number of customers of `cs` that some entry of `reg` qualifies
      for. */
  function Served(reg: seq<Load>, cs: seq<Customer>): (n: nat)
    ensures n <= |cs|
  {
    if cs == [] then 0
    else Served(reg, cs[..|cs| - 1]) + (if Qualifies(reg, cs[|cs| - 1]) then 1 else 0)
  }

  /** One step on a registry of the same shape as `reg` appends the
      customer to entry `k` exactly when the selector picks `k` on `reg`. */
  lemma StepAppendsIfChosen(reg: seq<Load>, before: seq<Load>, c: Customer, k: nat)
    requires SameShape(reg, before) && k < |reg|
    ensures Step(before, c)[k].customers ==
            before[k].customers + (if FindAvailable(reg, c) == Some(k) then [c.id] else [])
  {
    FindAvailableIgnoresLoad(reg, before, c);
    match FindAvailable(reg, c)
    case None =>
    case Some(j) =>
      StepAppendsToChosen(before, c, j);
  }

  /** The last iteration of the loop appends its customer to entry `k`
      exactly when the selector picks `k` on the initial registry. */
  lemma RunLastAppendsIfChosen(reg: seq<Load>, cs: seq<Customer>, k: nat)
    requires k < |reg| && cs != []
    ensures Run(reg, cs)[k].customers == Run(reg, cs[..|cs| - 1])[k].customers +
            (if FindAvailable(reg, cs[|cs| - 1]) == Some(k) then [cs[|cs| - 1].id] else [])
  {
    StepAppendsIfChosen(reg, Run(reg, cs[..|cs| - 1]), cs[|cs| - 1], k);
  }

  /** Which agent a customer gets never depends on earlier assignments:
      after the loop, each entry's list is its old list followed by exactly
      the customers the selector picks it for on the initial registry. */
  lemma {:induction false} RunAssignsBySelection(reg: seq<Load>, cs: seq<Customer>, k: nat)
    requires k < |reg|
    ensures Run(reg, cs)[k].customers == reg[k].customers + ChosenBy(reg, cs, k)
    decreases |cs|
  {
    if cs != [] {
      var n := |cs| - 1;
      RunAssignsBySelection(reg, cs[..n], k);
      RunLastAppendsIfChosen(reg, cs, k);
      var x := if FindAvailable(reg, cs[n]) == Some(k) then [cs[n].id] else [];
      var prev := ChosenBy(reg, cs[..n], k);
      assert (reg[k].customers + prev) + x == reg[k].customers + (prev + x);
    }
  }

  /** Every customer that some agent qualifies for is assigned exactly once
      and no other customer is: the total grows by the number served, which
      is at most the number of customers. */
  lemma {:induction false} RunTotal(reg: seq<Load>, cs: seq<Customer>)
    ensures TotalAssigned(Run(reg, cs)) == TotalAssigned(reg) + Served(reg, cs)
    ensures TotalAssigned(Run(reg, cs)) <= TotalAssigned(reg) + |cs|
    decreases |cs|
  {
    if cs != [] {
      var n := |cs| - 1;
      var before := Run(reg, cs[..n]);
      RunTotal(reg, cs[..n]);
      FindAvailableIgnoresLoad(reg, before, cs[n]);
    }
  }

  /** Every id in an entry's chosen list is the id of a customer of `cs`
      that the selector gives to that entry. */
  lemma {:induction false} ChosenByOrigin(reg: seq<Load>, cs: seq<Customer>, k: nat, i: nat)
    requires i < |ChosenBy(reg, cs, k)|
    ensures exists j :: 0 <= j < |cs| && cs[j].id == ChosenBy(reg, cs, k)[i] && FindAvailable(reg, cs[j]) == Some(k)
    decreases |cs|
  {
    var n := |cs| - 1;
    var pre := ChosenBy(reg, cs[..n], k);
    if i < |pre| {
      ChosenByOrigin(reg, cs[..n], k, i);
      var j :| 0 <= j < n && cs[..n][j].id == pre[i] && FindAvailable(reg, cs[..n][j]) == Some(k);
      assert cs[j] == cs[..n][j];
    } else {
      assert cs[n].id == ChosenBy(reg, cs, k)[i];
    }
  }

  /** With distinct customer ids, no id occurs twice in a chosen list. */
  lemma {:induction false} ChosenByDistinct(reg: seq<Load>, cs: seq<Customer>, k: nat)
    requires DistinctCustomerIds(cs)
    ensures forall i, j :: 0 <= i < j < |ChosenBy(reg, cs, k)| ==> ChosenBy(reg, cs, k)[i] != ChosenBy(reg, cs, k)[j]
    decreases |cs|
  {
    if cs != [] {
      var n := |cs| - 1;
      var pre := ChosenBy(reg, cs[..n], k);
      ChosenByDistinct(reg, cs[..n], k);
      forall i | 0 <= i < |pre|
        ensures pre[i] != cs[n].id
      {
        ChosenByOrigin(reg, cs[..n], k, i);
        var j :| 0 <= j < n && cs[..n][j].id == pre[i] && FindAvailable(reg, cs[..n][j]) == Some(k);
        assert cs[j].id != cs[n].id;
      }
    }
  }

  /** Each customer is assigned at most once: starting from the built
      registry, a customer id never shows up in two lists nor twice in one,
      when customer ids are distinct. */
  lemma AssignedAtMostOnce(css: seq<CustomerSuccess>, cs: seq<Customer>, away: seq<int>,
                           k1: nat, i1: nat, k2: nat, i2: nat)
    requires DistinctCustomerIds(cs)
    requires k1 < |Run(Registered(css, away), cs)| && k2 < |Run(Registered(css, away), cs)|
    requires i1 < |Run(Registered(css, away), cs)[k1].customers|
    requires i2 < |Run(Registered(css, away), cs)[k2].customers|
    requires Run(Registered(css, away), cs)[k1].customers[i1] == Run(Registered(css, away), cs)[k2].customers[i2]
    ensures k1 == k2 && i1 == i2
  {
    var reg := Registered(css, away);
    var r := Run(reg, cs);
    RunAssignsBySelection(reg, cs, k1);
    RunAssignsBySelection(reg, cs, k2);
    var l1, l2 := ChosenBy(reg, cs, k1), ChosenBy(reg, cs, k2);
    assert r[k1].customers == l1 && r[k2].customers == l2;
    ChosenByOrigin(reg, cs, k1, i1);
    ChosenByOrigin(reg, cs, k2, i2);
    var j1 :| 0 <= j1 < |cs| && cs[j1].id == l1[i1] && FindAvailable(reg, cs[j1]) == Some(k1);
    var j2 :| 0 <= j2 < |cs| && cs[j2].id == l2[i2] && FindAvailable(reg, cs[j2]) == Some(k2);
    assert cs[j1].id == cs[j2].id;
    assert j1 == j2;
    ChosenByDistinct(reg, cs, k1);
  }

  /** Chosen lists split along a split of the customers. */
  lemma {:induction false} ChosenByAppend(reg: seq<Load>, a: seq<Customer>, b: seq<Customer>, k: nat)
    ensures ChosenBy(reg, a + b, k) == ChosenBy(reg, a, k) + ChosenBy(reg, b, k)
    decreases |b|
  {
    if b == [] {
      assert a + b == a;
    } else {
      var n := |b| - 1;
      assert (a + b)[..|a + b| - 1] == a + b[..n];
      ChosenByAppend(reg, a, b[..n], k);
    }
  }

  /** Removing one customer from the input never raises any agent's final
      count, and lowers it by at most one. */
  lemma RemovingCustomerNeverRaisesLoad(reg: seq<Load>, a: seq<Customer>, c: Customer, b: seq<Customer>, k: nat)
    requires k < |reg|
    ensures |Run(reg, a + b)[k].customers| <= |Run(reg, a + [c] + b)[k].customers| <= |Run(reg, a + b)[k].customers| + 1
  {
    RunAssignsBySelection(reg, a + b, k);
    RunAssignsBySelection(reg, a + [c] + b, k);
    ChosenByAppend(reg, a, b, k);
    ChosenByAppend(reg, a + [c], b, k);
    ChosenByAppend(reg, a, [c], k);
    assert ChosenBy(reg, [c], k) == (if FindAvailable(reg, c) == Some(k) then [c.id] else []) by {
      assert [c][..0] == [];
    }
  }

  /** When the selector sends every customer to entry `k` of a registry with
      empty lists, and there is at least one customer, entry `k` wins. */
  lemma AllToOneWins(reg: seq<Load>, cs: seq<Customer>, k: nat)
    requires k < |reg| && |cs| > 0
    requires forall j :: 0 <= j < |reg| ==> reg[j].customers == []
    requires forall i :: 0 <= i < |cs| ==> FindAvailable(reg, cs[i]) == Some(k)
    ensures FindWithMaxCustomers(Run(reg, cs)) == reg[k].id
  {
    var r := Run(reg, cs);
    forall j | 0 <= j < |reg| && j != k
      ensures |r[j].customers| < |r[k].customers|
    {
      RunAssignsBySelection(reg, cs, j);
      RunAssignsBySelection(reg, cs, k);
      ChosenByAll(reg, cs, k);
      ChosenByNone(reg, cs, k, j);
    }
    WinnerIsUniqueMaximum(r, k);
  }

  /** When the selector sends every customer to entry `k`, all of them are
      chosen for `k`. */
  lemma {:induction false} ChosenByAll(reg: seq<Load>, cs: seq<Customer>, k: nat)
    requires forall i :: 0 <= i < |cs| ==> FindAvailable(reg, cs[i]) == Some(k)
    ensures |ChosenBy(reg, cs, k)| == |cs|
    decreases |cs|
  {
    if cs != [] {
      var n := |cs| - 1;
      assert forall i :: 0 <= i < n ==> cs[..n][i] == cs[i];
      ChosenByAll(reg, cs[..n], k);
      assert FindAvailable(reg, cs[n]) == Some(k);
    }
  }

  /** When the selector sends every customer to entry `k`, none is chosen
      for any other entry. */
  lemma {:induction false} ChosenByNone(reg: seq<Load>, cs: seq<Customer>, k: nat, j: nat)
    requires j != k
    requires forall i :: 0 <= i < |cs| ==> FindAvailable(reg, cs[i]) == Some(k)
    ensures ChosenBy(reg, cs, j) == []
    decreases |cs|
  {
    if cs != [] {
      var n := |cs| - 1;
      assert forall i :: 0 <= i < n ==> cs[..n][i] == cs[i];
      ChosenByNone(reg, cs[..n], k, j);
      assert FindAvailable(reg, cs[n]) != Some(j);
    }
  }

  /** A non-zero result of the winner step on a registry with the keys of
      the built registry is the id of an input agent that is not away. */
  lemma WinnerIsAvailableAgent(css: seq<CustomerSuccess>, away: seq<int>, r: seq<Load>)
    requires SameShape(Registered(css, away), r) && |r| > 0
    ensures FindWithMaxCustomers(r) != 0 ==>
            FindWithMaxCustomers(r) !in away &&
            exists i :: 0 <= i < |css| && css[i].id == FindWithMaxCustomers(r)
  {
    var reg := Registered(css, away);
    var w := FindWithMaxCustomers(r);
    if w != 0 {
      var k :| 0 <= k < |r| && r[k].id == w && |r[k].customers| == MaxCount(r) &&
               forall j :: 0 <= j < |r| && j != k ==> |r[j].customers| < MaxCount(r);
      assert reg[k].id == w;
      RegisteredMembers(css, away, reg[k]);
    }
  }

  /** The whole run: the id of the agent with the most customers after every
      customer is processed, or 0 on a tie. Defined when agent ids are
      distinct and some agent is not away; on an empty registry the Ruby
      code raises instead. A non-zero result is the id of an input agent
      that is not away, and that agent ends with strictly more customers
      than any other. */
  function Balance(css: seq<CustomerSuccess>, cs: seq<Customer>, away: seq<int>): (w: int)
    requires UniqueIds(css) && HasAvailable(css, away)
    ensures w != 0 ==> w !in away && exists i :: 0 <= i < |css| && css[i].id == w
    ensures w != 0 ==>
            exists k :: 0 <= k < |Registered(css, away)| && Run(Registered(css, away), cs)[k].id == w &&
                        forall j :: 0 <= j < |Registered(css, away)| && j != k ==>
                          |Run(Registered(css, away), cs)[j].customers| < |Run(Registered(css, away), cs)[k].customers|
  {
    RegisteredNonEmpty(css, away);
    var r := Run(Registered(css, away), cs);
    WinnerIsAvailableAgent(css, away, r);
    FindWithMaxCustomers(r)
  }

  /** The balancer object: the three inputs, read only. */
  class CustomerSuccessBalancing {
    const customerSuccess: seq<CustomerSuccess>
    const customers: seq<Customer>
    const awayCustomerSuccess: seq<int>

    constructor (customerSuccess: seq<CustomerSuccess>, customers: seq<Customer>, awayCustomerSuccess: seq<int>)
      ensures this.customerSuccess == customerSuccess
      ensures this.customers == customers
      ensures this.awayCustomerSuccess == awayCustomerSuccess
    {
      this.customerSuccess := customerSuccess;
      this.customers := customers;
      this.awayCustomerSuccess := awayCustomerSuccess;
    }

    /** Runs the balancer and returns the winning agent's id, or 0. */
    method Execute() returns (winner: int)
      requires UniqueIds(customerSuccess)
      requires HasAvailable(customerSuccess, awayCustomerSuccess)
      ensures winner == Balance(customerSuccess, customers, awayCustomerSuccess)
    {
      var table := BuildTable();
      ghost var reg := Registered(customerSuccess, awayCustomerSuccess);
      RegisteredUniqueKeys(customerSuccess, awayCustomerSuccess);
      RegisteredNonEmpty(customerSuccess, awayCustomerSuccess);
      for i := 0 to |customers|
        invariant table.entries == Run(reg, customers[..i])
      {
        var customer := customers[i];
        var available := FindAvailable(table.entries, customer);
        AssignCustomer(table, available, customer);
        RunPrefixStep(reg, customers, i);
      }
      assert customers[..|customers|] == customers;
      winner := FindWithMaxCustomers(table.entries);
    }

    /** `assign_customer_success_to_customer`: when an agent was selected,
        append the customer's id to that agent's list under its key;
        otherwise leave the registry as it is. */
    method AssignCustomer(table: Table, available: Option<nat>, customer: Customer)
      requires UniqueKeys(table.entries)
      requires available.Some? ==> available.value < |table.entries|
      modifies table
      ensures table.entries == match available
                               case None => old(table.entries)
                               case Some(k) => Assigned(old(table.entries), k, customer.id)
    {
      if available.Some? {
        KeyIndexOfEntry(table.entries, available.value);
        table.Append(table.entries[available.value].id, customer.id);
      }
    }

    /** `build_customer_success_to_customer_hash`: one entry per agent that
        is not away, in input order. */
    method BuildTable() returns (table: Table)
      requires UniqueIds(customerSuccess)
      ensures fresh(table)
      ensures table.entries == Registered(customerSuccess, awayCustomerSuccess)
    {
      table := new Table();
      for i := 0 to |customerSuccess|
        invariant table.entries == Registered(customerSuccess[..i], awayCustomerSuccess)
      {
        var cs := customerSuccess[i];
        assert customerSuccess[..i + 1][..i] == customerSuccess[..i];
        if cs.id !in awayCustomerSuccess {
          forall k | 0 <= k < |table.entries|
            ensures table.entries[k].id != cs.id
          {
            RegisteredMembers(customerSuccess[..i], awayCustomerSuccess, table.entries[k]);
          }
          table.Put(cs.id, cs.score);
        }
      }
      assert customerSuccess[..|customerSuccess|] == customerSuccess;
    }
  }
}
