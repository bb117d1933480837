/**
  The repository's test scenarios, stated as facts about the model.
 */
module Scenarios {
  import opened Wrappers
  import opened Entities
  import opened Registry
  import opened Selection
  import opened Winner
  import opened Balancing

  /** `build_scores` for agents: ids 1, 2, ... in list order. */
  function Agents(scores: seq<int>): (css: seq<CustomerSuccess>)
    ensures |css| == |scores|
    ensures forall i :: 0 <= i < |scores| ==> css[i] == CustomerSuccess(i + 1, scores[i])
  {
    seq(|scores|, i requires 0 <= i < |scores| => CustomerSuccess(i + 1, scores[i]))
  }

  /** `build_scores` for customers: ids 1, 2, ... in list order. */
  function Customers(scores: seq<int>): (cs: seq<Customer>)
    ensures |cs| == |scores|
    ensures forall i :: 0 <= i < |scores| ==> cs[i] == Customer(i + 1, scores[i])
  {
    seq(|scores|, i requires 0 <= i < |scores| => Customer(i + 1, scores[i]))
  }

  /** A customer whom entry `k` may serve, with the lowest eligible score
      and first among equals, is appended to that entry's list. */
  lemma StepTo(before: seq<Load>, c: Customer, k: nat, after: seq<Load>)
    requires k < |before| && Eligible(before[k], c)
    requires forall j :: 0 <= j < |before| && Eligible(before[j], c) ==> before[k].score <= before[j].score
    requires forall j :: 0 <= j < k && Eligible(before[j], c) ==> before[k].score < before[j].score
    requires after == before[k := Load(before[k].id, before[k].score, before[k].customers + [c.id])]
    ensures Step(before, c) == after
  {
    FindAvailableChooses(before, c, k);
    StepAppendsToChosen(before, c, k);
  }

  /** A customer whom no entry may serve leaves the registry as it is. */
  lemma StepUnserved(before: seq<Load>, c: Customer)
    requires forall j :: 0 <= j < |before| ==> !Eligible(before[j], c)
    ensures Step(before, c) == before
  {
  }

  /** One iteration of the main loop, as a `Step` on the registry so far. */
  lemma RunChain(reg: seq<Load>, cs: seq<Customer>, i: nat, before: seq<Load>, after: seq<Load>)
    requires i < |cs| && Run(reg, cs[..i]) == before && Step(before, cs[i]) == after
    ensures Run(reg, cs[..i + 1]) == after
  {
    RunPrefixStep(reg, cs, i);
  }

  /** The registry built from scenario one's first agent. */
  lemma ScenarioOneRegistry1(css: seq<CustomerSuccess>, away: seq<int>)
    requires css == Agents([60, 20, 95, 75]) && away == [2, 4]
    ensures Registered(css[..1], away) == [Load(1, 60, [])]
  {
    assert css[..0] == [];
    RegisteredPrefixStep(css, 0, away);
  }

  /** The registry built from scenario one's first 2 agents. */
  lemma ScenarioOneRegistry2(css: seq<CustomerSuccess>, away: seq<int>)
    requires css == Agents([60, 20, 95, 75]) && away == [2, 4]
    ensures Registered(css[..2], away) == [Load(1, 60, [])]
  {
    ScenarioOneRegistry1(css, away);
    RegisteredPrefixStep(css, 1, away);
  }

  /** The registry built from scenario one's first 3 agents. */
  lemma ScenarioOneRegistry3(css: seq<CustomerSuccess>, away: seq<int>)
    requires css == Agents([60, 20, 95, 75]) && away == [2, 4]
    ensures Registered(css[..3], away) == [Load(1, 60, []), Load(3, 95, [])]
  {
    ScenarioOneRegistry2(css, away);
    RegisteredPrefixStep(css, 2, away);
  }

  /** The registry built for scenario one. */
  lemma ScenarioOneRegistry(css: seq<CustomerSuccess>, away: seq<int>)
    requires css == Agents([60, 20, 95, 75]) && away == [2, 4]
    ensures Registered(css, away) == [Load(1, 60, []), Load(3, 95, [])]
  {
    ScenarioOneRegistry3(css, away);
    RegisteredPrefixStep(css, 3, away);
    assert css[..4] == css;
  }

  /** Scenario one's customer 1 in the main loop. */
  lemma ScenarioOneStep1(before: seq<Load>, c: Customer, after: seq<Load>)
    requires before == [Load(1, 60, []), Load(3, 95, [])] && c == Customer(1, 90) && after == [Load(1, 60, []), Load(3, 95, [1])]
    ensures Step(before, c) == after
  {
    assert [] + [1] == [1];
    StepTo(before, c, 1, after);
  }

  /** Scenario one's customer 2 in the main loop. */
  lemma ScenarioOneStep2(before: seq<Load>, c: Customer, after: seq<Load>)
    requires before == [Load(1, 60, []), Load(3, 95, [1])] && c == Customer(2, 20) && after == [Load(1, 60, [2]), Load(3, 95, [1])]
    ensures Step(before, c) == after
  {
    assert [] + [2] == [2];
    StepTo(before, c, 0, after);
  }

  /** Scenario one's customer 3 in the main loop. */
  lemma ScenarioOneStep3(before: seq<Load>, c: Customer, after: seq<Load>)
    requires before == [Load(1, 60, [2]), Load(3, 95, [1])] && c == Customer(3, 70) && after == [Load(1, 60, [2]), Load(3, 95, [1, 3])]
    ensures Step(before, c) == after
  {
    assert [1] + [3] == [1, 3];
    StepTo(before, c, 1, after);
  }

  /** Scenario one's customer 4 in the main loop. */
  lemma ScenarioOneStep4(before: seq<Load>, c: Customer, after: seq<Load>)
    requires before == [Load(1, 60, [2]), Load(3, 95, [1, 3])] && c == Customer(4, 40) && after == [Load(1, 60, [2, 4]), Load(3, 95, [1, 3])]
    ensures Step(before, c) == after
  {
    assert [2] + [4] == [2, 4];
    StepTo(before, c, 0, after);
  }

  /** Scenario one's customer 5 in the main loop. */
  lemma ScenarioOneStep5(before: seq<Load>, c: Customer, after: seq<Load>)
    requires before == [Load(1, 60, [2, 4]), Load(3, 95, [1, 3])] && c == Customer(5, 60) && after == [Load(1, 60, [2, 4, 5]), Load(3, 95, [1, 3])]
    ensures Step(before, c) == after
  {
    assert [2, 4] + [5] == [2, 4, 5];
    StepTo(before, c, 0, after);
  }

  /** Scenario one's customer 6 in the main loop. */
  lemma ScenarioOneStep6(before: seq<Load>, c: Customer, after: seq<Load>)
    requires before == [Load(1, 60, [2, 4, 5]), Load(3, 95, [1, 3])] && c == Customer(6, 10) && after == [Load(1, 60, [2, 4, 5, 6]), Load(3, 95, [1, 3])]
    ensures Step(before, c) == after
  {
    assert [2, 4, 5] + [6] == [2, 4, 5, 6];
    StepTo(before, c, 0, after);
  }

  /** The registry after scenario one's first customer. */
  lemma ScenarioOneRun1(reg: seq<Load>, cs: seq<Customer>)
    requires reg == [Load(1, 60, []), Load(3, 95, [])] && cs == Customers([90, 20, 70, 40, 60, 10])
    ensures Run(reg, cs[..1]) == [Load(1, 60, []), Load(3, 95, [1])]
  {
    assert cs[..0] == [];
    ScenarioOneStep1([Load(1, 60, []), Load(3, 95, [])], cs[0], [Load(1, 60, []), Load(3, 95, [1])]);
    RunChain(reg, cs, 0, [Load(1, 60, []), Load(3, 95, [])], [Load(1, 60, []), Load(3, 95, [1])]);
  }

  /** The registry after scenario one's first 2 customers. */
  lemma ScenarioOneRun2(reg: seq<Load>, cs: seq<Customer>)
    requires reg == [Load(1, 60, []), Load(3, 95, [])] && cs == Customers([90, 20, 70, 40, 60, 10])
    ensures Run(reg, cs[..2]) == [Load(1, 60, [2]), Load(3, 95, [1])]
  {
    ScenarioOneRun1(reg, cs);
    ScenarioOneStep2([Load(1, 60, []), Load(3, 95, [1])], cs[1], [Load(1, 60, [2]), Load(3, 95, [1])]);
    RunChain(reg, cs, 1, [Load(1, 60, []), Load(3, 95, [1])], [Load(1, 60, [2]), Load(3, 95, [1])]);
  }

  /** The registry after scenario one's first 3 customers. */
  lemma ScenarioOneRun3(reg: seq<Load>, cs: seq<Customer>)
    requires reg == [Load(1, 60, []), Load(3, 95, [])] && cs == Customers([90, 20, 70, 40, 60, 10])
    ensures Run(reg, cs[..3]) == [Load(1, 60, [2]), Load(3, 95, [1, 3])]
  {
    ScenarioOneRun2(reg, cs);
    ScenarioOneStep3([Load(1, 60, [2]), Load(3, 95, [1])], cs[2], [Load(1, 60, [2]), Load(3, 95, [1, 3])]);
    RunChain(reg, cs, 2, [Load(1, 60, [2]), Load(3, 95, [1])], [Load(1, 60, [2]), Load(3, 95, [1, 3])]);
  }

  /** The registry after scenario one's first 4 customers. */
  lemma ScenarioOneRun4(reg: seq<Load>, cs: seq<Customer>)
    requires reg == [Load(1, 60, []), Load(3, 95, [])] && cs == Customers([90, 20, 70, 40, 60, 10])
    ensures Run(reg, cs[..4]) == [Load(1, 60, [2, 4]), Load(3, 95, [1, 3])]
  {
    ScenarioOneRun3(reg, cs);
    ScenarioOneStep4([Load(1, 60, [2]), Load(3, 95, [1, 3])], cs[3], [Load(1, 60, [2, 4]), Load(3, 95, [1, 3])]);
    RunChain(reg, cs, 3, [Load(1, 60, [2]), Load(3, 95, [1, 3])], [Load(1, 60, [2, 4]), Load(3, 95, [1, 3])]);
  }

  /** The registry after scenario one's first 5 customers. */
  lemma ScenarioOneRun5(reg: seq<Load>, cs: seq<Customer>)
    requires reg == [Load(1, 60, []), Load(3, 95, [])] && cs == Customers([90, 20, 70, 40, 60, 10])
    ensures Run(reg, cs[..5]) == [Load(1, 60, [2, 4, 5]), Load(3, 95, [1, 3])]
  {
    ScenarioOneRun4(reg, cs);
    ScenarioOneStep5([Load(1, 60, [2, 4]), Load(3, 95, [1, 3])], cs[4], [Load(1, 60, [2, 4, 5]), Load(3, 95, [1, 3])]);
    RunChain(reg, cs, 4, [Load(1, 60, [2, 4]), Load(3, 95, [1, 3])], [Load(1, 60, [2, 4, 5]), Load(3, 95, [1, 3])]);
  }

  /** The registry after scenario one's first 6 customers. */
  lemma ScenarioOneRun6(reg: seq<Load>, cs: seq<Customer>)
    requires reg == [Load(1, 60, []), Load(3, 95, [])] && cs == Customers([90, 20, 70, 40, 60, 10])
    ensures Run(reg, cs[..6]) == [Load(1, 60, [2, 4, 5, 6]), Load(3, 95, [1, 3])]
  {
    ScenarioOneRun5(reg, cs);
    ScenarioOneStep6([Load(1, 60, [2, 4, 5]), Load(3, 95, [1, 3])], cs[5], [Load(1, 60, [2, 4, 5, 6]), Load(3, 95, [1, 3])]);
    RunChain(reg, cs, 5, [Load(1, 60, [2, 4, 5]), Load(3, 95, [1, 3])], [Load(1, 60, [2, 4, 5, 6]), Load(3, 95, [1, 3])]);
  }

  /** The registry after scenario one's customers are processed. */
  lemma ScenarioOneRun(reg: seq<Load>, cs: seq<Customer>)
    requires reg == [Load(1, 60, []), Load(3, 95, [])] && cs == Customers([90, 20, 70, 40, 60, 10])
    ensures Run(reg, cs) == [Load(1, 60, [2, 4, 5, 6]), Load(3, 95, [1, 3])]
  {
    ScenarioOneRun6(reg, cs);
    assert cs[..6] == cs;
  }

  /** The winner of scenario one's final registry. */
  lemma ScenarioOneWinner(reg: seq<Load>)
    requires reg == [Load(1, 60, [2, 4, 5, 6]), Load(3, 95, [1, 3])]
    ensures FindWithMaxCustomers(reg) == 1
  {
    WinnerIsUniqueMaximum(reg, 0);
  }

  /** Scenario one: agent 1 ends with four customers, agent 3 with two, so agent 1 wins (lines 66-73). */
  lemma ScenarioOne(css: seq<CustomerSuccess>, cs: seq<Customer>, away: seq<int>)
    requires css == Agents([60, 20, 95, 75])
    requires cs == Customers([90, 20, 70, 40, 60, 10])
    requires away == [2, 4]
    ensures HasAvailable(css, away)
    ensures Balance(css, cs, away) == 1
  {
    assert css[0].id !in away;
    ScenarioOneRegistry(css, away);
    ScenarioOneRun(Registered(css, away), cs);
    ScenarioOneWinner(Run(Registered(css, away), cs));
  }

  /** The registry built from scenario two's first agent. */
  lemma ScenarioTwoRegistry1(css: seq<CustomerSuccess>, away: seq<int>)
    requires css == Agents([11, 21, 31, 3, 4, 5]) && away == []
    ensures Registered(css[..1], away) == [Load(1, 11, [])]
  {
    assert css[..0] == [];
    RegisteredPrefixStep(css, 0, away);
  }

  /** The registry built from scenario two's first 2 agents. */
  lemma ScenarioTwoRegistry2(css: seq<CustomerSuccess>, away: seq<int>)
    requires css == Agents([11, 21, 31, 3, 4, 5]) && away == []
    ensures Registered(css[..2], away) == [Load(1, 11, []), Load(2, 21, [])]
  {
    ScenarioTwoRegistry1(css, away);
    RegisteredPrefixStep(css, 1, away);
  }

  /** The registry built from scenario two's first 3 agents. */
  lemma ScenarioTwoRegistry3(css: seq<CustomerSuccess>, away: seq<int>)
    requires css == Agents([11, 21, 31, 3, 4, 5]) && away == []
    ensures Registered(css[..3], away) == [Load(1, 11, []), Load(2, 21, []), Load(3, 31, [])]
  {
    ScenarioTwoRegistry2(css, away);
    RegisteredPrefixStep(css, 2, away);
  }

  /** The registry built from scenario two's first 4 agents. */
  lemma ScenarioTwoRegistry4(css: seq<CustomerSuccess>, away: seq<int>)
    requires css == Agents([11, 21, 31, 3, 4, 5]) && away == []
    ensures Registered(css[..4], away) == [Load(1, 11, []), Load(2, 21, []), Load(3, 31, []), Load(4, 3, [])]
  {
    ScenarioTwoRegistry3(css, away);
    RegisteredPrefixStep(css, 3, away);
  }

  /** The registry built from scenario two's first 5 agents. */
  lemma ScenarioTwoRegistry5(css: seq<CustomerSuccess>, away: seq<int>)
    requires css == Agents([11, 21, 31, 3, 4, 5]) && away == []
    ensures Registered(css[..5], away) == [Load(1, 11, []), Load(2, 21, []), Load(3, 31, []), Load(4, 3, []), Load(5, 4, [])]
  {
    ScenarioTwoRegistry4(css, away);
    RegisteredPrefixStep(css, 4, away);
  }

  /** The registry built for scenario two. */
  lemma ScenarioTwoRegistry(css: seq<CustomerSuccess>, away: seq<int>)
    requires css == Agents([11, 21, 31, 3, 4, 5]) && away == []
    ensures Registered(css, away) == [Load(1, 11, []), Load(2, 21, []), Load(3, 31, []), Load(4, 3, []), Load(5, 4, []), Load(6, 5, [])]
  {
    ScenarioTwoRegistry5(css, away);
    RegisteredPrefixStep(css, 5, away);
    assert css[..6] == css;
  }

  /** Scenario two's customer 1 in the main loop. */
  lemma ScenarioTwoStep1(before: seq<Load>, c: Customer, after: seq<Load>)
    requires before == [Load(1, 11, []), Load(2, 21, []), Load(3, 31, []), Load(4, 3, []), Load(5, 4, []), Load(6, 5, [])] && c == Customer(1, 10) && after == [Load(1, 11, [1]), Load(2, 21, []), Load(3, 31, []), Load(4, 3, []), Load(5, 4, []), Load(6, 5, [])]
    ensures Step(before, c) == after
  {
    assert [] + [1] == [1];
    StepTo(before, c, 0, after);
  }

  /** Scenario two's customer 2 in the main loop. */
  lemma ScenarioTwoStep2(before: seq<Load>, c: Customer, after: seq<Load>)
    requires before == [Load(1, 11, [1]), Load(2, 21, []), Load(3, 31, []), Load(4, 3, []), Load(5, 4, []), Load(6, 5, [])] && c == Customer(2, 10) && after == [Load(1, 11, [1, 2]), Load(2, 21, []), Load(3, 31, []), Load(4, 3, []), Load(5, 4, []), Load(6, 5, [])]
    ensures Step(before, c) == after
  {
    assert [1] + [2] == [1, 2];
    StepTo(before, c, 0, after);
  }

  /** Scenario two's customer 3 in the main loop. */
  lemma ScenarioTwoStep3(before: seq<Load>, c: Customer, after: seq<Load>)
    requires before == [Load(1, 11, [1, 2]), Load(2, 21, []), Load(3, 31, []), Load(4, 3, []), Load(5, 4, []), Load(6, 5, [])] && c == Customer(3, 10) && after == [Load(1, 11, [1, 2, 3]), Load(2, 21, []), Load(3, 31, []), Load(4, 3, []), Load(5, 4, []), Load(6, 5, [])]
    ensures Step(before, c) == after
  {
    assert [1, 2] + [3] == [1, 2, 3];
    StepTo(before, c, 0, after);
  }

  /** Scenario two's customer 4 in the main loop. */
  lemma ScenarioTwoStep4(before: seq<Load>, c: Customer, after: seq<Load>)
    requires before == [Load(1, 11, [1, 2, 3]), Load(2, 21, []), Load(3, 31, []), Load(4, 3, []), Load(5, 4, []), Load(6, 5, [])] && c == Customer(4, 20) && after == [Load(1, 11, [1, 2, 3]), Load(2, 21, [4]), Load(3, 31, []), Load(4, 3, []), Load(5, 4, []), Load(6, 5, [])]
    ensures Step(before, c) == after
  {
    assert [] + [4] == [4];
    StepTo(before, c, 1, after);
  }

  /** Scenario two's customer 5 in the main loop. */
  lemma ScenarioTwoStep5(before: seq<Load>, c: Customer, after: seq<Load>)
    requires before == [Load(1, 11, [1, 2, 3]), Load(2, 21, [4]), Load(3, 31, []), Load(4, 3, []), Load(5, 4, []), Load(6, 5, [])] && c == Customer(5, 20) && after == [Load(1, 11, [1, 2, 3]), Load(2, 21, [4, 5]), Load(3, 31, []), Load(4, 3, []), Load(5, 4, []), Load(6, 5, [])]
    ensures Step(before, c) == after
  {
    assert [4] + [5] == [4, 5];
    StepTo(before, c, 1, after);
  }

  /** Scenario two's customer 6 in the main loop. */
  lemma ScenarioTwoStep6(before: seq<Load>, c: Customer, after: seq<Load>)
    requires before == [Load(1, 11, [1, 2, 3]), Load(2, 21, [4, 5]), Load(3, 31, []), Load(4, 3, []), Load(5, 4, []), Load(6, 5, [])] && c == Customer(6, 30) && after == [Load(1, 11, [1, 2, 3]), Load(2, 21, [4, 5]), Load(3, 31, [6]), Load(4, 3, []), Load(5, 4, []), Load(6, 5, [])]
    ensures Step(before, c) == after
  {
    assert [] + [6] == [6];
    StepTo(before, c, 2, after);
  }

  /** Scenario two's customer 7 in the main loop. */
  lemma ScenarioTwoStep7(before: seq<Load>, c: Customer, after: seq<Load>)
    requires before == [Load(1, 11, [1, 2, 3]), Load(2, 21, [4, 5]), Load(3, 31, [6]), Load(4, 3, []), Load(5, 4, []), Load(6, 5, [])] && c == Customer(7, 30) && after == [Load(1, 11, [1, 2, 3]), Load(2, 21, [4, 5]), Load(3, 31, [6, 7]), Load(4, 3, []), Load(5, 4, []), Load(6, 5, [])]
    ensures Step(before, c) == after
  {
    assert [6] + [7] == [6, 7];
    StepTo(before, c, 2, after);
  }

  /** Scenario two's customer 8 in the main loop. */
  lemma ScenarioTwoStep8(before: seq<Load>, c: Customer, after: seq<Load>)
    requires before == [Load(1, 11, [1, 2, 3]), Load(2, 21, [4, 5]), Load(3, 31, [6, 7]), Load(4, 3, []), Load(5, 4, []), Load(6, 5, [])] && c == Customer(8, 30) && after == [Load(1, 11, [1, 2, 3]), Load(2, 21, [4, 5]), Load(3, 31, [6, 7, 8]), Load(4, 3, []), Load(5, 4, []), Load(6, 5, [])]
    ensures Step(before, c) == after
  {
    assert [6, 7] + [8] == [6, 7, 8];
    StepTo(before, c, 2, after);
  }

  /** Scenario two's customer 9 in the main loop. */
  lemma ScenarioTwoStep9(before: seq<Load>, c: Customer, after: seq<Load>)
    requires before == [Load(1, 11, [1, 2, 3]), Load(2, 21, [4, 5]), Load(3, 31, [6, 7, 8]), Load(4, 3, []), Load(5, 4, []), Load(6, 5, [])] && c == Customer(9, 20) && after == [Load(1, 11, [1, 2, 3]), Load(2, 21, [4, 5, 9]), Load(3, 31, [6, 7, 8]), Load(4, 3, []), Load(5, 4, []), Load(6, 5, [])]
    ensures Step(before, c) == after
  {
    assert [4, 5] + [9] == [4, 5, 9];
    StepTo(before, c, 1, after);
  }

  /** Scenario two's customer 10 in the main loop. */
  lemma ScenarioTwoStep10(before: seq<Load>, c: Customer, after: seq<Load>)
    requires before == [Load(1, 11, [1, 2, 3]), Load(2, 21, [4, 5, 9]), Load(3, 31, [6, 7, 8]), Load(4, 3, []), Load(5, 4, []), Load(6, 5, [])] && c == Customer(10, 60) && after == before
    ensures Step(before, c) == after
  {
    StepUnserved(before, c);
  }

  /** The registry after scenario two's first customer. */
  lemma ScenarioTwoRun1(reg: seq<Load>, cs: seq<Customer>)
    requires reg == [Load(1, 11, []), Load(2, 21, []), Load(3, 31, []), Load(4, 3, []), Load(5, 4, []), Load(6, 5, [])] && cs == Customers([10, 10, 10, 20, 20, 30, 30, 30, 20, 60])
    ensures Run(reg, cs[..1]) == [Load(1, 11, [1]), Load(2, 21, []), Load(3, 31, []), Load(4, 3, []), Load(5, 4, []), Load(6, 5, [])]
  {
    assert cs[..0] == [];
    ScenarioTwoStep1([Load(1, 11, []), Load(2, 21, []), Load(3, 31, []), Load(4, 3, []), Load(5, 4, []), Load(6, 5, [])], cs[0], [Load(1, 11, [1]), Load(2, 21, []), Load(3, 31, []), Load(4, 3, []), Load(5, 4, []), Load(6, 5, [])]);
    RunChain(reg, cs, 0, [Load(1, 11, []), Load(2, 21, []), Load(3, 31, []), Load(4, 3, []), Load(5, 4, []), Load(6, 5, [])], [Load(1, 11, [1]), Load(2, 21, []), Load(3, 31, []), Load(4, 3, []), Load(5, 4, []), Load(6, 5, [])]);
  }

  /** The registry after scenario two's first 2 customers. */
  lemma ScenarioTwoRun2(reg: seq<Load>, cs: seq<Customer>)
    requires reg == [Load(1, 11, []), Load(2, 21, []), Load(3, 31, []), Load(4, 3, []), Load(5, 4, []), Load(6, 5, [])] && cs == Customers([10, 10, 10, 20, 20, 30, 30, 30, 20, 60])
    ensures Run(reg, cs[..2]) == [Load(1, 11, [1, 2]), Load(2, 21, []), Load(3, 31, []), Load(4, 3, []), Load(5, 4, []), Load(6, 5, [])]
  {
    ScenarioTwoRun1(reg, cs);
    ScenarioTwoStep2([Load(1, 11, [1]), Load(2, 21, []), Load(3, 31, []), Load(4, 3, []), Load(5, 4, []), Load(6, 5, [])], cs[1], [Load(1, 11, [1, 2]), Load(2, 21, []), Load(3, 31, []), Load(4, 3, []), Load(5, 4, []), Load(6, 5, [])]);
    RunChain(reg, cs, 1, [Load(1, 11, [1]), Load(2, 21, []), Load(3, 31, []), Load(4, 3, []), Load(5, 4, []), Load(6, 5, [])], [Load(1, 11, [1, 2]), Load(2, 21, []), Load(3, 31, []), Load(4, 3, []), Load(5, 4, []), Load(6, 5, [])]);
  }

  /** The registry after scenario two's first 3 customers. */
  lemma ScenarioTwoRun3(reg: seq<Load>, cs: seq<Customer>)
    requires reg == [Load(1, 11, []), Load(2, 21, []), Load(3, 31, []), Load(4, 3, []), Load(5, 4, []), Load(6, 5, [])] && cs == Customers([10, 10, 10, 20, 20, 30, 30, 30, 20, 60])
    ensures Run(reg, cs[..3]) == [Load(1, 11, [1, 2, 3]), Load(2, 21, []), Load(3, 31, []), Load(4, 3, []), Load(5, 4, []), Load(6, 5, [])]
  {
    ScenarioTwoRun2(reg, cs);
    ScenarioTwoStep3([Load(1, 11, [1, 2]), Load(2, 21, []), Load(3, 31, []), Load(4, 3, []), Load(5, 4, []), Load(6, 5, [])], cs[2], [Load(1, 11, [1, 2, 3]), Load(2, 21, []), Load(3, 31, []), Load(4, 3, []), Load(5, 4, []), Load(6, 5, [])]);
    RunChain(reg, cs, 2, [Load(1, 11, [1, 2]), Load(2, 21, []), Load(3, 31, []), Load(4, 3, []), Load(5, 4, []), Load(6, 5, [])], [Load(1, 11, [1, 2, 3]), Load(2, 21, []), Load(3, 31, []), Load(4, 3, []), Load(5, 4, []), Load(6, 5, [])]);
  }

  /** The registry after scenario two's first 4 customers. */
  lemma ScenarioTwoRun4(reg: seq<Load>, cs: seq<Customer>)
    requires reg == [Load(1, 11, []), Load(2, 21, []), Load(3, 31, []), Load(4, 3, []), Load(5, 4, []), Load(6, 5, [])] && cs == Customers([10, 10, 10, 20, 20, 30, 30, 30, 20, 60])
    ensures Run(reg, cs[..4]) == [Load(1, 11, [1, 2, 3]), Load(2, 21, [4]), Load(3, 31, []), Load(4, 3, []), Load(5, 4, []), Load(6, 5, [])]
  {
    ScenarioTwoRun3(reg, cs);
    ScenarioTwoStep4([Load(1, 11, [1, 2, 3]), Load(2, 21, []), Load(3, 31, []), Load(4, 3, []), Load(5, 4, []), Load(6, 5, [])], cs[3], [Load(1, 11, [1, 2, 3]), Load(2, 21, [4]), Load(3, 31, []), Load(4, 3, []), Load(5, 4, []), Load(6, 5, [])]);
    RunChain(reg, cs, 3, [Load(1, 11, [1, 2, 3]), Load(2, 21, []), Load(3, 31, []), Load(4, 3, []), Load(5, 4, []), Load(6, 5, [])], [Load(1, 11, [1, 2, 3]), Load(2, 21, [4]), Load(3, 31, []), Load(4, 3, []), Load(5, 4, []), Load(6, 5, [])]);
  }

  /** The registry after scenario two's first 5 customers. */
  lemma ScenarioTwoRun5(reg: seq<Load>, cs: seq<Customer>)
    requires reg == [Load(1, 11, []), Load(2, 21, []), Load(3, 31, []), Load(4, 3, []), Load(5, 4, []), Load(6, 5, [])] && cs == Customers([10, 10, 10, 20, 20, 30, 30, 30, 20, 60])
    ensures Run(reg, cs[..5]) == [Load(1, 11, [1, 2, 3]), Load(2, 21, [4, 5]), Load(3, 31, []), Load(4, 3, []), Load(5, 4, []), Load(6, 5, [])]
  {
    ScenarioTwoRun4(reg, cs);
    ScenarioTwoStep5([Load(1, 11, [1, 2, 3]), Load(2, 21, [4]), Load(3, 31, []), Load(4, 3, []), Load(5, 4, []), Load(6, 5, [])], cs[4], [Load(1, 11, [1, 2, 3]), Load(2, 21, [4, 5]), Load(3, 31, []), Load(4, 3, []), Load(5, 4, []), Load(6, 5, [])]);
    RunChain(reg, cs, 4, [Load(1, 11, [1, 2, 3]), Load(2, 21, [4]), Load(3, 31, []), Load(4, 3, []), Load(5, 4, []), Load(6, 5, [])], [Load(1, 11, [1, 2, 3]), Load(2, 21, [4, 5]), Load(3, 31, []), Load(4, 3, []), Load(5, 4, []), Load(6, 5, [])]);
  }

  /** The registry after scenario two's first 6 customers. */
  lemma ScenarioTwoRun6(reg: seq<Load>, cs: seq<Customer>)
    requires reg == [Load(1, 11, []), Load(2, 21, []), Load(3, 31, []), Load(4, 3, []), Load(5, 4, []), Load(6, 5, [])] && cs == Customers([10, 10, 10, 20, 20, 30, 30, 30, 20, 60])
    ensures Run(reg, cs[..6]) == [Load(1, 11, [1, 2, 3]), Load(2, 21, [4, 5]), Load(3, 31, [6]), Load(4, 3, []), Load(5, 4, []), Load(6, 5, [])]
  {
    ScenarioTwoRun5(reg, cs);
    ScenarioTwoStep6([Load(1, 11, [1, 2, 3]), Load(2, 21, [4, 5]), Load(3, 31, []), Load(4, 3, []), Load(5, 4, []), Load(6, 5, [])], cs[5], [Load(1, 11, [1, 2, 3]), Load(2, 21, [4, 5]), Load(3, 31, [6]), Load(4, 3, []), Load(5, 4, []), Load(6, 5, [])]);
    RunChain(reg, cs, 5, [Load(1, 11, [1, 2, 3]), Load(2, 21, [4, 5]), Load(3, 31, []), Load(4, 3, []), Load(5, 4, []), Load(6, 5, [])], [Load(1, 11, [1, 2, 3]), Load(2, 21, [4, 5]), Load(3, 31, [6]), Load(4, 3, []), Load(5, 4, []), Load(6, 5, [])]);
  }

  /** The registry after scenario two's first 7 customers. */
  lemma ScenarioTwoRun7(reg: seq<Load>, cs: seq<Customer>)
    requires reg == [Load(1, 11, []), Load(2, 21, []), Load(3, 31, []), Load(4, 3, []), Load(5, 4, []), Load(6, 5, [])] && cs == Customers([10, 10, 10, 20, 20, 30, 30, 30, 20, 60])
    ensures Run(reg, cs[..7]) == [Load(1, 11, [1, 2, 3]), Load(2, 21, [4, 5]), Load(3, 31, [6, 7]), Load(4, 3, []), Load(5, 4, []), Load(6, 5, [])]
  {
    ScenarioTwoRun6(reg, cs);
    ScenarioTwoStep7([Load(1, 11, [1, 2, 3]), Load(2, 21, [4, 5]), Load(3, 31, [6]), Load(4, 3, []), Load(5, 4, []), Load(6, 5, [])], cs[6], [Load(1, 11, [1, 2, 3]), Load(2, 21, [4, 5]), Load(3, 31, [6, 7]), Load(4, 3, []), Load(5, 4, []), Load(6, 5, [])]);
    RunChain(reg, cs, 6, [Load(1, 11, [1, 2, 3]), Load(2, 21, [4, 5]), Load(3, 31, [6]), Load(4, 3, []), Load(5, 4, []), Load(6, 5, [])], [Load(1, 11, [1, 2, 3]), Load(2, 21, [4, 5]), Load(3, 31, [6, 7]), Load(4, 3, []), Load(5, 4, []), Load(6, 5, [])]);
  }

  /** The registry after scenario two's first 8 customers. */
  lemma ScenarioTwoRun8(reg: seq<Load>, cs: seq<Customer>)
    requires reg == [Load(1, 11, []), Load(2, 21, []), Load(3, 31, []), Load(4, 3, []), Load(5, 4, []), Load(6, 5, [])] && cs == Customers([10, 10, 10, 20, 20, 30, 30, 30, 20, 60])
    ensures Run(reg, cs[..8]) == [Load(1, 11, [1, 2, 3]), Load(2, 21, [4, 5]), Load(3, 31, [6, 7, 8]), Load(4, 3, []), Load(5, 4, []), Load(6, 5, [])]
  {
    ScenarioTwoRun7(reg, cs);
    ScenarioTwoStep8([Load(1, 11, [1, 2, 3]), Load(2, 21, [4, 5]), Load(3, 31, [6, 7]), Load(4, 3, []), Load(5, 4, []), Load(6, 5, [])], cs[7], [Load(1, 11, [1, 2, 3]), Load(2, 21, [4, 5]), Load(3, 31, [6, 7, 8]), Load(4, 3, []), Load(5, 4, []), Load(6, 5, [])]);
    RunChain(reg, cs, 7, [Load(1, 11, [1, 2, 3]), Load(2, 21, [4, 5]), Load(3, 31, [6, 7]), Load(4, 3, []), Load(5, 4, []), Load(6, 5, [])], [Load(1, 11, [1, 2, 3]), Load(2, 21, [4, 5]), Load(3, 31, [6, 7, 8]), Load(4, 3, []), Load(5, 4, []), Load(6, 5, [])]);
  }

  /** The registry after scenario two's first 9 customers. */
  lemma ScenarioTwoRun9(reg: seq<Load>, cs: seq<Customer>)
    requires reg == [Load(1, 11, []), Load(2, 21, []), Load(3, 31, []), Load(4, 3, []), Load(5, 4, []), Load(6, 5, [])] && cs == Customers([10, 10, 10, 20, 20, 30, 30, 30, 20, 60])
    ensures Run(reg, cs[..9]) == [Load(1, 11, [1, 2, 3]), Load(2, 21, [4, 5, 9]), Load(3, 31, [6, 7, 8]), Load(4, 3, []), Load(5, 4, []), Load(6, 5, [])]
  {
    ScenarioTwoRun8(reg, cs);
    ScenarioTwoStep9([Load(1, 11, [1, 2, 3]), Load(2, 21, [4, 5]), Load(3, 31, [6, 7, 8]), Load(4, 3, []), Load(5, 4, []), Load(6, 5, [])], cs[8], [Load(1, 11, [1, 2, 3]), Load(2, 21, [4, 5, 9]), Load(3, 31, [6, 7, 8]), Load(4, 3, []), Load(5, 4, []), Load(6, 5, [])]);
    RunChain(reg, cs, 8, [Load(1, 11, [1, 2, 3]), Load(2, 21, [4, 5]), Load(3, 31, [6, 7, 8]), Load(4, 3, []), Load(5, 4, []), Load(6, 5, [])], [Load(1, 11, [1, 2, 3]), Load(2, 21, [4, 5, 9]), Load(3, 31, [6, 7, 8]), Load(4, 3, []), Load(5, 4, []), Load(6, 5, [])]);
  }

  /** The registry after scenario two's first 10 customers. */
  lemma ScenarioTwoRun10(reg: seq<Load>, cs: seq<Customer>)
    requires reg == [Load(1, 11, []), Load(2, 21, []), Load(3, 31, []), Load(4, 3, []), Load(5, 4, []), Load(6, 5, [])] && cs == Customers([10, 10, 10, 20, 20, 30, 30, 30, 20, 60])
    ensures Run(reg, cs[..10]) == [Load(1, 11, [1, 2, 3]), Load(2, 21, [4, 5, 9]), Load(3, 31, [6, 7, 8]), Load(4, 3, []), Load(5, 4, []), Load(6, 5, [])]
  {
    ScenarioTwoRun9(reg, cs);
    ScenarioTwoStep10([Load(1, 11, [1, 2, 3]), Load(2, 21, [4, 5, 9]), Load(3, 31, [6, 7, 8]), Load(4, 3, []), Load(5, 4, []), Load(6, 5, [])], cs[9], [Load(1, 11, [1, 2, 3]), Load(2, 21, [4, 5, 9]), Load(3, 31, [6, 7, 8]), Load(4, 3, []), Load(5, 4, []), Load(6, 5, [])]);
    RunChain(reg, cs, 9, [Load(1, 11, [1, 2, 3]), Load(2, 21, [4, 5, 9]), Load(3, 31, [6, 7, 8]), Load(4, 3, []), Load(5, 4, []), Load(6, 5, [])], [Load(1, 11, [1, 2, 3]), Load(2, 21, [4, 5, 9]), Load(3, 31, [6, 7, 8]), Load(4, 3, []), Load(5, 4, []), Load(6, 5, [])]);
  }

  /** The registry after scenario two's customers are processed. */
  lemma ScenarioTwoRun(reg: seq<Load>, cs: seq<Customer>)
    requires reg == [Load(1, 11, []), Load(2, 21, []), Load(3, 31, []), Load(4, 3, []), Load(5, 4, []), Load(6, 5, [])] && cs == Customers([10, 10, 10, 20, 20, 30, 30, 30, 20, 60])
    ensures Run(reg, cs) == [Load(1, 11, [1, 2, 3]), Load(2, 21, [4, 5, 9]), Load(3, 31, [6, 7, 8]), Load(4, 3, []), Load(5, 4, []), Load(6, 5, [])]
  {
    ScenarioTwoRun10(reg, cs);
    assert cs[..10] == cs;
  }

  /** The winner of scenario two's final registry. */
  lemma ScenarioTwoWinner(reg: seq<Load>)
    requires reg == [Load(1, 11, [1, 2, 3]), Load(2, 21, [4, 5, 9]), Load(3, 31, [6, 7, 8]), Load(4, 3, []), Load(5, 4, []), Load(6, 5, [])]
    ensures FindWithMaxCustomers(reg) == 0
  {
    WinnerOnTie(reg, 0, 1);
  }

  /** Scenario two: agents 1, 2 and 3 end with three customers each, so 0 (lines 75-82). */
  lemma ScenarioTwo(css: seq<CustomerSuccess>, cs: seq<Customer>, away: seq<int>)
    requires css == Agents([11, 21, 31, 3, 4, 5])
    requires cs == Customers([10, 10, 10, 20, 20, 30, 30, 30, 20, 60])
    requires away == []
    ensures HasAvailable(css, away)
    ensures Balance(css, cs, away) == 0
  {
    assert css[0].id !in away;
    ScenarioTwoRegistry(css, away);
    ScenarioTwoRun(Registered(css, away), cs);
    ScenarioTwoWinner(Run(Registered(css, away), cs));
  }

  /** The registry built from scenario six's first agent. */
  lemma ScenarioSixRegistry1(css: seq<CustomerSuccess>, away: seq<int>)
    requires css == Agents([100, 99, 88, 3, 4, 5]) && away == [1, 3, 2]
    ensures Registered(css[..1], away) == []
  {
    assert css[..0] == [];
    RegisteredPrefixStep(css, 0, away);
  }

  /** The registry built from scenario six's first 2 agents. */
  lemma ScenarioSixRegistry2(css: seq<CustomerSuccess>, away: seq<int>)
    requires css == Agents([100, 99, 88, 3, 4, 5]) && away == [1, 3, 2]
    ensures Registered(css[..2], away) == []
  {
    ScenarioSixRegistry1(css, away);
    RegisteredPrefixStep(css, 1, away);
  }

  /** The registry built from scenario six's first 3 agents. */
  lemma ScenarioSixRegistry3(css: seq<CustomerSuccess>, away: seq<int>)
    requires css == Agents([100, 99, 88, 3, 4, 5]) && away == [1, 3, 2]
    ensures Registered(css[..3], away) == []
  {
    ScenarioSixRegistry2(css, away);
    RegisteredPrefixStep(css, 2, away);
  }

  /** The registry built from scenario six's first 4 agents. */
  lemma ScenarioSixRegistry4(css: seq<CustomerSuccess>, away: seq<int>)
    requires css == Agents([100, 99, 88, 3, 4, 5]) && away == [1, 3, 2]
    ensures Registered(css[..4], away) == [Load(4, 3, [])]
  {
    ScenarioSixRegistry3(css, away);
    RegisteredPrefixStep(css, 3, away);
  }

  /** The registry built from scenario six's first 5 agents. */
  lemma ScenarioSixRegistry5(css: seq<CustomerSuccess>, away: seq<int>)
    requires css == Agents([100, 99, 88, 3, 4, 5]) && away == [1, 3, 2]
    ensures Registered(css[..5], away) == [Load(4, 3, []), Load(5, 4, [])]
  {
    ScenarioSixRegistry4(css, away);
    RegisteredPrefixStep(css, 4, away);
  }

  /** The registry built for scenario six. */
  lemma ScenarioSixRegistry(css: seq<CustomerSuccess>, away: seq<int>)
    requires css == Agents([100, 99, 88, 3, 4, 5]) && away == [1, 3, 2]
    ensures Registered(css, away) == [Load(4, 3, []), Load(5, 4, []), Load(6, 5, [])]
  {
    ScenarioSixRegistry5(css, away);
    RegisteredPrefixStep(css, 5, away);
    assert css[..6] == css;
  }

  /** The registry built from scenario seven's first agent. */
  lemma ScenarioSevenRegistry1(css: seq<CustomerSuccess>, away: seq<int>)
    requires css == Agents([100, 99, 88, 3, 4, 5]) && away == [4, 5, 6]
    ensures Registered(css[..1], away) == [Load(1, 100, [])]
  {
    assert css[..0] == [];
    RegisteredPrefixStep(css, 0, away);
  }

  /** The registry built from scenario seven's first 2 agents. */
  lemma ScenarioSevenRegistry2(css: seq<CustomerSuccess>, away: seq<int>)
    requires css == Agents([100, 99, 88, 3, 4, 5]) && away == [4, 5, 6]
    ensures Registered(css[..2], away) == [Load(1, 100, []), Load(2, 99, [])]
  {
    ScenarioSevenRegistry1(css, away);
    RegisteredPrefixStep(css, 1, away);
  }

  /** The registry built from scenario seven's first 3 agents. */
  lemma ScenarioSevenRegistry3(css: seq<CustomerSuccess>, away: seq<int>)
    requires css == Agents([100, 99, 88, 3, 4, 5]) && away == [4, 5, 6]
    ensures Registered(css[..3], away) == [Load(1, 100, []), Load(2, 99, []), Load(3, 88, [])]
  {
    ScenarioSevenRegistry2(css, away);
    RegisteredPrefixStep(css, 2, away);
  }

  /** The registry built from scenario seven's first 4 agents. */
  lemma ScenarioSevenRegistry4(css: seq<CustomerSuccess>, away: seq<int>)
    requires css == Agents([100, 99, 88, 3, 4, 5]) && away == [4, 5, 6]
    ensures Registered(css[..4], away) == [Load(1, 100, []), Load(2, 99, []), Load(3, 88, [])]
  {
    ScenarioSevenRegistry3(css, away);
    RegisteredPrefixStep(css, 3, away);
  }

  /** The registry built from scenario seven's first 5 agents. */
  lemma ScenarioSevenRegistry5(css: seq<CustomerSuccess>, away: seq<int>)
    requires css == Agents([100, 99, 88, 3, 4, 5]) && away == [4, 5, 6]
    ensures Registered(css[..5], away) == [Load(1, 100, []), Load(2, 99, []), Load(3, 88, [])]
  {
    ScenarioSevenRegistry4(css, away);
    RegisteredPrefixStep(css, 4, away);
  }

  /** The registry built for scenario seven. */
  lemma ScenarioSevenRegistry(css: seq<CustomerSuccess>, away: seq<int>)
    requires css == Agents([100, 99, 88, 3, 4, 5]) && away == [4, 5, 6]
    ensures Registered(css, away) == [Load(1, 100, []), Load(2, 99, []), Load(3, 88, [])]
  {
    ScenarioSevenRegistry5(css, away);
    RegisteredPrefixStep(css, 5, away);
    assert css[..6] == css;
  }

  /** Scenario four (lines 94-101): agents scoring 1 to 6 can serve none of
      the customers, so all six tie at zero and the result is 0. */
  lemma ScenarioFour(css: seq<CustomerSuccess>, cs: seq<Customer>, away: seq<int>)
    requires css == Agents([1, 2, 3, 4, 5, 6])
    requires cs == Customers([10, 10, 10, 20, 20, 30, 30, 30, 20, 60])
    requires away == []
    ensures HasAvailable(css, away)
    ensures Balance(css, cs, away) == 0
  {
    assert css[0].id !in away;
    RegisteredNoneAway(css, away);
    var reg := Registered(css, away);
    forall i | 0 <= i < |cs|
      ensures !Qualifies(reg, cs[i])
    {
      assert cs[i].score >= 10;
    }
    RunUnserved(reg, cs);
    WinnerOnTie(reg, 0, 1);
  }

  /** Scenario five (lines 103-110): only agent 1 (score 100) reaches any
      customer's score, so it takes all ten and wins. */
  lemma ScenarioFive(css: seq<CustomerSuccess>, cs: seq<Customer>, away: seq<int>)
    requires css == Agents([100, 2, 3, 3, 4, 5])
    requires cs == Customers([10, 10, 10, 20, 20, 30, 30, 30, 20, 60])
    requires away == []
    ensures HasAvailable(css, away)
    ensures Balance(css, cs, away) == 1
  {
    assert css[0].id !in away;
    RegisteredNoneAway(css, away);
    var reg := Registered(css, away);
    forall i | 0 <= i < |cs|
      ensures FindAvailable(reg, cs[i]) == Some(0)
    {
      assert 10 <= cs[i].score <= 60;
      FindAvailableChooses(reg, cs[i], 0);
    }
    AllToOneWins(reg, cs, 0);
  }

  /** Scenario six (lines 112-119): with agents 1, 2 and 3 away, the
      remaining agents score at most 5 and serve nobody; three agents tie at
      zero, so the result is 0. */
  lemma ScenarioSix(css: seq<CustomerSuccess>, cs: seq<Customer>, away: seq<int>)
    requires css == Agents([100, 99, 88, 3, 4, 5])
    requires cs == Customers([10, 10, 10, 20, 20, 30, 30, 30, 20, 60])
    requires away == [1, 3, 2]
    ensures HasAvailable(css, away)
    ensures Balance(css, cs, away) == 0
  {
    assert css[3].id !in away;
    ScenarioSixRegistry(css, away);
    var reg := Registered(css, away);
    forall i | 0 <= i < |cs|
      ensures !Qualifies(reg, cs[i])
    {
      assert cs[i].score >= 10;
    }
    RunUnserved(reg, cs);
    WinnerOnTie(reg, 0, 1);
  }

  /** Scenario seven (lines 121-128): with agents 4, 5 and 6 away, agent 3
      has the lowest score (88) that reaches every customer's score, so it
      takes all ten customers and wins. A least-load rule would spread the
      customers and answer 1 instead. */
  lemma ScenarioSeven(css: seq<CustomerSuccess>, cs: seq<Customer>, away: seq<int>)
    requires css == Agents([100, 99, 88, 3, 4, 5])
    requires cs == Customers([10, 10, 10, 20, 20, 30, 30, 30, 20, 60])
    requires away == [4, 5, 6]
    ensures HasAvailable(css, away)
    ensures Balance(css, cs, away) == 3
  {
    assert css[0].id !in away;
    ScenarioSevenRegistry(css, away);
    var reg := Registered(css, away);
    forall i | 0 <= i < |cs|
      ensures FindAvailable(reg, cs[i]) == Some(2)
    {
      assert cs[i].score <= 60;
      FindAvailableChooses(reg, cs[i], 2);
    }
    AllToOneWins(reg, cs, 2);
  }

  /** Scenario three (lines 84-92): agents scoring 1 to 999, agent 999 away,
      and 10,000 customers each needing 998. Every customer goes to agent
      998, the only available agent that scores at least 998. */
  lemma ScenarioThree(css: seq<CustomerSuccess>, cs: seq<Customer>, away: seq<int>)
    requires css == Agents(seq(999, i => i + 1))
    requires cs == Customers(seq(10000, i => 998))
    requires away == [999]
    ensures HasAvailable(css, away)
    ensures Balance(css, cs, away) == 998
  {
    assert css[0].id !in away;
    RegisteredNoneAway(css[..998], away);
    RegisteredAppend(css[..998], [css[998]], away);
    assert Registered([css[998]], away) == [] by {
      assert [css[998]][..0] == [];
    }
    assert css[..998] + [css[998]] == css;
    var reg := Registered(css, away);
    assert |reg| == 998;
    assert forall k :: 0 <= k < 998 ==> reg[k] == Load(k + 1, k + 1, []);
    forall i | 0 <= i < |cs|
      ensures FindAvailable(reg, cs[i]) == Some(997)
    {
      FindAvailableChooses(reg, cs[i], 997);
    }
    AllToOneWins(reg, cs, 997);
  }
}
