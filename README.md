# Customer success balancing, modelled in Dafny

The system hands customers to customer-success agents and reports which
agent ended up with the most customers. Its whole logic is the Ruby class
`CustomerSuccessBalancing`, which works in three steps:

1. **Build the registry.** `build_customer_success_to_customer_hash` fills
   an insertion-ordered hash from agent id to `{score, customers: []}`. Agents
   whose id is on the away list are skipped.
2. **Assign every customer.** `execute` walks the customers in input order.
   For each one, `find_available_customer_success` picks an agent, and
   `assign_customer_success_to_customer` appends the customer's id to that
   agent's list in place.
3. **Pick the winner.** `find_customer_success_with_max_customers` groups the
   agents by list length and takes the group with the largest length. It
   answers 0 when that group holds more than one agent, otherwise the id of
   the one agent in it.

The project follows that structure module by module:

- `Entities`: the values. There are agents (`CustomerSuccess`), customers
  (`Customer`) and registry entries (`Load`: key, score, customer ids).
- `Registry`: the hash and how it is built.
  - `Registered` specifies the build.
  - `Assigned` specifies one append.
  - The class `Table` is the mutable hash itself. Its field `entries` holds
    the entries in insertion order. `Put` models `hash[key] = value`, and
    `Append` models `hash[key][:customers] << id`.
- `Selection`: the choice of agent for one customer.
- `Winner`: the grouping by list length and the tie rule.
- `Balancing`:
  - `Step` and `Run` specify the main loop.
  - `Balance` specifies the whole computation.
  - The class `CustomerSuccessBalancing` holds the imperative code. `Execute`
    has the loop over the customers, `BuildTable` the loop over the agents,
    and `AssignCustomer` does the in-place append. Each method is proved
    against the functions above.
- `Scenarios`: the repository's seven test scenarios, proved as facts about
  `Balance`.

**The selection rule is the lowest score, not the lowest load.** Line 40
ranks the eligible agents by `customers.length && score`. The mention of
`customers.length` suggests that a least-load rule was meant. But every Ruby
integer is truthy, so the expression evaluates to `score`. The code
therefore picks the eligible agent (score at least the customer's score)
with the **lowest score**, and `min_by` breaks ties in favour of the first
one in registry order. The model does what the code does. The tests agree
with the code:
- scenario one expects 1 where a least-load rule gives 0;
- scenario seven expects 3 where a least-load rule gives 1.

Both scenarios are proved here with the code's rule.

**An empty registry is a precondition.** One might expect an empty registry
(every agent away) to answer 0. Lines 44-47 raise instead: `max_by` on an
empty grouping returns `nil`, and `max_customers[1]` then fails. The model
therefore requires a non-empty registry (`HasAvailable`) and does not invent
a result for that case.

## Model

| member | source | states |
|---|---|---|
| Registry.Registered | customer_success_balancing.rb:50-62 | the built registry is no longer than the agent list, and every entry has a key that is not away and an empty customer list (that each entry is an input agent is `RegisteredMembers`) |
| Registry.RegisteredMembers | customer_success_balancing.rb:52-58 | an entry is in the registry exactly when its key is a non-away agent's id, its score is that agent's score and its list is empty |
| Registry.RegisteredAppend | customer_success_balancing.rb:52-59 | the build is an order-preserving filter: building from `a + b` gives the registry of `a` followed by the registry of `b` |
| Registry.RegisteredNoneAway | customer_success_balancing.rb:52-59 | with nobody away, entry `k` is agent `k` with its score and no customers |
| Registry.RegisteredUniqueKeys | customer_success_balancing.rb:55 | distinct agent ids give distinct hash keys |
| Registry.RegisteredNonEmpty | customer_success_balancing.rb:53 | the registry is non-empty exactly when some agent is not away |
| Registry.KeyIndex | customer_success_balancing.rb:34 | hash lookup: the found position holds the key and no earlier entry does; `None` means no entry holds the key |
| Registry.KeyIndexOfEntry | customer_success_balancing.rb:34 | with unique keys, looking up an entry's own key finds that very entry |
| Registry.Assigned | customer_success_balancing.rb:26-35 | appending a customer: keys and scores unchanged, the chosen list gains the id at its end, every other entry is unchanged, and the total assigned grows by one |
| Registry.Table.constructor | customer_success_balancing.rb:51 | a new hash is empty |
| Registry.Table.Put | customer_success_balancing.rb:55-58 | hash assignment: a new key is added at the end with an empty list; an existing key keeps its position and gets the new value |
| Registry.Table.Append | customer_success_balancing.rb:28-34 | the list stored under the key gains the customer's id, as `Assigned` states |
| Selection.FindAvailable | customer_success_balancing.rb:37-41 | `None` exactly when no entry's score reaches the customer's; otherwise the chosen entry is eligible, has the lowest score among eligible entries, and every eligible entry before it scores strictly higher |
| Selection.FindAvailableChooses | customer_success_balancing.rb:39-40 | the converse: an eligible entry with the lowest eligible score, preceded only by strictly higher eligible scores, is the one chosen |
| Selection.FindAvailableIgnoresLoad | customer_success_balancing.rb:40 | two registries with the same keys and scores choose the same entry, whatever their customer lists (`length && score` is `score`) |
| Winner.MaxCount | customer_success_balancing.rb:44-46 | the largest list length: no entry exceeds it and some entry reaches it |
| Winner.CountWithPositive | customer_success_balancing.rb:44-46 | the group of a given length has an entry exactly when some entry has that length |
| Winner.CountWithTwo | customer_success_balancing.rb:47 | the group of a given length has more than one entry exactly when two distinct entries have that length |
| Winner.FirstWith | customer_success_balancing.rb:47 | `group.first`: the first entry, in registry order, with the given length |
| Winner.WinnerOnTie | customer_success_balancing.rb:47 | two entries sharing the largest length make the result 0 |
| Winner.WinnerIsUniqueMaximum | customer_success_balancing.rb:43-47 | an entry with strictly more customers than every other entry wins, even with zero customers |
| Winner.FindWithMaxCustomers | customer_success_balancing.rb:43-48 | a non-zero result is the key of an entry that holds the largest count, and every other entry holds strictly fewer customers |
| Winner.WinnerZeroIffTie | customer_success_balancing.rb:43-47 | when no key is 0, the result is 0 exactly when two entries share the largest length |
| Balancing.Step | customer_success_balancing.rb:19-31 | one iteration keeps keys and scores; the total assigned grows by one exactly when some entry qualifies; with no eligible entry the registry is unchanged |
| Balancing.StepAppendsIfChosen | customer_success_balancing.rb:37-41 | on any registry with the initial keys and scores, an iteration appends the customer to entry `k` exactly when the selector picks `k` on the initial registry |
| Balancing.Run | customer_success_balancing.rb:18-21 | the loop never adds or removes keys and never changes a score |
| Balancing.RunUnserved | customer_success_balancing.rb:18-31 | when no entry qualifies for any customer, the loop leaves the registry as it was |
| Balancing.RunLastAppendsIfChosen | customer_success_balancing.rb:18-21 | the last iteration appends its customer to entry `k` exactly when the selector picks `k` on the initial registry |
| Balancing.RunAssignsBySelection | customer_success_balancing.rb:18-21 | after the loop, each list is its initial list followed by exactly the customers, in input order, that the selector sends to that entry on the initial registry |
| Balancing.RunTotal | customer_success_balancing.rb:18-21 | the total assigned grows by the number of customers some entry qualifies for, so by at most the number of customers |
| Balancing.ChosenByOrigin | customer_success_balancing.rb:29 | every id in a list belongs to a customer that the selector sends to that entry |
| Balancing.ChosenByDistinct | customer_success_balancing.rb:29 | with distinct customer ids, no list holds an id twice |
| Balancing.AssignedAtMostOnce | customer_success_balancing.rb:18-21 | starting from the built registry with distinct customer ids, an id appears in at most one place across all lists |
| Balancing.ChosenByAppend | customer_success_balancing.rb:18 | the customers chosen for an entry split along a split of the input |
| Balancing.RemovingCustomerNeverRaisesLoad | customer_success_balancing.rb:18-21 | dropping one customer from the input never raises an agent's final count and lowers it by at most one |
| Balancing.ChosenByAll | customer_success_balancing.rb:18-21 | when the selector sends every customer to entry `k`, all of them are chosen for `k` |
| Balancing.ChosenByNone | customer_success_balancing.rb:18-21 | when the selector sends every customer to entry `k`, none is chosen for another entry |
| Balancing.AllToOneWins | customer_success_balancing.rb:43-47 | when every customer goes to one entry of a fresh registry and there is at least one customer, that entry's key is the result |
| Balancing.Balance | customer_success_balancing.rb:15-24 | for distinct agent ids and a non-empty registry: a non-zero result is the id of an input agent that is not away, and that agent ends the run with strictly more customers than any other agent |
| Balancing.CustomerSuccessBalancing.constructor | customer_success_balancing.rb:8-12 | the balancer keeps its three inputs |
| Balancing.CustomerSuccessBalancing.Execute | customer_success_balancing.rb:15-24 | the loop's result is `Balance` of the inputs: build, assign each customer in order, pick the winner |
| Balancing.CustomerSuccessBalancing.AssignCustomer | customer_success_balancing.rb:26-31 | with a selected agent, the registry becomes `Assigned` for that entry; without one, it is unchanged |
| Balancing.CustomerSuccessBalancing.BuildTable | customer_success_balancing.rb:50-62 | the loop fills a fresh hash with exactly `Registered` of the inputs |
| Scenarios.ScenarioOne | customer_success_balancing.rb:66-73 | the result of scenario one is 1 |
| Scenarios.ScenarioTwo | customer_success_balancing.rb:75-82 | the result of scenario two is 0 |
| Scenarios.ScenarioThree | customer_success_balancing.rb:84-92 | the result of scenario three is 998 |
| Scenarios.ScenarioFour | customer_success_balancing.rb:94-101 | the result of scenario four is 0 |
| Scenarios.ScenarioFive | customer_success_balancing.rb:103-110 | the result of scenario five is 1 |
| Scenarios.ScenarioSix | customer_success_balancing.rb:112-119 | the result of scenario six is 0 |
| Scenarios.ScenarioSeven | customer_success_balancing.rb:121-128 | the result of scenario seven is 3 |

## Left out

- The test harness, `pry` and `Timeout.timeout(1.0)` (lines 3-5, 65-137) are not modelled. The one-second bound of scenario three is about running time, which the model does not capture. The seven expected results are proved as lemmas in `Scenarios`.
- The `NoMethodError` raised on an empty registry is a precondition (`HasAvailable`), not an exception.
- Balancing.CustomerSuccessBalancing.Execute: requires distinct agent ids (`UniqueIds`). With duplicate ids the Ruby hash overwrites the earlier entry. `Table.Put` models that overwrite, but the link to `Registered` is proved only for distinct ids.
- Balancing.CustomerSuccessBalancing.BuildTable: requires distinct agent ids, for the same reason.
- Balancing.Balance: defined only for distinct agent ids. With a repeated id, the Ruby hash keeps one entry under that key, holding the last such agent's score and sitting at the first one's position. `Registered` would keep both, so `Balance` says nothing about such inputs.
- Ruby's generic `Hash`, `select`, `min_by`, `group_by` and `max_by` are restated over an ordered sequence of entries. `max_by` on line 46 compares `[length, group]` pairs whose lengths are distinct, so only the length decides.
- Balancing.CustomerSuccessBalancing.AssignCustomer: receives the position of the selected entry rather than Ruby's `[key, value]` pair. It looks the entry up again by its key, as line 34 does.
- The customer arrays inside the hash are Ruby objects mutated in place through `<<`. Here they are sequence values inside `Table.entries`, which the methods reassign. Aliasing of those arrays is not modelled; in the source nothing outside the hash refers to them.
- Integers are unbounded, as Ruby's are. Scores and ids are not checked for sign or range, as in the source.
