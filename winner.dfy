/**
  Picking the result: group the entries by how many customers they hold,
  take the group with the largest count, and answer 0 when that group has
  more than one entry, otherwise the id of its single entry.
 */
module Winner {
  import opened Entities

  /** The largest customer count over a non-empty registry. */
  function MaxCount(reg: seq<Load>): (m: nat)
    requires |reg| > 0
    ensures forall k :: 0 <= k < |reg| ==> |reg[k].customers| <= m
    ensures exists k :: 0 <= k < |reg| && |reg[k].customers| == m
  {
    var n := |reg| - 1;
    if n == 0 then |reg[0].customers|
    else
      var m := MaxCount(reg[..n]);
      if |reg[n].customers| > m then |reg[n].customers| else m
  }

  /** The size of the group of entries holding exactly `m` customers. */
  function CountWith(reg: seq<Load>, m: nat): (n: nat)
    ensures n <= |reg|
  {
    if reg == [] then 0
    else CountWith(reg[..|reg| - 1], m) + (if |reg[|reg| - 1].customers| == m then 1 else 0)
  }

  /** The group holding `m` customers has an entry exactly when some entry
      of the registry holds `m`. */
  lemma {:induction false} CountWithPositive(reg: seq<Load>, m: nat)
    ensures CountWith(reg, m) >= 1 <==> exists k :: 0 <= k < |reg| && |reg[k].customers| == m
    decreases |reg|
  {
    if reg != [] {
      var n := |reg| - 1;
      var pre := reg[..n];
      CountWithPositive(pre, m);
      if |reg[n].customers| != m {
        if CountWith(reg, m) >= 1 {
          var k :| 0 <= k < |pre| && |pre[k].customers| == m;
          assert |reg[k].customers| == m;
        }
        if exists k :: 0 <= k < |reg| && |reg[k].customers| == m {
          var k :| 0 <= k < |reg| && |reg[k].customers| == m;
          assert |pre[k].customers| == m;
        }
      }
    }
  }

  /** A group of two or more holding `m` customers has two distinct
      entries holding `m`. */
  lemma {:induction false} CountWithTwoWitness(reg: seq<Load>, m: nat)
    requires CountWith(reg, m) >= 2
    ensures exists i, j :: 0 <= i < j < |reg| && |reg[i].customers| == m && |reg[j].customers| == m
    decreases |reg|
  {
    var n := |reg| - 1;
    var pre := reg[..n];
    if |reg[n].customers| == m {
      CountWithPositive(pre, m);
      var k :| 0 <= k < |pre| && |pre[k].customers| == m;
      assert |reg[k].customers| == m && k < n;
    } else {
      CountWithTwoWitness(pre, m);
      var i, j :| 0 <= i < j < |pre| && |pre[i].customers| == m && |pre[j].customers| == m;
      assert |reg[i].customers| == m && |reg[j].customers| == m;
    }
  }

  /** Two distinct entries holding `m` customers put two or more in the
      group holding `m`. */
  lemma {:induction false} CountWithTwoCount(reg: seq<Load>, m: nat, i: nat, j: nat)
    requires i < j < |reg| && |reg[i].customers| == m && |reg[j].customers| == m
    ensures CountWith(reg, m) >= 2
    decreases |reg|
  {
    var n := |reg| - 1;
    var pre := reg[..n];
    assert |pre[i].customers| == m;
    if j < n {
      assert |pre[j].customers| == m;
      CountWithTwoCount(pre, m, i, j);
    } else {
      CountWithPositive(pre, m);
    }
  }

  /** The group holding `m` customers has two entries or more exactly when
      two entries of the registry hold `m`. */
  lemma CountWithTwo(reg: seq<Load>, m: nat)
    ensures CountWith(reg, m) >= 2 <==>
            exists i, j :: 0 <= i < j < |reg| && |reg[i].customers| == m && |reg[j].customers| == m
  {
    if CountWith(reg, m) >= 2 {
      CountWithTwoWitness(reg, m);
    }
    if exists i, j :: 0 <= i < j < |reg| && |reg[i].customers| == m && |reg[j].customers| == m {
      var i, j :| 0 <= i < j < |reg| && |reg[i].customers| == m && |reg[j].customers| == m;
      CountWithTwoCount(reg, m, i, j);
    }
  }

  /** The first entry of the group holding `m` customers. */
  function FirstWith(reg: seq<Load>, m: nat): (r: nat)
    requires exists k :: 0 <= k < |reg| && |reg[k].customers| == m
    ensures r < |reg| && |reg[r].customers| == m
    ensures forall j :: 0 <= j < r ==> |reg[j].customers| != m
  {
    if |reg[0].customers| == m then 0
    else
      var k :| 0 <= k < |reg| && |reg[k].customers| == m;
      assert |reg[1..][k - 1].customers| == m;
      FirstWith(reg[1..], m) + 1
  }

  /** `find_customer_success_with_max_customers`: 0 when several entries
      share the largest count; otherwise the key of the one entry that holds
      it, which then holds strictly more customers than every other entry. */
  function FindWithMaxCustomers(reg: seq<Load>): (r: int)
    requires |reg| > 0
    ensures r != 0 ==>
            exists k :: 0 <= k < |reg| && reg[k].id == r && |reg[k].customers| == MaxCount(reg) &&
                        forall j :: 0 <= j < |reg| && j != k ==> |reg[j].customers| < MaxCount(reg)
  {
    var m := MaxCount(reg);
    if CountWith(reg, m) > 1 then 0
    else
      CountWithTwo(reg, m);
      var k := FirstWith(reg, m);
      assert forall j :: 0 <= j < |reg| && j != k ==> |reg[j].customers| != m;
      reg[k].id
  }

  /** Two entries that both hold the largest count make a tie: the result
      is 0. */
  lemma WinnerOnTie(reg: seq<Load>, i: nat, j: nat)
    requires i < j < |reg|
    requires |reg[i].customers| == |reg[j].customers|
    requires forall k :: 0 <= k < |reg| ==> |reg[k].customers| <= |reg[i].customers|
    ensures FindWithMaxCustomers(reg) == 0
  {
    CountWithPositive(reg, MaxCount(reg));
    CountWithTwo(reg, MaxCount(reg));
  }

  /** An entry holding strictly more customers than every other entry is
      the winner, even when it holds none. */
  lemma WinnerIsUniqueMaximum(reg: seq<Load>, k: nat)
    requires k < |reg|
    requires forall j :: 0 <= j < |reg| && j != k ==> |reg[j].customers| < |reg[k].customers|
    ensures FindWithMaxCustomers(reg) == reg[k].id
  {
    var m := MaxCount(reg);
    CountWithPositive(reg, m);
    CountWithTwo(reg, m);
    assert |reg[k].customers| == m;
  }

  /** When no key is 0, the result is 0 exactly when at least two entries
      hold the largest count. */
  lemma WinnerZeroIffTie(reg: seq<Load>)
    requires |reg| > 0
    requires forall k :: 0 <= k < |reg| ==> reg[k].id != 0
    ensures FindWithMaxCustomers(reg) == 0 <==>
            exists i, j :: 0 <= i < j < |reg| && |reg[i].customers| == MaxCount(reg) && |reg[j].customers| == MaxCount(reg)
  {
    CountWithPositive(reg, MaxCount(reg));
    CountWithTwo(reg, MaxCount(reg));
  }
}
