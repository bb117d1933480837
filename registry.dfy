/**
  The registry: an insertion-ordered hash from agent id to the agent's score
  and its list of assigned customers. Built once before any customer is
  processed; afterwards only customer lists grow.
 */
module Registry {
  import opened Wrappers
  import opened Entities

  /** Some agent is not away, so the built registry has an entry. */
  predicate HasAvailable(css: seq<CustomerSuccess>, away: seq<int>)
  {
    exists i :: 0 <= i < |css| && css[i].id !in away
  }

  /** Hash lookup by key: the position of the entry whose key is `key`. */
  function KeyIndex(reg: seq<Load>, key: int): (r: Option<nat>)
    ensures r.Some? ==> r.value < |reg| && reg[r.value].id == key
    ensures r.Some? ==> forall j :: 0 <= j < r.value ==> reg[j].id != key
    ensures r.None? ==> forall j :: 0 <= j < |reg| ==> reg[j].id != key
  {
    if reg == [] then None
    else if reg[0].id == key then Some(0)
    else
      match KeyIndex(reg[1..], key)
      case None => None
      case Some(j) => Some(j + 1)
  }

  /** With unique keys, looking up an entry's own key finds that entry. */
  lemma KeyIndexOfEntry(reg: seq<Load>, k: nat)
    requires UniqueKeys(reg) && k < |reg|
    ensures KeyIndex(reg, reg[k].id) == Some(k)
  {
  }

  /** The registry built from the agents: one entry per agent that is not
      away, in input order, with the agent's score and no customers. */
  function Registered(css: seq<CustomerSuccess>, away: seq<int>): (r: seq<Load>)
    ensures |r| <= |css|
    ensures forall k :: 0 <= k < |r| ==> r[k].customers == [] && r[k].id !in away
  {
    if css == [] then []
    else
      var last := css[|css| - 1];
      Registered(css[..|css| - 1], away) + (if last.id in away then [] else [Load(last.id, last.score, [])])
  }

  /** Building is a filter that keeps input order: building from a
      concatenation concatenates the two registries. */
  lemma {:induction false} RegisteredAppend(a: seq<CustomerSuccess>, b: seq<CustomerSuccess>, away: seq<int>)
    ensures Registered(a + b, away) == Registered(a, away) + Registered(b, away)
    decreases |b|
  {
    if b == [] {
      assert a + b == a;
    } else {
      var n := |b| - 1;
      assert (a + b)[..|a + b| - 1] == a + b[..n];
      RegisteredAppend(a, b[..n], away);
    }
  }

  /** An entry is in the built registry exactly when it is a non-away agent
      with its input score and an empty customer list. */
  lemma {:induction false} RegisteredMembers(css: seq<CustomerSuccess>, away: seq<int>, e: Load)
    ensures e in Registered(css, away) <==>
            e.customers == [] && e.id !in away && CustomerSuccess(e.id, e.score) in css
    decreases |css|
  {
    if css != [] {
      var n := |css| - 1;
      RegisteredMembers(css[..n], away, e);
      assert css == css[..n] + [css[n]];
    }
  }

  /** Building one more agent extends the registry built so far by that
      agent's entry, unless the agent is away. */
  lemma RegisteredPrefixStep(css: seq<CustomerSuccess>, i: nat, away: seq<int>)
    requires i < |css|
    ensures Registered(css[..i + 1], away) ==
            Registered(css[..i], away) + (if css[i].id in away then [] else [Load(css[i].id, css[i].score, [])])
  {
    assert css[..i + 1][..i] == css[..i];
  }

  /** When no agent is away, the registry lists every agent in input order. */
  lemma {:induction false} RegisteredNoneAway(css: seq<CustomerSuccess>, away: seq<int>)
    requires forall i :: 0 <= i < |css| ==> css[i].id !in away
    ensures |Registered(css, away)| == |css|
    ensures forall k :: 0 <= k < |css| ==> Registered(css, away)[k] == Load(css[k].id, css[k].score, [])
    decreases |css|
  {
    if css != [] {
      RegisteredNoneAway(css[..|css| - 1], away);
    }
  }

  /** Distinct agent ids give distinct registry keys. */
  lemma {:induction false} RegisteredUniqueKeys(css: seq<CustomerSuccess>, away: seq<int>)
    requires UniqueIds(css)
    ensures UniqueKeys(Registered(css, away))
    decreases |css|
  {
    if css != [] {
      var n := |css| - 1;
      var prefix := Registered(css[..n], away);
      RegisteredUniqueKeys(css[..n], away);
      forall k | 0 <= k < |prefix|
        ensures prefix[k].id != css[n].id
      {
        RegisteredMembers(css[..n], away, prefix[k]);
        var i :| 0 <= i < n && css[..n][i] == CustomerSuccess(prefix[k].id, prefix[k].score);
        assert css[i].id != css[n].id;
      }
    }
  }

  /** The built registry is non-empty exactly when some agent is not away. */
  lemma {:induction false} RegisteredNonEmpty(css: seq<CustomerSuccess>, away: seq<int>)
    ensures |Registered(css, away)| > 0 <==> HasAvailable(css, away)
    decreases |css|
  {
    if css != [] {
      var n := |css| - 1;
      RegisteredNonEmpty(css[..n], away);
      if HasAvailable(css, away) && css[n].id in away {
        var i :| 0 <= i < |css| && css[i].id !in away;
        assert css[..n][i].id !in away;
      }
    }
  }

  /** The registry after appending customer `cid` to entry `k`'s list: keys
      and scores stay, entry `k` gains `cid` at its end, every other entry
      is unchanged, and one more customer is assigned in all. */
  function Assigned(reg: seq<Load>, k: nat, cid: int): (r: seq<Load>)
    requires k < |reg|
    ensures SameShape(reg, r)
    ensures r[k].customers == reg[k].customers + [cid]
    ensures forall j :: 0 <= j < |reg| && j != k ==> r[j] == reg[j]
    ensures TotalAssigned(r) == TotalAssigned(reg) + 1
  {
    var e := reg[k].(customers := reg[k].customers + [cid]);
    TotalAssignedUpdate(reg, k, e);
    reg[k := e]
  }

  /** The hash the run builds and mutates, in insertion order. */
  class Table {
    var entries: seq<Load>

    /** `{}`: an empty hash. */
    constructor ()
      ensures entries == []
    {
      entries := [];
    }

    /** `hash[key] = { score: score, customers: [] }`: a new key goes at the
        end; an existing key keeps its place and gets the fresh value. */
    method Put(key: int, score: int)
      modifies this
      ensures entries == match KeyIndex(old(entries), key)
                         case Some(j) => old(entries)[j := Load(key, score, [])]
                         case None => old(entries) + [Load(key, score, [])]
    {
      match KeyIndex(entries, key)
      case Some(j) =>
        entries := entries[j := Load(key, score, [])];
      case None =>
        entries := entries + [Load(key, score, [])];
    }

    /** `hash[key][:customers] << cid`: append the customer to the list of
        the entry stored under `key`. */
    method Append(key: int, cid: int)
      requires KeyIndex(entries, key).Some?
      modifies this
      ensures entries == Assigned(old(entries), KeyIndex(old(entries), key).value, cid)
    {
      var k := KeyIndex(entries, key).value;
      entries := entries[k := entries[k].(customers := entries[k].customers + [cid])];
    }
  }
}
