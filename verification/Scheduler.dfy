/**
 * The budget tree of src/scheduler.js: admissions charged along the path to the root, refusals, and releases in any
 * order. Costs are reals; a resource without a budget is unlimited.
 */
module Scheduler {

  type Cost = map<string, real>

  datatype Admission = Admission(id: nat, cost: Cost)

  function At(m: Cost, k: string): real {
    if k in m then m[k] else 0.0
  }

  ghost predicate Nonnegative(c: Cost) {
    forall k :: k in c ==> c[k] >= 0.0
  }

  /** What these admissions cost together. */
  function Total(open: seq<Admission>, k: string): real {
    if open == [] then 0.0 else Total(open[..|open| - 1], k) + At(open[|open| - 1].cost, k)
  }

  lemma TotalSnoc(open: seq<Admission>, a: Admission, k: string)
    ensures Total(open + [a], k) == Total(open, k) + At(a.cost, k)
  {
    assert (open + [a])[..|open|] == open;
  }

  lemma {:induction false} TotalWithout(open: seq<Admission>, i: nat, k: string)
    requires i < |open|
    ensures Total(open[..i] + open[i + 1..], k) == Total(open, k) - At(open[i].cost, k)
  {
    var n := |open| - 1;
    if i == n {
      assert open[..i] + open[i + 1..] == open[..n];
    } else {
      TotalWithout(open[..n], i, k);
      assert open[..n][..i] + open[..n][i + 1..] == (open[..i] + open[i + 1..])[..n - 1];
    }
  }

  lemma {:induction false} TotalCovers(open: seq<Admission>, k: string, i: nat)
    requires (forall j :: 0 <= j < |open| ==> Nonnegative(open[j].cost)) && i < |open|
    ensures Total(open, k) >= At(open[i].cost, k) >= 0.0
  {
    assert Nonnegative(open[|open| - 1].cost);
    if i < |open| - 1 {
      TotalCovers(open[..|open| - 1], k, i);
    } else {
      TotalNonnegative(open[..i], k);
    }
  }

  lemma {:induction false} TotalNonnegative(open: seq<Admission>, k: string)
    requires forall j :: 0 <= j < |open| ==> Nonnegative(open[j].cost)
    ensures Total(open, k) >= 0.0
  {
    if open != [] {
      TotalNonnegative(open[..|open| - 1], k);
      assert Nonnegative(open[|open| - 1].cost);
    }
  }

  /** `exceeds`: some budgeted resource would go over. */
  predicate Exceeds(budgets: Cost, used: Cost, cost: Cost) {
    exists k :: k in budgets && At(used, k) + At(cost, k) > budgets[k]
  }

  /** The resource's use with the cost added stays within the budget; what is not listed is nothing. */
  predicate Together(used: Cost, cost: Cost, k: string, budget: real) {
    && (k in used && k in cost ==> used[k] + cost[k] <= budget)
    && (k in used && k !in cost ==> used[k] <= budget)
    && (k !in used && k in cost ==> cost[k] <= budget)
    && (k !in used && k !in cost ==> 0.0 <= budget)
  }

  /** Every budget has room for the cost. */
  predicate Affordable(budgets: Cost, used: Cost, cost: Cost) {
    forall k :: k in budgets ==> Together(used, cost, k, budgets[k])
  }

  lemma ExceedsIff(budgets: Cost, used: Cost, cost: Cost)
    ensures Exceeds(budgets, used, cost) <==> !Affordable(budgets, used, cost)
  {
  }

  /** Every resource is used by the cost more than before; what is not listed is nothing. */
  ghost predicate Charged(before: Cost, cost: Cost, after: Cost) {
    && after.Keys == before.Keys + cost.Keys
    && forall k :: k in after ==>
         after[k] == (if k in before then before[k] else 0.0) + if k in cost then cost[k] else 0.0
  }

  function Charge(used: Cost, cost: Cost): Cost {
    map k | k in used.Keys + cost.Keys :: At(used, k) + At(cost, k)
  }

  lemma ChargeAdds(used: Cost, cost: Cost)
    ensures Charged(used, cost, Charge(used, cost))
  {
  }

  /** A release never goes below zero. */
  function Refund(used: Cost, cost: Cost): Cost {
    map k | k in used.Keys + cost.Keys ::
      if k in cost then (if At(used, k) - cost[k] > 0.0 then At(used, k) - cost[k] else 0.0) else used[k]
  }

  function Without(open: seq<Admission>, a: Admission): seq<Admission> {
    if open == [] then [] else if open[0] == a then open[1..] else [open[0]] + Without(open[1..], a)
  }

  lemma Reassociate(a: seq<Admission>, b: seq<Admission>, c: seq<Admission>)
    ensures a + (b + c) == a + b + c
  {
  }

  lemma {:induction false} WithoutAt(open: seq<Admission>, a: Admission) returns (i: nat)
    requires a in open
    ensures i < |open| && open[i] == a && Without(open, a) == open[..i] + open[i + 1..]
  {
    if open[0] == a {
      i := 0;
      assert open[..0] + open[1..] == open[1..];
    } else {
      var rest := open[1..];
      var j := WithoutAt(rest, a);
      i := j + 1;
      assert rest[..j] == open[1..i] && rest[j + 1..] == open[i + 1..];
      assert open[..i] == [open[0]] + rest[..j];
      Reassociate([open[0]], rest[..j], rest[j + 1..]);
    }
  }

  /** A node's account: what is used is what its outstanding admissions cost, within the budget. */
  ghost predicate Balanced(budgets: Cost, used: Cost, open: seq<Admission>) {
    && (forall j :: 0 <= j < |open| ==> Nonnegative(open[j].cost))
    && (forall k :: At(used, k) == Total(open, k))
    && (forall k :: k in budgets ==> At(used, k) <= budgets[k])
  }

  lemma ChargeBalanced(budgets: Cost, used: Cost, open: seq<Admission>, a: Admission)
    requires Balanced(budgets, used, open) && Nonnegative(a.cost) && !Exceeds(budgets, used, a.cost)
    ensures Balanced(budgets, Charge(used, a.cost), open + [a])
  {
    hide Total;
    forall k ensures At(Charge(used, a.cost), k) == Total(open + [a], k) {
      TotalSnoc(open, a, k);
      assert At(used, k) == Total(open, k);
    }
  }

  /** Giving back an outstanding admission restores the account without clipping. */
  lemma RefundBalanced(budgets: Cost, used: Cost, open: seq<Admission>, a: Admission)
    requires Balanced(budgets, used, open) && a in open
    ensures Balanced(budgets, Refund(used, a.cost), Without(open, a))
    ensures forall k :: At(Refund(used, a.cost), k) == At(used, k) - At(a.cost, k)
    ensures forall k :: k in a.cost ==>
      k in Refund(used, a.cost) && Refund(used, a.cost)[k] == (if k in used then used[k] else 0.0) - a.cost[k]
  {
    hide Total, Without;
    var i := WithoutAt(open, a);
    var rest := open[..i] + open[i + 1..];
    forall j | 0 <= j < |rest| ensures Nonnegative(rest[j].cost) {
      assert rest[j] == if j < i then open[j] else open[j + 1];
    }
    forall k ensures At(Refund(used, a.cost), k) == At(used, k) - At(a.cost, k) == Total(rest, k) {
      TotalWithout(open, i, k);
      TotalCovers(open, k, i);
      assert At(used, k) == Total(open, k);
    }
    assert Nonnegative(open[i].cost);
  }

  class AdaptiveScheduler {
    const budgets: Cost
    const parent: AdaptiveScheduler?
    /** This node and its ancestors, up to the root. */
    ghost const path: seq<AdaptiveScheduler>
    var used: Cost
    /** The admissions made here or below and not yet released. */
    ghost var open: seq<Admission>

    ghost predicate Placed()
      decreases |path|
    {
      && path != [] && path[0] == this
      && (parent == null ==> path == [this])
      && (parent != null ==> path == [this] + parent.path && parent.Placed())
    }

    ghost predicate Accounts()
      reads path
    {
      forall i :: 0 <= i < |path| ==> Balanced(path[i].budgets, path[i].used, path[i].open)
    }

    constructor (budgets: Cost, parent: AdaptiveScheduler?)
      requires parent != null ==> parent.Placed()
      requires forall k :: k in budgets ==> budgets[k] >= 0.0
      ensures Placed() && this.parent == parent && this.budgets == budgets && used == map[] && open == []
      ensures Balanced(budgets, used, open)
    {
      this.budgets, this.parent, used, open := budgets, parent, map[], [];
      path := if parent == null then [this] else [this] + parent.path;
    }

    /** The node occurs once on its own path. */
    lemma PathDistinct()
      requires Placed()
      ensures parent != null ==> this !in parent.path
      ensures forall i :: 0 <= i < |path| ==> |path[i].path| == |path| - i
      decreases |path|
    {
      if parent != null {
        parent.PathDistinct();
        assert forall i :: 1 <= i < |path| ==> path[i] == parent.path[i - 1];
      }
    }

    /** The account after an admission with these costs and this outcome. */
    ghost predicate Took(usedBefore: Cost, openBefore: seq<Admission>, a: Admission, ok: bool)
      reads this
    {
      if ok then Charged(usedBefore, a.cost, used) && open == openBefore + [a]
      else used == usedBefore && open == openBefore
    }

    /**
     * `admit`: refused, with no node's account touched, when any node on the path would exceed its budget; otherwise
     * charged to every node on the path.
     */
    method Admit(a: Admission) returns (ok: bool)
      requires Placed() && Accounts() && Nonnegative(a.cost)
      modifies path
      ensures Accounts()
      ensures ok <==> forall i :: 0 <= i < |path| ==> Affordable(path[i].budgets, old(path[i].used), a.cost)
      ensures forall i :: 0 <= i < |path| ==> path[i].Took(old(path[i].used), old(path[i].open), a, ok)
      decreases |path|
    {
      hide Balanced, Exceeds, Charge, Affordable, Charged, Nonnegative;
      PathDistinct();
      ExceedsIff(budgets, used, a.cost);
      ChargeAdds(used, a.cost);
      if Exceeds(budgets, used, a.cost) {
        assert path[0] == this;
        return false;
      }
      if parent != null {
        assert forall i :: 0 <= i < |parent.path| ==> parent.path[i] == path[i + 1];
        ok := parent.Admit(a);
        assert forall i :: 1 <= i < |path| ==> path[i] == parent.path[i - 1];
        if !ok {
          return;
        }
      }
      ChargeBalanced(budgets, used, open, a);
      used, open := Charge(used, a.cost), open + [a];
      ok := true;
    }

    /** The release of an outstanding admission: every node on the path gets exactly its cost back. */
    method Release(a: Admission)
      requires Placed() && Accounts()
      requires forall i :: 0 <= i < |path| ==> a in path[i].open
      modifies path
      ensures Accounts()
      ensures forall i, k :: 0 <= i < |path| ==> At(path[i].used, k) == At(old(path[i].used), k) - At(a.cost, k)
      ensures forall i, k :: 0 <= i < |path| && k in a.cost ==>
        k in path[i].used && path[i].used[k] ==
          (if k in old(path[i].used) then old(path[i].used)[k] else 0.0) - a.cost[k]
      ensures forall i :: 0 <= i < |path| ==> path[i].open == Without(old(path[i].open), a)
      decreases |path|
    {
      hide Balanced, Without, Refund, At;
      PathDistinct();
      assert path[0] == this;
      RefundBalanced(budgets, used, open, a);
      used, open := Refund(used, a.cost), Without(open, a);
      if parent != null {
        assert forall i :: 0 <= i < |parent.path| ==> parent.path[i] == path[i + 1];
        parent.Release(a);
        assert forall i :: 1 <= i < |path| ==> path[i] == parent.path[i - 1];
      }
    }
  }
}
