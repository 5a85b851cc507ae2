/** The delegation graph: who votes for whom, the search for cycles, and the reverse index, which is its inverse; what
    delegating and removing a delegation keep of both. */
module Delegation {

  /** delegator to delegatee */
  type Graph = map<string, string>

  /** delegatee to the addresses recorded as delegating to it */
  type Index = map<string, set<string>>

  /** Following n delegations from x leads to y. */
  ghost predicate StepsTo(d: Graph, x: string, y: string, n: nat)
    decreases n
  {
    if n == 0 then x == y else x in d && StepsTo(d, d[x], y, n - 1)
  }

  ghost predicate Reaches(d: Graph, x: string, y: string) {
    exists n: nat :: StepsTo(d, x, y, n)
  }

  /** Nobody comes back to themselves by following delegations. */
  ghost predicate Acyclic(d: Graph) {
    forall x, n: nat :: 0 < n ==> !StepsTo(d, x, x, n)
  }

  lemma {:induction false} StepsCompose(d: Graph, x: string, y: string, z: string, m: nat, n: nat)
    requires StepsTo(d, x, y, m) && StepsTo(d, y, z, n)
    ensures StepsTo(d, x, z, m + n)
    decreases m
  {
    if m > 0 {
      StepsCompose(d, d[x], y, z, m - 1, n);
    }
  }

  /** Following delegations is a function, so a longer walk passes through the end of a shorter one. */
  lemma {:induction false} StepsSplit(d: Graph, x: string, y: string, z: string, m: nat, n: nat)
    requires StepsTo(d, x, y, m) && StepsTo(d, x, z, n) && m <= n
    ensures StepsTo(d, y, z, n - m)
    decreases m
  {
    if m > 0 {
      StepsSplit(d, d[x], y, z, m - 1, n - 1);
    }
  }

  lemma NoWayTo(d: Graph, x: string, y: string)
    requires x != y && x !in d
    ensures !Reaches(d, x, y)
  {
    forall n: nat ensures !StepsTo(d, x, y, n) {}
  }

  /** A point on a cycle is on a cycle of the same length. */
  lemma CycleRotates(d: Graph, x: string, a: string, n: nat, k: nat)
    requires StepsTo(d, x, x, n) && StepsTo(d, x, a, k) && k <= n
    ensures StepsTo(d, a, a, n)
  {
    StepsSplit(d, x, a, x, k, n);
    StepsCompose(d, a, x, a, n - k, k);
  }

  /** Until a walk in the new graph meets the changed node it is a walk in the old graph. */
  lemma {:induction false} WalkToChanged(d: Graph, a: string, b: string, x: string, n: nat)
    requires StepsTo(d[a := b], x, a, n)
    ensures Reaches(d, x, a)
    decreases n
  {
    if x == a {
      assert StepsTo(d, a, a, 0);
    } else {
      WalkToChanged(d, a, b, d[x], n - 1);
      var m: nat :| StepsTo(d, d[x], a, m);
      assert StepsTo(d, x, a, m + 1);
    }
  }

  /** A walk in the new graph either meets the changed node or is a walk in the old graph. */
  lemma {:induction false} WalkAvoidsOrMeets(d: Graph, a: string, b: string, x: string, y: string, n: nat) returns (k: nat)
    requires StepsTo(d[a := b], x, y, n)
    ensures k <= n
    ensures StepsTo(d[a := b], x, a, k) || StepsTo(d, x, y, n)
    decreases n
  {
    if x == a || n == 0 {
      k := 0;
    } else {
      var j := WalkAvoidsOrMeets(d, a, b, d[x], y, n - 1);
      k := j + 1;
    }
  }

  /** Adding a delegation whose delegatee does not lead back to the delegator keeps the graph acyclic. */
  lemma {:induction false} DelegateKeepsAcyclic(d: Graph, a: string, b: string)
    requires Acyclic(d) && !Reaches(d, b, a)
    ensures Acyclic(d[a := b])
  {
    var d' := d[a := b];
    forall x, n: nat | 0 < n ensures !StepsTo(d', x, x, n) {
      if StepsTo(d', x, x, n) {
        var k := WalkAvoidsOrMeets(d, a, b, x, x, n);
        if StepsTo(d', x, a, k) {
          CycleRotates(d', x, a, n, k);
          WalkToChanged(d, a, b, b, n - 1);
        }
        assert false;
      }
    }
  }

  lemma {:induction false} FewerStepsFewerEdges(d: Graph, a: string, x: string, y: string, n: nat)
    requires StepsTo(d - {a}, x, y, n)
    ensures StepsTo(d, x, y, n)
    decreases n
  {
    if n > 0 {
      FewerStepsFewerEdges(d, a, d[x], y, n - 1);
    }
  }

  lemma {:induction false} RemovalKeepsAcyclic(d: Graph, a: string)
    requires Acyclic(d)
    ensures Acyclic(d - {a})
  {
    forall x, n: nat | 0 < n ensures !StepsTo(d - {a}, x, x, n) {
      if StepsTo(d - {a}, x, x, n) {
        FewerStepsFewerEdges(d, a, x, x, n);
      }
    }
  }

  /** The addresses the index lists for a delegatee. */
  function Delegators(index: Index, to: string): set<string> {
    if to in index then index[to] else {}
  }

  /**
    The index is the inverse of the graph for every non-empty delegatee. For the empty address, which the
    code takes for "no delegation", it lists at least its delegators.
  */
  ghost predicate Inverse(d: Graph, index: Index) {
    && (forall a, b :: b != "" ==> (a in Delegators(index, b) <==> a in d && d[a] == b))
    && (forall a :: a in d && d[a] == "" ==> a in Delegators(index, ""))
  }

  /** Taking a delegator off the list of its delegatee, if that is a non-empty address. */
  function Unlist(d: Graph, index: Index, delegator: string): Index {
    if delegator in d && d[delegator] != "" && d[delegator] in index
    then index[d[delegator] := index[d[delegator]] - {delegator}] else index
  }

  function Enlist(index: Index, delegator: string, delegatee: string): Index {
    index[delegatee := Delegators(index, delegatee) + {delegator}]
  }

  lemma RemovalKeepsInverse(d: Graph, index: Index, a: string)
    requires Inverse(d, index) && a in d && d[a] != ""
    ensures Inverse(d - {a}, Unlist(d, index, a))
  {
    var index' := Unlist(d, index, a);
    assert a in Delegators(index, d[a]);
    forall x, b | b != "" ensures x in Delegators(index', b) <==> x in d - {a} && d[x] == b {
      assert x in Delegators(index, b) <==> x in d && d[x] == b;
    }
  }

  lemma DelegateKeepsInverse(d: Graph, index: Index, a: string, to: string)
    requires Inverse(d, index)
    ensures Inverse(d[a := to], Enlist(Unlist(d, index, a), a, to))
  {
    var d', index' := d[a := to], Enlist(Unlist(d, index, a), a, to);
    forall x, b | b != "" ensures x in Delegators(index', b) <==> x in d' && d'[x] == b {
      assert x in Delegators(index, b) <==> x in d && d[x] == b;
    }
    forall x | x in d' && d'[x] == "" ensures x in Delegators(index', "") {
      assert x != a ==> x in Delegators(index, "");
    }
  }

  /** v is met in fewer than n steps from x. */
  ghost predicate MetWithin(d: Graph, x: string, v: string, n: nat) {
    exists m: nat :: m < n && StepsTo(d, x, v, m)
  }

  lemma MetLater(d: Graph, x: string, visited: set<string>, y: string, n: nat)
    requires forall v :: v in visited ==> MetWithin(d, x, v, n)
    requires StepsTo(d, x, y, n)
    ensures forall v :: v in visited + {y} ==> MetWithin(d, x, v, n + 1)
  {
    forall v | v in visited ensures MetWithin(d, x, v, n + 1) {
      var m: nat :| m < n && StepsTo(d, x, v, m);
    }
  }

  /** The index as the exact inverse of the graph, the empty address included. */
  ghost predicate ExactInverse(d: Graph, index: Index) {
    forall a, b :: a in Delegators(index, b) <==> a in d && d[a] == b
  }

  /** Delegating keeps the index exact unless it replaces a delegation to the empty address by another one. */
  lemma DelegateKeepsExact(d: Graph, index: Index, a: string, to: string)
    requires ExactInverse(d, index)
    ensures ExactInverse(d[a := to], Enlist(Unlist(d, index, a), a, to)) <==> !(a in d && d[a] == "" && to != "")
  {
    var d', index' := d[a := to], Enlist(Unlist(d, index, a), a, to);
    if a in d && d[a] == "" && to != "" {
      assert a in Delegators(index, "");
      assert a in Delegators(index', "") && d'[a] != "";
    } else {
      forall x, b ensures x in Delegators(index', b) <==> x in d' && d'[x] == b {
        assert x in Delegators(index, b) <==> x in d && d[x] == b;
      }
    }
  }

  /** The walk's own bookkeeping: in an acyclic graph it never meets a node twice, so only the delegator can stop it. */
  lemma WalkNeverRepeats(d: Graph, x: string, y: string, m: nat, n: nat)
    requires Acyclic(d) && StepsTo(d, x, y, m) && StepsTo(d, x, y, n)
    ensures m == n
  {
    if m < n {
      StepsSplit(d, x, y, y, m, n);
    } else if n < m {
      StepsSplit(d, x, y, y, n, m);
    }
  }
}
