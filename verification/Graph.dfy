/** Finite directed graphs: walks, cycles and topological orders. */
module Graph {
  import opened Prelude

  /** Maps each node to its direct successors. */
  type Digraph<K> = map<K, set<K>>

  ghost predicate Edge<K(!new)>(g: Digraph<K>, u: K, v: K) {
    u in g && v in g[u]
  }

  /** `p` is a non-empty walk from `a` to `b`: at least one edge. */
  ghost predicate Walk<K(!new)>(g: Digraph<K>, p: seq<K>, a: K, b: K) {
    && |p| >= 2 && p[0] == a && p[|p| - 1] == b
    && forall i :: 0 <= i < |p| - 1 ==> Edge(g, p[i], p[i + 1])
  }

  ghost predicate Reaches<K(!new)>(g: Digraph<K>, a: K, b: K) {
    exists p :: Walk(g, p, a, b)
  }

  ghost predicate Cyclic<K(!new)>(g: Digraph<K>) {
    exists k :: Reaches(g, k, k)
  }

  /** A walk whose nodes before its end are distinct and outside `avoid`. */
  ghost predicate SimplePath<K(!new)>(g: Digraph<K>, p: seq<K>, a: K, b: K, avoid: set<K>) {
    && Walk(g, p, a, b)
    && Distinct(p[..|p| - 1])
    && forall i :: 0 <= i < |p| - 1 ==> p[i] !in avoid
  }

  ghost predicate SimplyReaches<K(!new)>(g: Digraph<K>, a: K, b: K, avoid: set<K>) {
    exists p :: SimplePath(g, p, a, b, avoid)
  }

  /** One step of a depth-first search that keeps the current path in `avoid` explores exactly this. */
  lemma SimplyReachesStep<K(!new)>(g: Digraph<K>, a: K, b: K, avoid: set<K>)
    requires a !in avoid
    ensures SimplyReaches(g, a, b, avoid) <==>
            exists d :: Edge(g, a, d) && (d == b || SimplyReaches(g, d, b, avoid + {a}))
  {
    if SimplyReaches(g, a, b, avoid) {
      var p :| SimplePath(g, p, a, b, avoid);
      assert Edge(g, p[0], p[1]);
      if |p| > 2 {
        assert SimplePath(g, p[1..], p[1], b, avoid + {a}) by {
          assert p[1..][..|p| - 2] == p[..|p| - 1][1..];
          forall i | 0 <= i < |p| - 2 ensures Edge(g, p[1..][i], p[1..][i + 1]) && p[1..][i] !in avoid + {a} {
            assert p[1..][i] == p[i + 1] && p[1..][i + 1] == p[i + 2];
            assert p[..|p| - 1][0] != p[..|p| - 1][i + 1];
          }
        }
      }
    }
    if d :| Edge(g, a, d) && (d == b || SimplyReaches(g, d, b, avoid + {a})) {
      if d == b {
        assert SimplePath(g, [a, b], a, b, avoid);
      } else {
        var q :| SimplePath(g, q, d, b, avoid + {a});
        var p := [a] + q;
        assert p[..|p| - 1] == [a] + q[..|q| - 1];
        forall i, j | 0 <= i < j < |p| - 1 ensures p[i] != p[j] {
          if i == 0 {
            assert p[j] == q[j - 1];
          }
        }
        assert SimplePath(g, p, a, b, avoid);
      }
    }
  }

  /** Any walk shortens to a simple path with the same ends. */
  lemma {:induction false} WalkShortens<K(!new)>(g: Digraph<K>, p: seq<K>, a: K, b: K)
    requires Walk(g, p, a, b)
    ensures SimplyReaches(g, a, b, {})
    decreases |p|
  {
    var init := p[..|p| - 1];
    if Distinct(init) {
      assert SimplePath(g, p, a, b, {});
    } else {
      var i, j :| 0 <= i < j < |init| && init[i] == init[j];
      var q := p[..i] + p[j..];
      forall k | 0 <= k < |q| - 1 ensures Edge(g, q[k], q[k + 1]) {
        if k < i {
          assert Edge(g, p[k], p[k + 1]);
        } else {
          assert Edge(g, p[j + (k - i)], p[j + (k - i) + 1]);
        }
      }
      WalkShortens(g, q, a, b);
    }
  }

  lemma ReachesSimply<K(!new)>(g: Digraph<K>, a: K, b: K)
    ensures Reaches(g, a, b) <==> SimplyReaches(g, a, b, {})
  {
    if Reaches(g, a, b) {
      var p :| Walk(g, p, a, b);
      WalkShortens(g, p, a, b);
    }
    if SimplyReaches(g, a, b, {}) {
      var p :| SimplePath(g, p, a, b, {});
      assert Walk(g, p, a, b);
    }
  }

  lemma ReachesCons<K(!new)>(g: Digraph<K>, a: K, d: K, b: K)
    requires Edge(g, a, d) && (d == b || Reaches(g, d, b))
    ensures Reaches(g, a, b)
  {
    if d == b {
      assert Walk(g, [a, b], a, b);
    } else {
      var q :| Walk(g, q, d, b);
      assert Walk(g, [a] + q, a, b);
    }
  }

  /** A set closed under the edges traps every walk that starts in it. */
  lemma {:induction false} ClosedTrapsWalk<K(!new)>(g: Digraph<K>, s: set<K>, p: seq<K>, a: K, b: K)
    requires forall u, v :: u in s && Edge(g, u, v) ==> v in s
    requires a in s && Walk(g, p, a, b)
    ensures b in s
    decreases |p|
  {
    assert Edge(g, p[0], p[1]);
    if |p| > 2 {
      ClosedTrapsWalk(g, s, p[1..], p[1], b);
    }
  }

  // ---------------------------------------------------------------- topological orders

  /** Every successor is itself a node. */
  ghost predicate Closed<K(!new)>(g: Digraph<K>) {
    forall u, v :: Edge(g, u, v) ==> v in g
  }

  /** `order` lists nodes once each, every successor of a node before the node itself. */
  ghost predicate Sorted<K(!new)>(g: Digraph<K>, order: seq<K>) {
    && Distinct(order)
    && (forall i :: 0 <= i < |order| ==> order[i] in g)
    && forall i, v :: 0 <= i < |order| && Edge(g, order[i], v) ==> v in order[..i]
  }

  /** A sorted list of all the nodes. */
  ghost predicate TopologicalOrder<K(!new)>(g: Digraph<K>, order: seq<K>) {
    Sorted(g, order) && forall k :: k in g ==> k in order
  }

  ghost predicate StaysIn<K(!new)>(g: Digraph<K>, rest: set<K>, u: K) {
    exists v :: v in rest && Edge(g, u, v)
  }

  /** Following edges inside a set with no dead end gives walks of any length. */
  lemma {:induction false} EndlessWalk<K(!new)>(g: Digraph<K>, rest: set<K>, start: K, n: nat) returns (p: seq<K>)
    requires start in rest
    requires forall u :: u in rest ==> StaysIn(g, rest, u)
    ensures |p| == n + 1 && forall i :: 0 <= i <= n ==> p[i] in rest
    ensures forall i :: 0 <= i < n ==> Edge(g, p[i], p[i + 1])
  {
    if n == 0 {
      p := [start];
    } else {
      var q := EndlessWalk(g, rest, start, n - 1);
      assert StaysIn(g, rest, q[n - 1]);
      var v :| v in rest && Edge(g, q[n - 1], v);
      p := q + [v];
    }
  }

  lemma RepeatedNodeCycles<K(!new)>(g: Digraph<K>, p: seq<K>)
    requires forall k :: 0 <= k < |p| - 1 ==> Edge(g, p[k], p[k + 1])
    requires exists i, j :: 0 <= i < j < |p| && p[i] == p[j]
    ensures Cyclic(g)
  {
    var i, j :| 0 <= i < j < |p| && p[i] == p[j];
    var c := p[i..j + 1];
    forall k | 0 <= k < |c| - 1 ensures Edge(g, c[k], c[k + 1]) {
      assert c[k] == p[i + k] && c[k + 1] == p[i + k + 1];
    }
    assert Walk(g, c, p[i], p[i]);
    assert Reaches(g, p[i], p[i]);
  }

  /** Without a cycle, some unlisted node has all its successors listed. */
  lemma NextInOrder<K(!new)>(g: Digraph<K>, listed: set<K>)
    requires Closed(g) && !Cyclic(g)
    requires exists k :: k in g && k !in listed
    ensures exists u :: u in g && u !in listed && forall v :: Edge(g, u, v) ==> v in listed
  {
    var rest := g.Keys - listed;
    if forall u :: u in rest ==> StaysIn(g, rest, u) {
      var start :| start in g && start !in listed;
      var p := EndlessWalk(g, rest, start, |rest|);
      Pigeonhole(p, rest);
      RepeatedNodeCycles(g, p);
      assert false;
    }
    var u :| u in rest && !StaysIn(g, rest, u);
    forall v | Edge(g, u, v) ensures v in listed {
      assert v in g;
    }
  }

  lemma {:induction false} ExtendOrder<K(!new)>(g: Digraph<K>, order: seq<K>) returns (full: seq<K>)
    requires Closed(g) && !Cyclic(g) && Sorted(g, order)
    ensures TopologicalOrder(g, full)
    decreases |g| - |order|
  {
    var listed := set k | k in order;
    if forall k :: k in g ==> k in order {
      full := order;
    } else {
      NextInOrder(g, listed);
      var u :| u in g && u !in listed && forall v :: Edge(g, u, v) ==> v in listed;
      var longer := order + [u];
      forall i, v | 0 <= i < |longer| && Edge(g, longer[i], v) ensures v in longer[..i] {
        if i < |order| {
          assert longer[..i] == order[..i];
        } else {
          assert longer[..i] == order;
        }
      }
      DistinctSize(longer);
      assert (set k | k in longer) <= g.Keys;
      SubsetSize((set k | k in longer), g.Keys);
      full := ExtendOrder(g, longer);
    }
  }

  /** Along a walk of a topologically ordered graph, positions strictly fall. */
  lemma {:induction false} WalkDescends<K(!new)>(g: Digraph<K>, order: seq<K>, p: seq<K>, a: K, b: K, i: nat)
    requires TopologicalOrder(g, order) && Walk(g, p, a, b)
    requires i < |order| && order[i] == a
    ensures b in order[..i]
    decreases |p|
  {
    assert Edge(g, p[0], p[1]);
    if |p| > 2 {
      var j :| 0 <= j < i && order[j] == p[1];
      WalkDescends(g, order, p[1..], p[1], b, j);
      assert order[..j] <= order[..i];
    }
  }

  /** A closed finite graph has a topological order exactly when it has no cycle. */
  lemma AcyclicIffOrdered<K(!new)>(g: Digraph<K>)
    requires Closed(g)
    ensures !Cyclic(g) <==> exists order :: TopologicalOrder(g, order)
  {
    if !Cyclic(g) {
      var full := ExtendOrder(g, []);
      assert TopologicalOrder(g, full);
    }
    if order :| TopologicalOrder(g, order) {
      forall k ensures !Reaches(g, k, k) {
        forall p ensures !Walk(g, p, k, k) {
          if Walk(g, p, k, k) {
            assert Edge(g, p[0], p[1]);
            var i :| 0 <= i < |order| && order[i] == k;
            WalkDescends(g, order, p, k, k, i);
          }
        }
      }
    }
  }
}
