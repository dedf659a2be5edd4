/** Breadth-first search: shortest paths in a finite directed graph. */
module Search {
  import opened Wrappers

  /** `path` leads from `from` to `to` along edges. */
  predicate Leads<T(==)>(edge: (T, T) -> bool, from: T, path: seq<T>, to: T)
    decreases |path|
  {
    if path == [] then from == to else edge(from, path[0]) && Leads(edge, path[0], path[1..], to)
  }

  /** No other path is shorter. */
  ghost predicate Shortest<T(!new)>(edge: (T, T) -> bool, from: T, path: seq<T>, to: T) {
    Leads(edge, from, path, to) && forall p :: Leads(edge, from, p, to) ==> |path| <= |p|
  }

  /** `prev` is a tree rooted at `from`, with every node at its recorded distance. */
  ghost predicate Tree<T>(edge: (T, T) -> bool, from: T, prev: map<T, T>, dist: map<T, nat>) {
    && from in dist && dist[from] == 0 && from !in prev
    && dist.Keys == prev.Keys + {from}
    && forall n :: n in prev ==> prev[n] in dist && edge(prev[n], n) && dist[n] == dist[prev[n]] + 1
  }

  /** The queue holds nodes at distance `d` or `d + 1`, the nearer ones first, and nothing found is further away. */
  ghost predicate Layered<T>(dist: map<T, nat>, q: seq<T>, d: nat) {
    && (forall n :: n in dist ==> dist[n] <= d + 1)
    && (forall i :: 0 <= i < |q| ==> q[i] in dist && d <= dist[q[i]])
    && forall i, j :: 0 <= i < j < |q| ==> dist[q[i]] <= dist[q[j]]
  }

  /** Every node that was found and is no longer waiting has had all its successors found. */
  ghost predicate Closed<T(!new)>(edge: (T, T) -> bool, dist: map<T, nat>, waiting: seq<T>) {
    forall s, n :: s in dist && s !in waiting && edge(s, n) ==> n in dist && dist[n] <= dist[s] + 1
  }

  lemma {:induction false} NearIsFound<T(!new)>(edge: (T, T) -> bool, dist: map<T, nat>, waiting: seq<T>, d: nat,
                                                from: T, path: seq<T>, to: T)
    requires Closed(edge, dist, waiting) && (forall s :: s in waiting && s in dist ==> d <= dist[s])
    requires from in dist && Leads(edge, from, path, to) && dist[from] + |path| <= d
    ensures to in dist
    decreases |path|
  {
    if path != [] {
      assert from !in waiting;
      NearIsFound(edge, dist, waiting, d, path[0], path[1..], to);
    }
  }

  lemma {:induction false} EverythingIsFound<T(!new)>(edge: (T, T) -> bool, dist: map<T, nat>, from: T, path: seq<T>,
                                                      to: T)
    requires Closed(edge, dist, []) && from in dist && Leads(edge, from, path, to)
    ensures to in dist
    decreases |path|
  {
    if path != [] {
      EverythingIsFound(edge, dist, path[0], path[1..], to);
    }
  }

  lemma {:induction false} MembersCount<T>(a: set<T>, nodes: seq<T>)
    requires forall x :: x in a ==> x in nodes
    ensures |a| <= |nodes|
    decreases |nodes|
  {
    if nodes == [] {
      assert a == {};
    } else {
      var rest := a - {nodes[0]};
      assert |a| <= |rest| + 1;
      MembersCount(rest, nodes[1..]);
    }
  }

  /** Walks the tree back from `to`. */
  method WalkBack<T(==)>(edge: (T, T) -> bool, from: T, to: T, prev: map<T, T>, ghost dist: map<T, nat>)
    returns (path: seq<T>)
    requires Tree(edge, from, prev, dist) && to in prev
    ensures Leads(edge, from, path, to) && |path| == dist[to]
  {
    path := [to];
    var cur := to;
    while prev[cur] != from
      invariant cur in prev && |path| > 0 && path[0] == cur && Leads(edge, cur, path[1..], to)
      invariant |path| + dist[cur] == dist[to] + 1
      decreases dist[cur]
    {
      path, cur := [prev[cur]] + path, prev[cur];
    }
  }

  /** The search so far: `s` is being expanded, its successors among the first `i` nodes have been found. */
  ghost predicate Expanding<T(!new)>(nodes: seq<T>, edge: (T, T) -> bool, from: T, prev: map<T, T>, dist: map<T, nat>,
                                     q: seq<T>, s: T, i: nat)
  {
    && Tree(edge, from, prev, dist) && s in dist && Layered(dist, q, dist[s]) && Closed(edge, dist, [s] + q)
    && i <= |nodes| && forall k :: 0 <= k < i && edge(s, nodes[k]) ==> nodes[k] in dist
  }

  lemma FoundNow<T(!new)>(nodes: seq<T>, edge: (T, T) -> bool, from: T, prev: map<T, T>, dist: map<T, nat>, q: seq<T>,
                          s: T, i: nat)
    requires Expanding(nodes, edge, from, prev, dist, q, s, i) && i < |nodes| && nodes[i] !in dist && edge(s, nodes[i])
    ensures Expanding(nodes, edge, from, prev[nodes[i] := s], dist[nodes[i] := dist[s] + 1], q + [nodes[i]], s, i + 1)
  {
    var n := nodes[i];
    var dist' := dist[n := dist[s] + 1];
    var waiting := [s] + (q + [n]);
    assert n in waiting by { assert waiting[|waiting| - 1] == n; }
    assert forall z :: z in [s] + q ==> z in waiting;
    forall x, y | x in dist' && x !in waiting && edge(x, y) ensures y in dist' && dist'[y] <= dist'[x] + 1 {
      assert x != n && x !in [s] + q;
    }
  }

  /** The node being expanded is done once every node was looked at; the next one in the queue takes its place. */
  lemma Expanded<T(!new)>(nodes: seq<T>, edge: (T, T) -> bool, from: T, prev: map<T, T>, dist: map<T, nat>,
                          q: seq<T>, s: T)
    requires Expanding(nodes, edge, from, prev, dist, q, s, |nodes|) && forall x :: x in nodes
    ensures Closed(edge, dist, q)
    ensures q != [] ==> Expanding(nodes, edge, from, prev, dist, q[1..], q[0], 0)
  {
    forall x, n | x in dist && x !in q && edge(x, n) ensures n in dist && dist[n] <= dist[x] + 1 {
      if x == s {
        assert n in nodes;
      } else {
        assert x !in [s] + q;
      }
    }
    if q != [] {
      assert [q[0]] + q[1..] == q;
    }
  }

  /** Whatever is found next is found at the end of a shortest path. */
  lemma FoundIsShortest<T(!new)>(nodes: seq<T>, edge: (T, T) -> bool, from: T, prev: map<T, T>, dist: map<T, nat>,
                                 q: seq<T>, s: T, i: nat, to: T, p: seq<T>)
    requires Expanding(nodes, edge, from, prev, dist, q, s, i) && to !in dist && Leads(edge, from, p, to)
    ensures dist[s] < |p|
  {
    if |p| <= dist[s] {
      forall x | x in [s] + q && x in dist ensures dist[s] <= dist[x] {
      }
      NearIsFound(edge, dist, [s] + q, dist[s], from, p, to);
    }
  }

  lemma InsertedKey<T>(prev: map<T, T>, n: T, s: T, nodes: seq<T>)
    requires n !in prev && forall x :: x in nodes
    ensures |prev[n := s].Keys| == |prev.Keys| + 1 <= |nodes|
  {
    assert prev[n := s].Keys == prev.Keys + {n};
    MembersCount(prev.Keys + {n}, nodes);
  }

  lemma NotFound<T>(edge: (T, T) -> bool, from: T, prev: map<T, T>, dist: map<T, nat>, n: T)
    requires Tree(edge, from, prev, dist)
    ensures n in dist <==> n == from || n in prev
  {
  }

  lemma Skipped<T(!new)>(nodes: seq<T>, edge: (T, T) -> bool, from: T, prev: map<T, T>, dist: map<T, nat>, q: seq<T>,
                         s: T, i: nat)
    requires Expanding(nodes, edge, from, prev, dist, q, s, i) && i < |nodes|
    requires nodes[i] == s || nodes[i] == from || nodes[i] in prev || !edge(s, nodes[i])
    ensures Expanding(nodes, edge, from, prev, dist, q, s, i + 1)
  {
    NotFound(edge, from, prev, dist, nodes[i]);
  }

  /** The target was found as a successor of `s`. */
  method Finish<T(==, !new)>(nodes: seq<T>, edge: (T, T) -> bool, from: T, to: T, prev: map<T, T>,
                             ghost dist: map<T, nat>, ghost q: seq<T>, s: T, ghost i: nat)
    returns (path: seq<T>)
    requires Expanding(nodes, edge, from, prev, dist, q, s, i) && i < |nodes| && nodes[i] == to
    requires to !in dist && edge(s, to)
    ensures Shortest(edge, from, path, to)
  {
    FoundNow(nodes, edge, from, prev, dist, q, s, i);
    forall p | Leads(edge, from, p, to) ensures dist[s] + 1 <= |p| {
      FoundIsShortest(nodes, edge, from, prev, dist, q, s, i, to, p);
    }
    path := WalkBack(edge, from, to, prev[to := s], dist[to := dist[s] + 1]);
  }

  /** Looks at every successor of `s`; ends the search when `to` is one of them. */
  method Expand<T(==, !new)>(nodes: seq<T>, edge: (T, T) -> bool, from: T, to: T, prev: map<T, T>,
                             ghost dist: map<T, nat>, q: seq<T>, s: T)
    returns (found: Option<seq<T>>, prev': map<T, T>, ghost dist': map<T, nat>, q': seq<T>)
    requires (forall x :: x in nodes) && to !in dist && Expanding(nodes, edge, from, prev, dist, q, s, 0)
    ensures found.Some? ==> Shortest(edge, from, found.value, to)
    ensures found.None? ==> to !in dist' && Expanding(nodes, edge, from, prev', dist', q', s, |nodes|)
    ensures |prev.Keys| <= |prev'.Keys| && |q'| - |prev'.Keys| == |q| - |prev.Keys|
  {
    prev', dist', q' := prev, dist, q;
    for i := 0 to |nodes|
      invariant to !in dist' && |prev.Keys| <= |prev'.Keys| && |q'| - |prev'.Keys| == |q| - |prev.Keys|
      invariant Expanding(nodes, edge, from, prev', dist', q', s, i)
    {
      var n := nodes[i];
      if n != s && n != from && n !in prev' && edge(s, n) {
        NotFound(edge, from, prev', dist', n);
        if n == to {
          var path := Finish(nodes, edge, from, to, prev', dist', q', s, i);
          return Some(path), prev', dist', q';
        }
        FoundNow(nodes, edge, from, prev', dist', q', s, i);
        InsertedKey(prev', n, s, nodes);
        prev', dist', q' := prev'[n := s], dist'[n := dist'[s] + 1], q' + [n];
      } else {
        Skipped(nodes, edge, from, prev', dist', q', s, i);
      }
    }
    found := None;
  }

  /** A shortest path, or none when there is no path. */
  method ShortestPath<T(==, !new)>(nodes: seq<T>, edge: (T, T) -> bool, from: T, to: T) returns (r: Option<seq<T>>)
    requires forall x :: x in nodes
    ensures r.Some? ==> Shortest(edge, from, r.value, to)
    ensures r.None? ==> forall p :: !Leads(edge, from, p, to)
  {
    if from == to {
      return Some([]);
    }
    var prev: map<T, T> := map[];
    var q := [from];
    ghost var dist: map<T, nat> := map[from := 0];
    while q != []
      invariant to !in dist && from in dist && Closed(edge, dist, q)
      invariant q != [] ==> Expanding(nodes, edge, from, prev, dist, q[1..], q[0], 0)
      decreases |nodes| - |prev.Keys| + |q|
    {
      MembersCount(prev.Keys, nodes);
      var s := q[0];
      q := q[1..];
      r, prev, dist, q := Expand(nodes, edge, from, to, prev, dist, q, s);
      if r.Some? {
        return;
      }
      Expanded(nodes, edge, from, prev, dist, q, s);
    }
    forall p | Leads(edge, from, p, to) ensures false {
      EverythingIsFound(edge, dist, from, p, to);
    }
    r := None;
  }
}
