/** Singly linked lists that may run into a cycle, as successor tables: `links[i]` is the
    node after node `i`, and node 0 is the head. */
module Links {

  ghost predicate Distinct(s: seq<nat>)
  {
    forall i, j | 0 <= i < j < |s| :: s[i] != s[j]
  }

  /** No node has a null successor. */
  ghost predicate Closed(links: seq<nat>)
  {
    |links| > 0 && forall i | 0 <= i < |links| :: links[i] < |links|
  }

  /** `path` lists the nodes met from the head, each once, and the last one leads back into
      the list: a ring when it leads to the head, a lasso otherwise. */
  ghost predicate IsOrbit(links: seq<nat>, path: seq<nat>)
  {
    && |path| > 0 && path[0] == 0
    && Distinct(path)
    && (forall i | 0 <= i < |path| :: path[i] < |links|)
    && (forall i | 0 <= i < |path| - 1 :: links[path[i]] == path[i + 1])
    && links[path[|path| - 1]] in path
  }

  ghost function Unseen(links: seq<nat>, seen: seq<nat>): set<nat>
  {
    set i: nat | i < |links| && i !in seen
  }

  ghost function Walk(links: seq<nat>, seen: seq<nat>): (r: seq<nat>)
    requires Closed(links) && |seen| > 0 && Distinct(seen)
    requires forall i | 0 <= i < |seen| :: seen[i] < |links|
    requires forall i | 0 <= i < |seen| - 1 :: links[seen[i]] == seen[i + 1]
    requires seen[0] == 0
    ensures |r| > 0 && r[0] == 0 && forall i | 0 <= i < |r| :: r[i] < |links|
    decreases Unseen(links, seen)
  {
    var next := links[seen[|seen| - 1]];
    if next in seen then seen
    else
      assert Unseen(links, seen + [next]) == Unseen(links, seen) - {next};
      Walk(links, seen + [next])
  }

  /** The nodes reachable from the head, in the order they are met. */
  ghost function Orbit(links: seq<nat>): (path: seq<nat>)
    requires Closed(links)
    ensures |path| > 0 && path[0] == 0 && forall i | 0 <= i < |path| :: path[i] < |links|
  {
    Walk(links, [0])
  }

  lemma {:induction false} WalkShape(links: seq<nat>, seen: seq<nat>)
    requires Closed(links) && |seen| > 0 && Distinct(seen)
    requires forall i | 0 <= i < |seen| :: seen[i] < |links|
    requires forall i | 0 <= i < |seen| - 1 :: links[seen[i]] == seen[i + 1]
    requires seen[0] == 0
    ensures IsOrbit(links, Walk(links, seen))
    decreases Unseen(links, seen)
  {
    var next := links[seen[|seen| - 1]];
    if next !in seen {
      assert Unseen(links, seen + [next]) == Unseen(links, seen) - {next};
      WalkShape(links, seen + [next]);
    }
  }

  /** Any list without null successors is a finite duplicate-free lasso. */
  lemma OrbitShape(links: seq<nat>)
    requires Closed(links)
    ensures IsOrbit(links, Orbit(links))
  {
    WalkShape(links, [0]);
  }

  lemma OrbitDistinct(links: seq<nat>)
    requires Closed(links)
    ensures Distinct(Orbit(links))
  {
    OrbitShape(links);
  }

  /** The node the last reachable node leads back to: the head of a ring. */
  ghost function Closing(links: seq<nat>): nat
    requires Closed(links)
  {
    var path := Orbit(links);
    links[path[|path| - 1]]
  }

  lemma {:induction false} WalkStays(links: seq<nat>, path: seq<nat>, k: nat)
    requires Closed(links) && IsOrbit(links, path) && 0 < k <= |path|
    ensures Walk(links, path[..k]) == path
    decreases |path| - k
  {
    if k < |path| {
      assert path[..k + 1] == path[..k] + [path[k]];
      WalkStays(links, path, k + 1);
    } else {
      assert path[..k] == path;
    }
  }

  lemma OrbitUnique(links: seq<nat>, path: seq<nat>)
    requires Closed(links) && IsOrbit(links, path)
    ensures Orbit(links) == path
  {
    assert path[..1] == [0];
    WalkStays(links, path, 1);
  }

  /** Successors of reachable nodes are reachable. */
  lemma OrbitClosed(links: seq<nat>, x: nat)
    requires Closed(links) && x in Orbit(links)
    ensures links[x] in Orbit(links)
  {
    var path := Orbit(links);
    OrbitShape(links);
    var i :| 0 <= i < |path| && path[i] == x;
    if i < |path| - 1 { assert links[path[i]] == path[i + 1]; }
  }

  /** The node reached after `k` links. */
  ghost function Nth(links: seq<nat>, k: nat): (r: nat)
    requires Closed(links)
    ensures r < |links|
  {
    if k == 0 then 0 else links[Nth(links, k - 1)]
  }

  /** The walk follows the orbit, and enters the head again only by the closing link. */
  lemma {:induction false} NthOnOrbit(links: seq<nat>, k: nat)
    requires Closed(links)
    ensures Nth(links, k) in Orbit(links)
    ensures k > 0 && Closing(links) != 0 ==> Nth(links, k) != 0
    ensures k < |Orbit(links)| ==> Nth(links, k) == Orbit(links)[k]
    ensures Nth(links, |Orbit(links)|) == Closing(links)
    decreases k
  {
    var path := Orbit(links);
    OrbitShape(links);
    NthPrefix(links, |path| - 1);
    if k > 0 {
      NthOnOrbit(links, k - 1);
      var i :| 0 <= i < |path| && path[i] == Nth(links, k - 1);
      if i < |path| - 1 { assert links[path[i]] == path[i + 1] && path[i + 1] != path[0]; }
      if k < |path| { NthPrefix(links, k); }
    }
  }

  lemma {:induction false} NthPrefix(links: seq<nat>, k: nat)
    requires Closed(links) && k < |Orbit(links)|
    ensures Nth(links, k) == Orbit(links)[k]
    decreases k
  {
    OrbitShape(links);
    if k > 0 { NthPrefix(links, k - 1); }
  }

  /** Splicing node `n` in after node `x`, with the head's successor as its own. */
  function Splice(links: seq<nat>, x: nat): (r: seq<nat>)
    requires |links| > 0 && x < |links|
    ensures |r| == |links| + 1
  {
    (links + [links[0]])[x := |links|]
  }

  lemma SpliceAtHeadOrbit(links: seq<nat>, path: seq<nat>)
    requires Closed(links) && IsOrbit(links, path)
    ensures IsOrbit(Splice(links, 0), [0, |links|] + path[1..])
  {
    var after, path' := Splice(links, 0), [0, |links|] + path[1..];
    assert forall i | 2 <= i < |path'| :: path'[i] == path[i - 1];
    forall i | 0 <= i < |path'| - 1 ensures after[path'[i]] == path'[i + 1] {
      if i == 1 { assert links[path[0]] == path[1]; }
      if i > 1 { assert links[path[i - 1]] == path[i]; }
    }
    var last := path[|path| - 1];
    var k :| 0 <= k < |path| && path[k] == links[last];
    assert path'[if k == 0 then 0 else k + 1] == links[last];
  }

  /** Spliced in after the head, the new node becomes second and nothing is lost; the
      closing link is unchanged. */
  lemma SpliceAtHead(links: seq<nat>)
    requires Closed(links)
    ensures Closed(Splice(links, 0))
    ensures Orbit(Splice(links, 0)) == [0, |links|] + Orbit(links)[1..]
    ensures Closing(Splice(links, 0)) == Closing(links)
  {
    var path := Orbit(links);
    OrbitShape(links);
    SpliceAtHeadOrbit(links, path);
    OrbitUnique(Splice(links, 0), [0, |links|] + path[1..]);
  }

  lemma SpliceFurtherOrbit(links: seq<nat>, path: seq<nat>, k: nat)
    requires Closed(links) && IsOrbit(links, path) && 0 < k < |path|
    ensures IsOrbit(Splice(links, path[k]), path[..k + 1] + [|links|])
    ensures Splice(links, path[k])[|links|] == path[1]
  {
    var after, path' := Splice(links, path[k]), path[..k + 1] + [|links|];
    forall i | 0 <= i < |path'| - 1 ensures after[path'[i]] == path'[i + 1] {
      if i < k { assert links[path[i]] == path[i + 1] == path'[i + 1]; }
    }
    assert after[|links|] == links[path[0]] == path[1] == path'[1];
  }

  /** Spliced in after the node at position k > 0, it cuts off everything behind that node
      and closes onto the node after the head. */
  lemma SpliceFurther(links: seq<nat>, k: nat)
    requires Closed(links) && 0 < k < |Orbit(links)|
    ensures var path := Orbit(links);
            && Closed(Splice(links, path[k]))
            && Orbit(Splice(links, path[k])) == path[..k + 1] + [|links|]
            && Closing(Splice(links, path[k])) == path[1]
  {
    var path := Orbit(links);
    OrbitShape(links);
    SpliceFurtherOrbit(links, path, k);
    OrbitUnique(Splice(links, path[k]), path[..k + 1] + [|links|]);
  }
}
