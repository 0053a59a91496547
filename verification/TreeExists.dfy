/**
 Below every node of a file system that keeps its invariant there is a finite
 tree, and only one way up from each of its nodes.
 */
module TreeExists {
  import opened Common
  import opened FsTree
  import opened FsInvariant
  import opened Subtrees

  /** There is one way up from a node. */
  lemma {:induction false} OneWayUp(nodes: map<Id, Node>, p: seq<Id>, q: seq<Id>)
    requires Climb(nodes, p) && Climb(nodes, q) && p[0] == q[0] && NULL !in nodes
    ensures p == q
    decreases |p|
  {
    EndsAtOnce(nodes, p);
    EndsAtOnce(nodes, q);
    if |p| == 1 {
      assert p == [p[0]] && q == [q[0]];
    } else {
      ClimbSuffix(nodes, p, 1);
      ClimbSuffix(nodes, q, 1);
      OneWayUp(nodes, p[1..], q[1..]);
      assert p == [p[0]] + p[1..] && q == [q[0]] + q[1..];
    }
  }

  lemma EndsAtOnce(nodes: map<Id, Node>, p: seq<Id>)
    requires Climb(nodes, p) && NULL !in nodes
    ensures |p| == 1 <==> nodes[p[0]].parent == NULL
  {
    if |p| > 1 {
      assert p[1] in nodes;
    }
  }

  lemma ClimbDistinct(nodes: map<Id, Node>, p: seq<Id>)
    requires Climb(nodes, p) && NULL !in nodes
    ensures Distinct(p)
  {
    forall i, j | 0 <= i < j < |p| ensures p[i] != p[j] {
      ClimbSuffix(nodes, p, i);
      ClimbSuffix(nodes, p, j);
      if p[i] == p[j] {
        OneWayUp(nodes, p[i..], p[j..]);
      }
    }
  }

  lemma {:induction false} DistinctCount(p: seq<Id>, S: set<Id>)
    requires Distinct(p) && forall i :: 0 <= i < |p| ==> p[i] in S
    ensures |p| <= |S|
  {
    if p != [] {
      DistinctCount(p[1..], S - {p[0]});
    }
  }

  /** Depth is bounded by the number of nodes. */
  lemma ClimbBound(nodes: map<Id, Node>, p: seq<Id>)
    requires Climb(nodes, p) && NULL !in nodes
    ensures |p| <= |nodes.Keys|
  {
    ClimbDistinct(nodes, p);
    DistinctCount(p, nodes.Keys);
  }

  /** x climbs to some member of l, and on along up. */
  ghost predicate Via(nodes: map<Id, Node>, x: Id, l: seq<Id>, up: seq<Id>) {
    exists q :: Climbing(nodes, x, l, up, q)
  }

  ghost predicate Climbing(nodes: map<Id, Node>, x: Id, l: seq<Id>, up: seq<Id>, q: seq<Id>) {
    q != [] && q[0] == x && q[|q| - 1] in l && Climb(nodes, q + up)
  }

  ghost predicate AllVia(nodes: map<Id, Node>, f: Forest, l: seq<Id>, up: seq<Id>) {
    forall x :: x in Ids(f) ==> Via(nodes, x, l, up)
  }

  /** The trees below a list of children of one directory, up being its way to the root */
  lemma {:induction false} ForestOf(s: Fs, l: seq<Id>, up: seq<Id>) returns (f: Forest)
    requires Links(s.nodes, s.kids) && Climb(s.nodes, up) && up[0] in s.kids
    requires Distinct(l) && forall i :: 0 <= i < |l| ==> l[i] in s.kids[up[0]]
    ensures Match(s.nodes, s.kids, f) && Heads(f) == l && Proper(f) && AllVia(s.nodes, f, l, up)
    decreases |s.nodes.Keys| - |up|, |l|
  {
    hide Links, Climb, Via;
    if l == [] {
      f := Nil;
    } else {
      var n := l[0];
      ChildClimbs(s, up, n);
      var rest := ForestOf(s, l[1..], up);
      NotInRest(s, n, l, up, rest);
      if s.nodes[n].kind.Directory? {
        ListIsDistinct(s, n);
        ClimbBound(s.nodes, [n] + up);
        var kids := ForestOf(s, s.kids[n], [n] + up);
        f := Dir(n, s.nodes[n].name, kids, rest);
        Apart(s, n, l, up, kids, rest);
      } else {
        f := File(n, s.nodes[n].name, rest);
      }
      forall x | x in Ids(f) ensures Via(s.nodes, x, l, up) {
        if x != n && x !in Ids(rest) {
          ViaWider(s.nodes, x, n, s.kids[n], l, up);
        } else if x != n {
          ViaLonger(s.nodes, x, l, up);
        } else {
          ViaSelf(s.nodes, n, l, up);
        }
      }
    }
  }

  lemma ChildClimbs(s: Fs, up: seq<Id>, n: Id)
    requires Links(s.nodes, s.kids) && Climb(s.nodes, up) && up[0] in s.kids && n in s.kids[up[0]]
    ensures n in s.nodes && n in s.kids && Climb(s.nodes, [n] + up) && NULL !in s.nodes && NULL !in s.nodes.Keys
  {
    ClimbJoin(s.nodes, [n], up);
  }

  lemma ListIsDistinct(s: Fs, n: Id)
    requires Links(s.nodes, s.kids) && n in s.nodes
    ensures n in s.kids && Distinct(s.kids[n])
  {
  }

  lemma NotInRest(s: Fs, n: Id, l: seq<Id>, up: seq<Id>, rest: Forest)
    requires Climb(s.nodes, [n] + up) && NULL !in s.nodes && l != [] && l[0] == n && Distinct(l)
    requires AllVia(s.nodes, rest, l[1..], up)
    ensures n !in Ids(rest)
  {
    hide Climb;
    if n in Ids(rest) {
      assert Via(s.nodes, n, l[1..], up);
      var q :| Climbing(s.nodes, n, l[1..], up, q);
      OneWayUp(s.nodes, q + up, [n] + up);
    }
  }

  lemma Apart(s: Fs, n: Id, l: seq<Id>, up: seq<Id>, kids: Forest, rest: Forest)
    requires Climb(s.nodes, [n] + up) && NULL !in s.nodes && l != [] && l[0] == n && Distinct(l)
    requires n in s.kids && AllVia(s.nodes, rest, l[1..], up) && AllVia(s.nodes, kids, s.kids[n], [n] + up)
    ensures n !in Ids(kids) && Ids(kids) !! Ids(rest)
  {
    hide Climb;
    if n in Ids(kids) {
      assert Via(s.nodes, n, s.kids[n], [n] + up);
      var q :| Climbing(s.nodes, n, s.kids[n], [n] + up, q);
      OneWayUp(s.nodes, q + ([n] + up), [n] + up);
    }
    forall x | x in Ids(kids) ensures x !in Ids(rest) {
      if x in Ids(rest) {
        assert Via(s.nodes, x, s.kids[n], [n] + up) && Via(s.nodes, x, l[1..], up);
        var q :| Climbing(s.nodes, x, s.kids[n], [n] + up, q);
        var r :| Climbing(s.nodes, x, l[1..], up, r);
        OneWayUp(s.nodes, q + ([n] + up), r + up);
        SameStart(q, n, up, r);
      }
    }
  }

  lemma SameStart(q: seq<Id>, n: Id, up: seq<Id>, r: seq<Id>)
    requires q + ([n] + up) == r + up
    ensures r == q + [n]
  {
    assert |r| == |q| + 1;
    assert (r + up)[..|r|] == r && (q + ([n] + up))[..|r|] == q + [n];
  }

  lemma ViaWider(nodes: map<Id, Node>, x: Id, n: Id, below: seq<Id>, l: seq<Id>, up: seq<Id>)
    requires Via(nodes, x, below, [n] + up) && l != [] && l[0] == n
    ensures Via(nodes, x, l, up)
  {
    hide Climb;
    var q :| Climbing(nodes, x, below, [n] + up, q);
    assert q + ([n] + up) == (q + [n]) + up;
    assert Climbing(nodes, x, l, up, q + [n]);
  }

  lemma ViaLonger(nodes: map<Id, Node>, x: Id, l: seq<Id>, up: seq<Id>)
    requires l != [] && Via(nodes, x, l[1..], up)
    ensures Via(nodes, x, l, up)
  {
    hide Climb;
    var q :| Climbing(nodes, x, l[1..], up, q);
    assert Climbing(nodes, x, l, up, q);
  }

  lemma ViaSelf(nodes: map<Id, Node>, n: Id, l: seq<Id>, up: seq<Id>)
    requires Climb(nodes, [n] + up) && l != [] && l[0] == n
    ensures Via(nodes, n, l, up)
  {
    hide Climb;
    assert Climbing(nodes, n, l, up, [n]);
  }

  /** Every linked node is the top of one tree. */
  lemma TreeOf(s: Fs, n: Id) returns (f: Forest)
    requires Inv(s) && n in s.nodes && s.nodes[n].parent != NULL
    ensures !f.Nil? && f.id == n && f.rest.Nil? && Match(s.nodes, s.kids, f) && Proper(f)
  {
    hide Names, Mounts, Detached, Climb;
    var d := s.nodes[n].parent;
    assert Grounded(s.nodes, d);
    var up := WayUp(s.nodes, d);
    f := ForestOf(s, [n], up);
    assert Heads(f)[0] == n;
    assert |Heads(f)| == 1;
  }

  lemma WayUp(nodes: map<Id, Node>, n: Id) returns (up: seq<Id>)
    requires Grounded(nodes, n)
    ensures Climb(nodes, up) && up != [] && up[0] == n
  {
    up :| Climb(nodes, up) && up[0] == n;
  }
}
