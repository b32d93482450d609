/** Import graphs and reachability (scripts/phase2_executable_boundary.py).

    A graph maps every scanned module to the modules it imports.  Imported names
    need not be scanned modules themselves: `graph.get(module, ())` gives such a
    name no outgoing edge. */
module ImportGraph {
  type Module = string
  type Graph = map<Module, set<Module>>

  predicate Edge(g: Graph, a: Module, b: Module) {
    a in g && b in g[a]
  }

  /** `p` lists the modules visited after `a`, ending in `b`. */
  ghost predicate Path(g: Graph, a: Module, p: seq<Module>, b: Module)
    decreases |p|
  {
    if p == [] then a == b else Edge(g, a, p[0]) && Path(g, p[0], p[1..], b)
  }

  ghost predicate Reaches(g: Graph, a: Module, b: Module) {
    exists p :: Path(g, a, p, b)
  }

  ghost predicate Mutual(g: Graph, a: Module, b: Module) {
    Reaches(g, a, b) && Reaches(g, b, a)
  }

  ghost predicate EdgeClosed(g: Graph, s: set<Module>) {
    forall a, b :: a in s && Edge(g, a, b) ==> b in s
  }

  lemma ReachesSelf(g: Graph, a: Module)
    ensures Reaches(g, a, a)
  {
    assert Path(g, a, [], a);
  }

  lemma ReachesEdge(g: Graph, a: Module, b: Module)
    requires Edge(g, a, b)
    ensures Reaches(g, a, b)
  {
    assert Path(g, b, [], b);
    assert [b][1..] == [];
    assert Path(g, a, [b], b);
  }

  lemma {:induction false} PathAppend(g: Graph, a: Module, p: seq<Module>, b: Module, q: seq<Module>, c: Module)
    requires Path(g, a, p, b) && Path(g, b, q, c)
    ensures Path(g, a, p + q, c)
    decreases |p|
  {
    if p == [] {
      assert p + q == q;
    } else {
      PathAppend(g, p[0], p[1..], b, q, c);
      assert (p + q)[1..] == p[1..] + q;
    }
  }

  lemma ReachesTransitive(g: Graph, a: Module, b: Module, c: Module)
    requires Reaches(g, a, b) && Reaches(g, b, c)
    ensures Reaches(g, a, c)
  {
    var p :| Path(g, a, p, b);
    var q :| Path(g, b, q, c);
    PathAppend(g, a, p, b, q, c);
  }

  /** A path that leaves a set crosses its border along one edge. */
  lemma {:induction false} PathExit(g: Graph, a: Module, p: seq<Module>, b: Module, s: set<Module>)
    returns (u: Module, w: Module)
    requires Path(g, a, p, b) && a in s && b !in s
    ensures u in s && w !in s && Edge(g, u, w)
    ensures Reaches(g, a, u) && Reaches(g, w, b)
    decreases |p|
  {
    if p[0] in s {
      u, w := PathExit(g, p[0], p[1..], b, s);
      ReachesEdge(g, a, p[0]);
      ReachesTransitive(g, a, p[0], u);
    } else {
      u, w := a, p[0];
      ReachesSelf(g, a);
    }
  }

  lemma ReachesExit(g: Graph, a: Module, b: Module, s: set<Module>) returns (u: Module, w: Module)
    requires Reaches(g, a, b) && a in s && b !in s
    ensures u in s && w !in s && Edge(g, u, w)
    ensures Reaches(g, a, u) && Reaches(g, w, b)
  {
    var p :| Path(g, a, p, b);
    u, w := PathExit(g, a, p, b, s);
  }

  lemma ClosedContainsReachable(g: Graph, s: set<Module>, a: Module, b: Module)
    requires EdgeClosed(g, s) && a in s && Reaches(g, a, b)
    ensures b in s
  {
    if b !in s {
      var u, w := ReachesExit(g, a, b, s);
    }
  }

  /** A name that is not a scanned module reaches nothing but itself. */
  lemma OutsideReachesItself(g: Graph, a: Module, b: Module)
    requires a !in g && Reaches(g, a, b)
    ensures a == b
  {
    var p :| Path(g, a, p, b);
  }

  /** The order in which a Python set or dict hands out its members is free. */
  method Listing(s: set<Module>) returns (r: seq<Module>)
    ensures forall m :: m in r <==> m in s
    ensures |r| == |s|
  {
    r := [];
    var rest := s;
    while rest != {}
      invariant rest <= s
      invariant forall m :: m in r <==> m in s - rest
      invariant |r| + |rest| == |s|
    {
      var m :| m in rest;
      rest := rest - {m};
      r := r + [m];
    }
  }

  ghost function AllNames(g: Graph, root: Module): set<Module> {
    {root} + g.Keys + (set a, b | a in g && b in g[a] :: b)
  }

  /** `_reachable`: a worklist that may hold the same module many times. */
  method Reachable(g: Graph, root: Module) returns (observed: set<Module>)
    ensures forall m :: m in observed <==> Reaches(g, root, m)
  {
    var pending := [root];
    observed := {};
    ReachesSelf(g, root);
    while pending != []
      invariant observed <= AllNames(g, root)
      invariant forall m :: m in pending ==> m in AllNames(g, root)
      invariant forall m :: m in observed || m in pending ==> Reaches(g, root, m)
      invariant root in observed || root in pending
      invariant forall a, b :: a in observed && Edge(g, a, b) ==> b in observed || b in pending
      decreases AllNames(g, root) - observed, |pending|
    {
      var current := pending[|pending| - 1];
      ghost var before := pending;
      pending := pending[..|pending| - 1];
      assert before == pending + [current];
      if current in observed {
        continue;
      }
      observed := observed + {current};
      var imports := {};
      if current in g {
        imports := g[current];
      }
      var extension := Listing(imports);
      forall b | b in imports ensures Reaches(g, root, b) {
        ReachesEdge(g, current, b);
        ReachesTransitive(g, root, current, b);
      }
      pending := pending + extension;
    }
    forall m | Reaches(g, root, m) ensures m in observed {
      ClosedContainsReachable(g, observed, root, m);
    }
  }

  /** What `_reachable` returns is the least edge-closed set holding its root. */
  lemma ReachableIsLeastClosed(g: Graph, root: Module, observed: set<Module>)
    requires forall m :: m in observed <==> Reaches(g, root, m)
    ensures root in observed && EdgeClosed(g, observed)
    ensures forall s: set<Module> :: root in s && EdgeClosed(g, s) ==> observed <= s
  {
    ReachesSelf(g, root);
    forall a, b | a in observed && Edge(g, a, b) ensures b in observed {
      ReachesEdge(g, a, b);
      ReachesTransitive(g, root, a, b);
    }
    forall s: set<Module>, m | root in s && EdgeClosed(g, s) && m in observed ensures m in s {
      ClosedContainsReachable(g, s, root, m);
    }
  }

  /** `_matches_namespace`. */
  predicate MatchesNamespace(m: Module, namespaces: seq<Module>) {
    exists i :: 0 <= i < |namespaces| && (m == namespaces[i] || namespaces[i] + "." <= m)
  }

  function Dot(m: Module): (i: nat)
    ensures i <= |m| && (i < |m| ==> m[i] == '.') && forall j :: 0 <= j < i ==> m[j] != '.'
  {
    if m == [] || m[0] == '.' then 0 else 1 + Dot(m[1..])
  }

  /** The dotted components of a name. */
  function Parts(m: Module): (r: seq<string>)
    ensures r != []
    decreases |m|
  {
    var i := Dot(m);
    if i == |m| then [m] else [m[..i]] + Parts(m[i + 1..])
  }

  /** A module is in a namespace exactly when the namespace's components are its first ones. */
  lemma NamespaceByParts(m: Module, namespaces: seq<Module>)
    ensures MatchesNamespace(m, namespaces) <==>
      exists i :: 0 <= i < |namespaces| && Parts(namespaces[i]) <= Parts(m)
  {
    hide Parts, Under;
    forall i | 0 <= i < |namespaces|
      ensures m == namespaces[i] || namespaces[i] + "." <= m <==> Parts(namespaces[i]) <= Parts(m)
    {
      UnderIff(namespaces[i], m);
      PartsIff(namespaces[i], m);
    }
  }

  /** The name goes on after the namespace with a dot, or ends there. */
  predicate Under(n: Module, m: Module) {
    |n| <= |m| && (forall k :: 0 <= k < |n| ==> m[k] == n[k]) && (|m| == |n| || m[|n|] == '.')
  }

  lemma UnderIff(n: Module, m: Module)
    ensures Under(n, m) <==> m == n || n + "." <= m
  {
    if n + "." <= m {
      assert forall k :: 0 <= k <= |n| ==> m[k] == (n + ".")[k];
    }
    if Under(n, m) && |m| > |n| {
      assert m[..|n| + 1] == n + ".";
    }
  }

  lemma {:induction false} PartsIff(n: Module, m: Module)
    ensures Under(n, m) <==> Parts(n) <= Parts(m)
    decreases |n|
  {
    hide Under, Dot;
    var i, j := Dot(n), Dot(m);
    assert Parts(n)[0] == n[..i] && Parts(m)[0] == m[..j];
    UnderStarts(n, m);
    if i < |n| && j < |m| {
      PartsIff(n[i + 1..], m[j + 1..]);
      ConsPrefix(n[..i], m[..j], Parts(n[i + 1..]), Parts(m[j + 1..]));
    }
  }

  /** By first components: equal, and with rests that are under one another. */
  lemma UnderStarts(n: Module, m: Module)
    ensures var i, j := Dot(n), Dot(m);
      Under(n, m) <==>
        && n[..i] == m[..j]
        && (i < |n| ==> j < |m| && Under(n[i + 1..], m[j + 1..]))
  {
    hide Under, Dot;
    var i, j := Dot(n), Dot(m);
    if Under(n, m) {
      DotOfPrefix(n, m);
      if i < |n| {
        UnderRests(n, m, i);
      }
    }
    if n[..i] == m[..j] {
      assert i == j;
      if i == |n| {
        PlainUnder(n, m);
      } else if j < |m| && Under(n[i + 1..], m[j + 1..]) {
        RestsUnderAt(n, m, i);
      }
    }
  }

  lemma PlainUnder(n: Module, m: Module)
    requires Dot(n) == |n| && n == m[..Dot(m)]
    ensures Under(n, m)
  {
    hide Dot;
  }

  lemma DotOfPrefix(n: Module, m: Module)
    requires Under(n, m)
    ensures Dot(m) == Dot(n) && n[..Dot(n)] == m[..Dot(m)] && (Dot(n) < |n| ==> Dot(m) < |m|)
  {
    hide Dot;
    if Dot(n) < |m| {
      DotAt(m, Dot(n));
    }
  }

  lemma UnderRests(n: Module, m: Module, i: nat)
    requires Under(n, m) && i < |n|
    ensures Under(n[i + 1..], m[i + 1..])
  {
  }

  lemma RestsUnderAt(n: Module, m: Module, i: nat)
    requires i < |n| && i < |m| && n[i] == m[i] && n[..i] == m[..i] && Under(n[i + 1..], m[i + 1..])
    ensures Under(n, m)
  {
    var a, b := n[i + 1..], m[i + 1..];
    forall k | 0 <= k < |n| ensures m[k] == n[k] {
      if k < i {
        assert m[..i][k] == n[..i][k];
      } else if k > i {
        assert b[k - i - 1] == a[k - i - 1];
      }
    }
  }

  lemma DotAt(m: Module, i: nat)
    requires i < |m| && m[i] == '.' && forall j :: 0 <= j < i ==> m[j] != '.'
    ensures Dot(m) == i
  {
    hide Dot;
  }

  lemma ConsPrefix(x: string, y: string, a: seq<string>, b: seq<string>)
    ensures [x] + a <= [y] + b <==> x == y && a <= b
  {
    assert ([x] + a)[1..] == a && ([y] + b)[1..] == b && ([x] + a)[0] == x && ([y] + b)[0] == y;
  }

  /** So a longer component is another namespace. */
  lemma LongerComponentOutside()
    ensures MatchesNamespace("a.b", ["a.b"]) && MatchesNamespace("a.b.c", ["a.b"]) && !MatchesNamespace("a.bc", ["a.b"])
  {
    assert ["a.b"][0] == "a.b" && "a.b" + "." == "a.b.";
    assert "a.b."[3] == '.' && "a.bc"[3] == 'c';
  }
}
