/** Tarjan's strongly connected components, as written in
    scripts/phase2_executable_boundary.py: a recursive `visit` that shares
    `indexes`, `lowlinks`, `stack` and `stacked` with its callers. */
module StrongComponents {
  import opened ImportGraph

  // ----- what the routine is meant to report -----

  /** All scanned modules that `m` reaches and that reach `m`. */
  ghost function Scc(g: Graph, m: Module): set<Module> {
    set n | n in g && Mutual(g, m, n)
  }

  /** Components worth reporting: two members, or a module importing itself. */
  ghost predicate Cyclic(g: Graph, m: Module) {
    |Scc(g, m)| > 1 || Edge(g, m, m)
  }

  ghost predicate MutuallyReachable(g: Graph, c: set<Module>) {
    forall a, b :: a in c && b in c ==> Reaches(g, a, b)
  }

  /** What `_strongly_connected_components` promises of its result. */
  ghost predicate IsComponentReport(g: Graph, components: seq<set<Module>>) {
    && (forall c :: c in components <==> exists m :: m in g && Cyclic(g, m) && c == Scc(g, m))
    && (forall i, j :: 0 <= i < j < |components| ==> components[i] != components[j])
  }

  lemma MutualClass(g: Graph, m: Module, n: Module)
    requires m in g && n in g && Mutual(g, m, n)
    ensures Scc(g, m) == Scc(g, n)
  {
    hide Reaches, ReachesOpen;
    forall k | k in g ensures Mutual(g, m, k) <==> Mutual(g, n, k) {
      if Mutual(g, m, k) {
        ReachesTransitive(g, n, m, k);
        ReachesTransitive(g, k, m, n);
      }
      if Mutual(g, n, k) {
        ReachesTransitive(g, m, n, k);
        ReachesTransitive(g, k, n, m);
      }
    }
  }

  // ----- the search state -----

  type Indexes = map<Module, nat>

  /** Stack indexes strictly increase from bottom to top. */
  ghost predicate Placed(g: Graph, index: nat, indexes: Indexes, stack: seq<Module>) {
    && indexes.Keys <= g.Keys
    && (forall m :: m in indexes ==> indexes[m] < index)
    && (forall i :: 0 <= i < |stack| ==> stack[i] in indexes)
    && (forall i, j :: 0 <= i < j < |stack| ==> indexes[stack[i]] < indexes[stack[j]])
  }

  /** An older stacked module reaches every younger one. */
  ghost predicate StackConnected(g: Graph, stack: seq<Module>) {
    forall i, j :: 0 <= i <= j < |stack| ==> Reaches(g, stack[i], stack[j])
  }

  /** `y` reaches a module whose `visit` is still open and which is not younger. */
  ghost predicate ReachesOpen(g: Graph, indexes: Indexes, y: Module, open: set<Module>)
    requires y in indexes
  {
    exists x :: x in open && x in indexes && indexes[x] <= indexes[y] && Reaches(g, y, x)
  }

  ghost predicate Anchored(g: Graph, indexes: Indexes, stack: seq<Module>, open: set<Module>)
    requires forall i :: 0 <= i < |stack| ==> stack[i] in indexes
  {
    && (forall x :: x in open ==> x in stack)
    && (forall i :: 0 <= i < |stack| ==> ReachesOpen(g, indexes, stack[i], open))
  }

  /** A module whose `visit` has returned has had all its scanned imports visited. */
  ghost predicate Explored(g: Graph, indexes: Indexes, open: set<Module>) {
    forall m, d :: m in indexes && m !in open && Edge(g, m, d) && d in g ==> d in indexes
  }

  ghost predicate Finished(indexes: Indexes, stack: seq<Module>, m: Module) {
    m in indexes && m !in stack
  }

  /** Every indexed but unstacked module lies in a component that is wholly finished. */
  ghost predicate FinishedClasses(g: Graph, indexes: Indexes, stack: seq<Module>) {
    forall m, n :: Finished(indexes, stack, m) && Mutual(g, m, n) ==> Finished(indexes, stack, n)
  }

  ghost predicate Reported(g: Graph, indexes: Indexes, stack: seq<Module>, components: seq<set<Module>>) {
    && (forall i :: 0 <= i < |components| ==> ReportedFrom(g, indexes, stack, components[i]))
    && (forall m :: Finished(indexes, stack, m) && Cyclic(g, m) ==> Scc(g, m) in components)
    && (forall i, j :: 0 <= i < j < |components| ==> components[i] != components[j])
  }

  ghost predicate ReportedFrom(g: Graph, indexes: Indexes, stack: seq<Module>, c: set<Module>) {
    exists m :: m in g && Finished(indexes, stack, m) && Cyclic(g, m) && c == Scc(g, m)
  }

  ghost predicate SearchInvariant(g: Graph, index: nat, indexes: Indexes, stack: seq<Module>,
                                  components: seq<set<Module>>, open: set<Module>)
  {
    && Placed(g, index, indexes, stack)
    && StackConnected(g, stack)
    && Anchored(g, indexes, stack, open)
    && Explored(g, indexes, open)
    && FinishedClasses(g, indexes, stack)
    && Reported(g, indexes, stack, components)
  }

  /** Every edge from the part of the stack above `base` into the part below
      `base` ends at an index of at least `low`. */
  ghost predicate LowBounds(g: Graph, indexes: Indexes, stack: seq<Module>, base: nat, low: nat)
    requires base <= |stack| && forall i :: 0 <= i < |stack| ==> stack[i] in indexes
  {
    forall i, j :: base <= i < |stack| && 0 <= j < base && Edge(g, stack[i], stack[j])
      ==> low <= indexes[stack[j]]
  }

  /** `low` is the index of a stacked module below `base` that `m` reaches. */
  ghost predicate LowWitness(g: Graph, indexes: Indexes, stack: seq<Module>, base: nat, m: Module, low: nat)
    requires base <= |stack| && forall i :: 0 <= i < |stack| ==> stack[i] in indexes
  {
    exists j :: 0 <= j < base && indexes[stack[j]] == low && Reaches(g, m, stack[j])
  }

  // ----- steps of the proof -----

  lemma OpenWitness(g: Graph, indexes: Indexes, y: Module, open: set<Module>) returns (x: Module)
    requires y in indexes && ReachesOpen(g, indexes, y, open)
    ensures x in open && x in indexes && indexes[x] <= indexes[y] && Reaches(g, y, x)
  {
    x :| x in open && x in indexes && indexes[x] <= indexes[y] && Reaches(g, y, x);
  }

  lemma OpenIntro(g: Graph, indexes: Indexes, y: Module, open: set<Module>, x: Module)
    requires x in open && x in indexes && y in indexes && indexes[x] <= indexes[y] && Reaches(g, y, x)
    ensures ReachesOpen(g, indexes, y, open)
  {
  }

  /** Opening a `visit` for a module that all open modules reach. */
  lemma OpenVisit(g: Graph, index: nat, indexes: Indexes, stack: seq<Module>,
                  components: seq<set<Module>>, open: set<Module>, v: Module)
    requires SearchInvariant(g, index, indexes, stack, components, open)
    requires v in g && v !in indexes
    requires forall x :: x in open ==> Reaches(g, x, v)
    ensures SearchInvariant(g, index + 1, indexes[v := index], stack + [v], components, open + {v})
  {
    hide Reaches, ReachesOpen;
    var indexes', stack', open' := indexes[v := index], stack + [v], open + {v};
    ReachesSelf(g, v);
    forall i | 0 <= i < |stack| ensures Reaches(g, stack[i], v) {
      var x := OpenWitness(g, indexes, stack[i], open);
      ReachesTransitive(g, stack[i], x, v);
    }
    forall i | 0 <= i < |stack'| ensures ReachesOpen(g, indexes', stack'[i], open') {
      var x := v;
      if i < |stack| {
        x := OpenWitness(g, indexes, stack[i], open);
      }
      OpenIntro(g, indexes', stack'[i], open', x);
    }
    assert forall m :: Finished(indexes', stack', m) <==> Finished(indexes, stack, m);
    ReportedTransfer(g, indexes, stack, indexes', stack', components);
  }

  lemma ReportedTransfer(g: Graph, indexes: Indexes, stack: seq<Module>, indexes': Indexes, stack': seq<Module>,
                         components: seq<set<Module>>)
    requires Reported(g, indexes, stack, components)
    requires forall m :: Finished(indexes', stack', m) <==> Finished(indexes, stack, m)
    ensures Reported(g, indexes', stack', components)
  {
    hide Reaches, ReachesOpen;
    forall i | 0 <= i < |components| ensures ReportedFrom(g, indexes', stack', components[i]) {
      assert ReportedFrom(g, indexes, stack, components[i]);
      var m :| m in g && Finished(indexes, stack, m) && Cyclic(g, m) && components[i] == Scc(g, m);
      assert Finished(indexes', stack', m);
    }
  }

  /** Returning from `visit(v)` with `v` left on the stack: `v` reaches an older
      stacked module, so everything above it is anchored without `v`. */
  lemma CloseUnfinished(g: Graph, index: nat, indexes: Indexes, stack: seq<Module>,
                        components: seq<set<Module>>, open: set<Module>, base: nat, v: Module, low: nat)
    requires SearchInvariant(g, index, indexes, stack, components, open + {v})
    requires base < |stack| && stack[base] == v && v !in open
    requires forall d :: Edge(g, v, d) && d in g ==> d in indexes
    requires LowWitness(g, indexes, stack, base, v, low)
    ensures SearchInvariant(g, index, indexes, stack, components, open)
  {
    hide Reaches, ReachesOpen;
    var j :| 0 <= j < base && indexes[stack[j]] == low && Reaches(g, v, stack[j]);
    var z := stack[j];
    var x := OpenWitness(g, indexes, z, open + {v});
    assert x in open;
    ReachesTransitive(g, v, z, x);
    forall i | 0 <= i < |stack| ensures ReachesOpen(g, indexes, stack[i], open) {
      var y := OpenWitness(g, indexes, stack[i], open + {v});
      if y == v {
        ReachesTransitive(g, stack[i], v, x);
        y := x;
      }
      OpenIntro(g, indexes, stack[i], open, y);
    }
  }

  ghost function Above(stack: seq<Module>, base: nat): set<Module>
    requires base <= |stack|
  {
    set i | base <= i < |stack| :: stack[i]
  }

  /** Everything from `v` upwards is mutually reachable with `v`. */
  lemma SegmentIsMutual(g: Graph, index: nat, indexes: Indexes, stack: seq<Module>,
                        open: set<Module>, base: nat, i: nat)
    requires Placed(g, index, indexes, stack) && StackConnected(g, stack)
    requires base <= i < |stack|
    requires Anchored(g, indexes, stack, open + {stack[base]})
    requires forall x :: x in open ==> Reaches(g, x, stack[base])
    ensures Mutual(g, stack[base], stack[i])
  {
    hide Reaches, ReachesOpen;
    var x := OpenWitness(g, indexes, stack[i], open + {stack[base]});
    ReachesSelf(g, stack[base]);
    ReachesTransitive(g, stack[i], x, stack[base]);
  }

  /** When `lowlinks[v] == indexes[v]`, the stack from `v` upwards is v's component. */
  lemma SegmentIsComponent(g: Graph, index: nat, indexes: Indexes, stack: seq<Module>,
                           components: seq<set<Module>>, open: set<Module>, base: nat)
    requires base < |stack|
    requires SearchInvariant(g, index, indexes, stack, components, open + {stack[base]})
    requires stack[base] !in open
    requires forall x :: x in open ==> x in stack[..base]
    requires forall x :: x in open ==> Reaches(g, x, stack[base])
    requires forall d :: Edge(g, stack[base], d) && d in g ==> d in indexes
    requires LowBounds(g, indexes, stack, base, indexes[stack[base]])
    ensures Above(stack, base) == Scc(g, stack[base])
  {
    hide Reaches, ReachesOpen;
    var v, segment := stack[base], Above(stack, base);
    forall n | n in segment ensures n in g && Mutual(g, v, n) {
      var i :| base <= i < |stack| && stack[i] == n;
      SegmentIsMutual(g, index, indexes, stack, open, base, i);
    }
    forall n | n in g && Mutual(g, v, n) ensures n in segment {
      if n !in segment {
        var u, w := ReachesExit(g, v, n, segment);
        BorderIsMutual(g, v, u, w, n);
        var i :| base <= i < |stack| && stack[i] == u;
        BorderStaysInside(g, index, indexes, stack, components, open, base, i, w);
      }
    }
  }

  lemma BorderIsMutual(g: Graph, v: Module, u: Module, w: Module, n: Module)
    requires Mutual(g, v, n) && Reaches(g, v, u) && Edge(g, u, w) && Reaches(g, w, n)
    ensures Mutual(g, v, w)
  {
    hide Reaches, ReachesOpen;
    ReachesEdge(g, u, w);
    ReachesTransitive(g, v, u, w);
    ReachesTransitive(g, w, n, v);
  }

  /** An edge from v's stack segment to a module that is mutual with v stays in the segment. */
  lemma BorderStaysInside(g: Graph, index: nat, indexes: Indexes, stack: seq<Module>,
                          components: seq<set<Module>>, open: set<Module>, base: nat, i: nat, w: Module)
    requires base <= i < |stack|
    requires SearchInvariant(g, index, indexes, stack, components, open + {stack[base]})
    requires forall x :: x in open ==> x in stack[..base]
    requires forall d :: Edge(g, stack[base], d) && d in g ==> d in indexes
    requires LowBounds(g, indexes, stack, base, indexes[stack[base]])
    requires Edge(g, stack[i], w)
    requires Mutual(g, stack[base], w)
    ensures w in Above(stack, base)
  {
    hide Reaches, ReachesOpen;
    var v := stack[base];
    assert w in g by {
      if w !in g {
        OutsideReachesItself(g, w, v);
      }
    }
    assert stack[i] !in open by {
      assert forall x :: x in stack[..base] ==> x in indexes && indexes[x] < indexes[v];
    }
    assert w in indexes;
    assert w in stack by {
      assert Mutual(g, w, v) && !Finished(indexes, stack, v);
    }
    var j :| 0 <= j < |stack| && stack[j] == w;
    assert base <= j;
  }

  /** Popping v's component off the stack closes its `visit`. */
  lemma CloseFinished(g: Graph, index: nat, indexes: Indexes, stack: seq<Module>,
                      components: seq<set<Module>>, open: set<Module>, base: nat,
                      components': seq<set<Module>>)
    requires base < |stack|
    requires SearchInvariant(g, index, indexes, stack, components, open + {stack[base]})
    requires stack[base] !in open
    requires forall x :: x in open ==> x in stack[..base]
    requires forall d :: Edge(g, stack[base], d) && d in g ==> d in indexes
    requires Above(stack, base) == Scc(g, stack[base])
    requires components' == if Cyclic(g, stack[base]) then components + [Scc(g, stack[base])] else components
    ensures SearchInvariant(g, index, indexes, stack[..base], components', open)
  {
    hide Reaches, ReachesOpen, Anchored, FinishedClasses, Reported, Finished, Above, Cyclic, Scc;
    FinishedSplit(indexes, stack, base);
    AnchoredBelow(g, index, indexes, stack, open, base);
    FinishedAfterPop(g, indexes, stack, base);
    ReportedAfterPop(g, index, indexes, stack, components, base, components');
  }

  lemma FinishedSplit(indexes: Indexes, stack: seq<Module>, base: nat)
    requires base < |stack|
    requires forall i :: 0 <= i < |stack| ==> stack[i] in indexes
    requires forall i, j :: 0 <= i < j < |stack| ==> indexes[stack[i]] < indexes[stack[j]]
    ensures forall m :: Finished(indexes, stack[..base], m) <==> Finished(indexes, stack, m) || m in Above(stack, base)
  {
    forall m ensures Finished(indexes, stack[..base], m) <==> Finished(indexes, stack, m) || m in Above(stack, base) {
      assert stack == stack[..base] + stack[base..];
      assert m in Above(stack, base) <==> m in stack[base..];
    }
  }

  lemma AnchoredBelow(g: Graph, index: nat, indexes: Indexes, stack: seq<Module>, open: set<Module>, base: nat)
    requires base < |stack| && Placed(g, index, indexes, stack)
    requires Anchored(g, indexes, stack, open + {stack[base]})
    requires forall x :: x in open ==> x in stack[..base]
    ensures Anchored(g, indexes, stack[..base], open)
  {
    hide Reaches, ReachesOpen;
    forall i | 0 <= i < base ensures ReachesOpen(g, indexes, stack[..base][i], open) {
      var x := OpenWitness(g, indexes, stack[i], open + {stack[base]});
      OpenIntro(g, indexes, stack[i], open, x);
    }
  }

  lemma FinishedAfterPop(g: Graph, indexes: Indexes, stack: seq<Module>, base: nat)
    requires base < |stack| && stack[base] in g
    requires FinishedClasses(g, indexes, stack)
    requires indexes.Keys <= g.Keys
    requires Above(stack, base) == Scc(g, stack[base])
    requires forall m :: Finished(indexes, stack[..base], m) <==> Finished(indexes, stack, m) || m in Above(stack, base)
    ensures FinishedClasses(g, indexes, stack[..base])
  {
    hide Reaches, ReachesOpen;
    var v, rest := stack[base], stack[..base];
    forall m, n | Finished(indexes, rest, m) && Mutual(g, m, n) ensures Finished(indexes, rest, n) {
      if m in Above(stack, base) {
        if n !in g {
          OutsideReachesItself(g, n, m);
        }
        MutualClass(g, v, m);
        assert n in Scc(g, m);
      }
    }
  }

  lemma ReportedAfterPop(g: Graph, index: nat, indexes: Indexes, stack: seq<Module>,
                         components: seq<set<Module>>, base: nat, components': seq<set<Module>>)
    requires base < |stack| && Placed(g, index, indexes, stack)
    requires Reported(g, indexes, stack, components) && FinishedClasses(g, indexes, stack)
    requires Above(stack, base) == Scc(g, stack[base])
    requires forall m :: Finished(indexes, stack[..base], m) <==> Finished(indexes, stack, m) || m in Above(stack, base)
    requires components' == if Cyclic(g, stack[base]) then components + [Scc(g, stack[base])] else components
    ensures Reported(g, indexes, stack[..base], components')
  {
    hide Reaches, ReachesOpen;
    var v, rest := stack[base], stack[..base];
    ReachesSelf(g, v);
    assert v in Scc(g, v);
    forall i | 0 <= i < |components|
      ensures ReportedFrom(g, indexes, rest, components[i]) && components[i] != Scc(g, v)
    {
      assert ReportedFrom(g, indexes, stack, components[i]);
      var m :| m in g && Finished(indexes, stack, m) && Cyclic(g, m) && components[i] == Scc(g, m);
      assert Finished(indexes, rest, m);
      assert v !in Scc(g, m) by {
        if v in Scc(g, m) {
          assert false;
        }
      }
    }
    assert ReportedFrom(g, indexes, rest, Scc(g, v)) || !Cyclic(g, v) by {
      assert Finished(indexes, rest, v);
    }
    forall m | Finished(indexes, rest, m) && Cyclic(g, m) ensures Scc(g, m) in components' {
      if m in Above(stack, base) {
        MutualClass(g, v, m);
        CyclicClass(g, v, m);
      }
    }
  }

  /** Whether a component is reported does not depend on the member asked. */
  lemma CyclicClass(g: Graph, v: Module, m: Module)
    requires v in g && m in g && Mutual(g, v, m)
    requires Cyclic(g, m)
    ensures Cyclic(g, v)
  {
    hide Reaches, ReachesOpen;
    MutualClass(g, v, m);
    if v != m {
      ReachesSelf(g, v);
      assert {v, m} <= Scc(g, v);
      SubsetCardinality({v, m}, Scc(g, v));
    }
  }

  lemma SubsetCardinality(a: set<Module>, b: set<Module>)
    requires a <= b
    ensures |a| <= |b|
  {
    assert b == a + (b - a);
  }

  lemma OpenOnStack(g: Graph, indexes: Indexes, stack: seq<Module>, open: set<Module>)
    requires forall i :: 0 <= i < |stack| ==> stack[i] in indexes
    requires Anchored(g, indexes, stack, open)
    ensures forall x :: x in open ==> x in stack && x in indexes
  {
    hide ReachesOpen;
  }

  /** An import that reaches an older stacked module lowers v's link to it. */
  lemma LowWitnessVia(g: Graph, index: nat, indexes: Indexes, stack: seq<Module>, base: nat, v: Module, low: nat,
                      d: Module, bound: nat, low': nat)
    requires Placed(g, index, indexes, stack)
    requires base < |stack| && stack[base] == v && low <= indexes[v] && bound <= |stack|
    requires LowWitness(g, indexes, stack, base + 1, v, low)
    requires Edge(g, v, d) && LowWitness(g, indexes, stack, bound, d, low')
    ensures LowWitness(g, indexes, stack, base + 1, v, Min(low, low'))
  {
    hide Reaches;
    if low' < low {
      var j :| 0 <= j < bound && indexes[stack[j]] == low' && Reaches(g, d, stack[j]);
      assert j <= base;
      ReachesEdge(g, v, d);
      ReachesTransitive(g, v, d, stack[j]);
    }
  }

  ghost function Members(stack: seq<Module>): set<Module> {
    set m | m in stack
  }

  lemma PushMember(stack: seq<Module>, m: Module)
    ensures Members(stack + [m]) == Members(stack) + {m}
  {
  }

  lemma PopMember(g: Graph, index: nat, indexes: Indexes, stack: seq<Module>)
    requires stack != [] && Placed(g, index, indexes, stack)
    ensures Members(stack[..|stack| - 1]) == Members(stack) - {stack[|stack| - 1]}
  {
    assert stack == stack[..|stack| - 1] + [stack[|stack| - 1]];
  }

  /** What a visit may have changed: nothing already indexed, no link but those in `relinked`. */
  datatype Progress = Progress(index: nat, indexes: Indexes, lowlinks: Indexes, stack: seq<Module>)

  ghost predicate Extends(p: Progress, q: Progress, relinked: set<Module>) {
    && p.index <= q.index
    && p.stack <= q.stack
    && (forall m :: m in p.indexes ==> m in q.indexes && q.indexes[m] == p.indexes[m])
    && (forall m :: m in p.lowlinks && m !in relinked ==> m in q.lowlinks && q.lowlinks[m] == p.lowlinks[m])
    && (forall m :: m in p.lowlinks ==> m in q.lowlinks)
  }

  lemma ExtendsTransitive(p: Progress, q: Progress, r: Progress, some: set<Module>, more: set<Module>)
    requires Extends(p, q, some) && Extends(q, r, more) && some <= more
    ensures Extends(p, r, more)
  {
  }

  lemma ExtendsRelink(p: Progress, v: Module, low: nat)
    ensures Extends(p, p.(lowlinks := p.lowlinks[v := low]), {v})
  {
  }

  lemma ExtendsOpen(p: Progress, v: Module)
    requires v !in p.indexes && v !in p.lowlinks
    ensures Extends(p, Progress(p.index + 1, p.indexes[v := p.index], p.lowlinks[v := p.index], p.stack + [v]), {})
  {
  }

  /** A visit that started `v` and then changed no link but v's changed no old link. */
  lemma ExtendsClose(p: Progress, o: Progress, q: Progress, v: Module, stack: seq<Module>)
    requires v !in p.indexes && v !in p.lowlinks
    requires Extends(p, o, {}) && Extends(o, q, {v})
    requires p.stack <= stack
    ensures Extends(p, q.(stack := stack), {})
  {
  }

  /** What extending the search keeps of v's link bounds. */
  lemma LowKept(g: Graph, p: Progress, q: Progress, base: nat, v: Module, low: nat, links: set<Module>)
    requires Extends(p, q, links)
    requires Placed(g, p.index, p.indexes, p.stack) && Placed(g, q.index, q.indexes, q.stack)
    requires base < |p.stack| && p.stack[base] == v
    requires LowWitness(g, p.indexes, p.stack, base + 1, v, low)
    ensures base < |q.stack| && q.stack[base] == v && q.indexes[v] == p.indexes[v]
    ensures LowWitness(g, q.indexes, q.stack, base + 1, v, low)
  {
    hide Reaches;
    var j :| 0 <= j < base + 1 && p.indexes[p.stack[j]] == low && Reaches(g, v, p.stack[j]);
    assert q.stack[j] == p.stack[j];
  }

  /** Edges leaving the stack above v after one more import has been visited. */
  lemma BoundsAfterVisit(g: Graph, p: Progress, q: Progress, base: nat, low: nat, low': nat)
    requires Extends(p, q, {})
    requires Placed(g, p.index, p.indexes, p.stack) && Placed(g, q.index, q.indexes, q.stack)
    requires base < |p.stack|
    requires LowBounds(g, p.indexes, p.stack, base + 1, low)
    requires LowBounds(g, q.indexes, q.stack, |p.stack|, low')
    ensures LowBounds(g, q.indexes, q.stack, base + 1, Min(low, low'))
  {
    forall i, j | base + 1 <= i < |q.stack| && 0 <= j < base + 1 && Edge(g, q.stack[i], q.stack[j])
      ensures Min(low, low') <= q.indexes[q.stack[j]]
    {
      assert q.stack[j] == p.stack[j];
      if i < |p.stack| {
        assert q.stack[i] == p.stack[i];
      }
    }
  }

  /** Own-edge bounds: v's imports handled so far, when they lie below v. */
  ghost predicate OwnBounds(indexes: Indexes, stack: seq<Module>, base: nat, handled: set<Module>, low: nat)
    requires base <= |stack| && forall i :: 0 <= i < |stack| ==> stack[i] in indexes
  {
    forall j :: 0 <= j < base && stack[j] in handled ==> low <= indexes[stack[j]]
  }

  lemma OwnBoundsStep(g: Graph, p: Progress, q: Progress, base: nat, handled: set<Module>, d: Module, low: nat,
                      low': nat)
    requires Extends(p, q, {})
    requires Placed(g, p.index, p.indexes, p.stack) && Placed(g, q.index, q.indexes, q.stack)
    requires base < |p.stack|
    requires OwnBounds(p.indexes, p.stack, base, handled, low)
    requires low' <= low
    requires forall j :: 0 <= j < base && p.stack[j] == d ==> low' <= p.indexes[d]
    ensures OwnBounds(q.indexes, q.stack, base, handled + {d}, low')
  {
    forall j | 0 <= j < base && q.stack[j] in handled + {d} ensures low' <= q.indexes[q.stack[j]] {
      assert q.stack[j] == p.stack[j];
    }
  }

  lemma BoundsCombine(g: Graph, index: nat, indexes: Indexes, stack: seq<Module>, base: nat, v: Module, low: nat)
    requires Placed(g, index, indexes, stack) && base < |stack| && stack[base] == v && v in g
    requires LowBounds(g, indexes, stack, base + 1, low)
    requires OwnBounds(indexes, stack, base, g[v], low)
    ensures LowBounds(g, indexes, stack, base, low)
  {
  }

  lemma StartBounds(g: Graph, p: Progress, base: nat, v: Module)
    requires Placed(g, p.index, p.indexes, p.stack)
    requires |p.stack| == base + 1 && p.stack[base] == v
    ensures LowWitness(g, p.indexes, p.stack, base + 1, v, p.indexes[v])
    ensures LowBounds(g, p.indexes, p.stack, base + 1, p.indexes[v])
    ensures OwnBounds(p.indexes, p.stack, base, {}, p.indexes[v])
    ensures Extends(p, p, {v})
  {
    ReachesSelf(g, v);
  }

  /** Where v and the modules below it stand once v's imports are explored. */
  lemma VisitedStack(g: Graph, before: Progress, started: Progress, explored: Progress, open: set<Module>, v: Module)
    requires Placed(g, before.index, before.indexes, before.stack)
    requires v !in before.indexes && forall x :: x in open ==> x in before.stack && x in before.indexes
    requires started.stack == before.stack + [v] && started.indexes == before.indexes[v := before.index]
    requires Extends(started, explored, {v})
    ensures v !in open
    ensures |before.stack| < |explored.stack| && explored.stack[|before.stack|] == v
    ensures explored.stack[..|before.stack|] == before.stack && before.stack <= explored.stack
    ensures v in explored.indexes && explored.indexes[v] == before.index
    ensures v in Members(explored.stack) && v !in Members(before.stack)
  {
  }

  lemma LowWitnessBelow(g: Graph, indexes: Indexes, stack: seq<Module>, base: nat, v: Module, low: nat)
    requires base < |stack| && stack[base] == v
    requires forall i :: 0 <= i < |stack| ==> stack[i] in indexes
    requires LowWitness(g, indexes, stack, base + 1, v, low) && low != indexes[v]
    ensures LowWitness(g, indexes, stack, base, v, low)
  {
    hide Reaches;
    var j :| 0 <= j < base + 1 && indexes[stack[j]] == low && Reaches(g, v, stack[j]);
    assert j < base;
  }

  lemma ExtendsSelf(p: Progress, relinked: set<Module>)
    ensures Extends(p, p, relinked)
  {
  }

  lemma NotStacked(stack: seq<Module>, d: Module)
    requires d !in Members(stack)
    ensures forall j :: 0 <= j < |stack| ==> stack[j] != d
  {
  }

  lemma AboveTop(stack: seq<Module>)
    ensures Above(stack, |stack|) == {}
  {
  }

  lemma AbovePop(stack: seq<Module>, n: nat)
    requires 0 < n <= |stack|
    ensures Above(stack, n - 1) == Above(stack, n) + {stack[n - 1]}
  {
  }

  lemma OpenReachImport(g: Graph, open: set<Module>, v: Module, d: Module)
    requires Edge(g, v, d) && forall x :: x in open ==> Reaches(g, x, v)
    ensures forall x :: x in open + {v} ==> Reaches(g, x, d)
  {
    hide Reaches;
    ReachesEdge(g, v, d);
    forall x | x in open ensures Reaches(g, x, d) {
      ReachesTransitive(g, x, v, d);
    }
  }

  /** v's link after visiting a new import `d`: the minimum of the two links. */
  lemma AfterVisit(g: Graph, p: Progress, q: Progress, base: nat, v: Module, d: Module, handled: set<Module>,
                   stacked: set<Module>)
    requires Placed(g, p.index, p.indexes, p.stack) && Placed(g, q.index, q.indexes, q.stack)
    requires Extends(p, q, {}) && v in p.lowlinks && d in q.lowlinks
    requires base < |p.stack| <= |q.stack| && p.stack[base] == v
    requires Edge(g, v, d) && d !in p.indexes && d in q.indexes && q.indexes[d] == p.index
    requires p.lowlinks[v] <= p.indexes[v]
    requires LowWitness(g, p.indexes, p.stack, base + 1, v, p.lowlinks[v])
    requires LowBounds(g, p.indexes, p.stack, base + 1, p.lowlinks[v])
    requires OwnBounds(p.indexes, p.stack, base, handled, p.lowlinks[v])
    requires stacked == Members(q.stack)
    requires d !in stacked ==> q.lowlinks[d] == q.indexes[d]
    requires d in stacked ==> LowWitness(g, q.indexes, q.stack, |p.stack|, d, q.lowlinks[d])
    requires LowBounds(g, q.indexes, q.stack, |p.stack|, q.lowlinks[d])
    ensures v in q.lowlinks && q.lowlinks[v] == p.lowlinks[v]
    ensures base < |q.stack| && q.stack[base] == v && v in q.indexes && q.indexes[v] == p.indexes[v]
    ensures LowWitness(g, q.indexes, q.stack, base + 1, v, Min(p.lowlinks[v], q.lowlinks[d]))
    ensures LowBounds(g, q.indexes, q.stack, base + 1, Min(p.lowlinks[v], q.lowlinks[d]))
    ensures OwnBounds(q.indexes, q.stack, base, handled + {d}, Min(p.lowlinks[v], q.lowlinks[d]))
  {
    hide Reaches, LowWitness, LowBounds, OwnBounds, Members;
    var low := Min(p.lowlinks[v], q.lowlinks[d]);
    LowKept(g, p, q, base, v, p.lowlinks[v], {});
    if d in stacked {
      LowWitnessVia(g, q.index, q.indexes, q.stack, base, v, p.lowlinks[v], d, |p.stack|, q.lowlinks[d]);
    }
    BoundsAfterVisit(g, p, q, base, p.lowlinks[v], q.lowlinks[d]);
    OwnBoundsStep(g, p, q, base, handled, d, p.lowlinks[v], low);
  }

  /** v's link after meeting an import that is still on the stack. */
  lemma AfterStacked(g: Graph, p: Progress, base: nat, v: Module, d: Module, handled: set<Module>)
    requires Placed(g, p.index, p.indexes, p.stack)
    requires base < |p.stack| && p.stack[base] == v && v in p.lowlinks
    requires Edge(g, v, d) && d in Members(p.stack) && d in p.indexes
    requires p.lowlinks[v] <= p.indexes[v]
    requires LowWitness(g, p.indexes, p.stack, base + 1, v, p.lowlinks[v])
    requires LowBounds(g, p.indexes, p.stack, base + 1, p.lowlinks[v])
    requires OwnBounds(p.indexes, p.stack, base, handled, p.lowlinks[v])
    ensures LowWitness(g, p.indexes, p.stack, base + 1, v, Min(p.lowlinks[v], p.indexes[d]))
    ensures LowBounds(g, p.indexes, p.stack, base + 1, Min(p.lowlinks[v], p.indexes[d]))
    ensures OwnBounds(p.indexes, p.stack, base, handled + {d}, Min(p.lowlinks[v], p.indexes[d]))
  {
    hide Reaches, OwnBounds;
    var j :| 0 <= j < |p.stack| && p.stack[j] == d;
    ReachesSelf(g, d);
    assert LowWitness(g, p.indexes, p.stack, |p.stack|, d, p.indexes[d]);
    LowWitnessVia(g, p.index, p.indexes, p.stack, base, v, p.lowlinks[v], d, |p.stack|, p.indexes[d]);
    OwnBoundsStep(g, p, p, base, handled, d, p.lowlinks[v], Min(p.lowlinks[v], p.indexes[d]));
  }

  function Min(a: nat, b: nat): nat {
    if a <= b then a else b
  }

  // ----- the algorithm -----

  class SccSearch {
    const graph: Graph
    var index: nat
    var indexes: Indexes
    var lowlinks: Indexes
    var stack: seq<Module>
    var stacked: set<Module>
    var components: seq<set<Module>>

    /** `open` holds the modules whose `Visit` has not returned yet. */
    ghost predicate Valid(open: set<Module>)
      reads this
    {
      && SearchInvariant(graph, index, indexes, stack, components, open)
      && lowlinks.Keys == indexes.Keys
      && stacked == Members(stack)
    }

    ghost function Now(): Progress
      reads this
    {
      Progress(index, indexes, lowlinks, stack)
    }

    constructor (graph: Graph)
      ensures this.graph == graph && Valid({}) && indexes == map[] && stack == []
    {
      this.graph := graph;
      index, indexes, lowlinks := 0, map[], map[];
      stack, stacked, components := [], {}, [];
    }

    /** A returning visit has popped v's whole component, or has left v on the
        stack reaching an older stacked module. */
    method Visit(v: Module, ghost open: set<Module>)
      requires Valid(open)
      requires v in graph && v !in indexes
      requires forall x :: x in open ==> Reaches(graph, x, v)
      modifies this
      ensures Valid(open) && Extends(old(Now()), Now(), {})
      ensures |old(stack)| <= |stack|
      ensures v in indexes && indexes[v] == old(index)
      ensures lowlinks[v] <= indexes[v]
      ensures v !in stacked ==> stack == old(stack) && lowlinks[v] == indexes[v]
      ensures v in stacked ==>
        && |old(stack)| < |stack| && stack[|old(stack)|] == v
        && LowWitness(graph, indexes, stack, |old(stack)|, v, lowlinks[v])
      ensures LowBounds(graph, indexes, stack, |old(stack)|, lowlinks[v])
      decreases graph.Keys - indexes.Keys, 0, 0
    {
      hide Reaches, ReachesOpen, StackConnected, Anchored, Explored, FinishedClasses, Reported, Extends, Members;
      ghost var base, before := |stack|, Now();
      OpenOnStack(graph, indexes, stack, open);
      OpenVisit(graph, index, indexes, stack, components, open, v);
      ExtendsOpen(before, v);
      PushMember(stack, v);
      assert graph.Keys - indexes[v := index].Keys < graph.Keys - indexes.Keys by {
        assert v in graph.Keys - indexes.Keys;
      }
      indexes := indexes[v := index];
      lowlinks := lowlinks[v := index];
      index := index + 1;
      stack := stack + [v];
      stacked := stacked + {v};
      ghost var started := Now();
      ExploreImports(v, open, base);
      ghost var explored := Now();
      VisitedStack(graph, before, started, explored, open, v);
      if lowlinks[v] != indexes[v] {
        ExtendsClose(before, started, explored, v, stack);
        LowWitnessBelow(graph, indexes, stack, base, v, lowlinks[v]);
        CloseUnfinished(graph, index, indexes, stack, components, open, base, v, lowlinks[v]);
        return;
      }
      ExtendsClose(before, started, explored, v, before.stack);
      PopComponent(v, open, base);
    }

    /** The loop over v's sorted imports. */
    method ExploreImports(v: Module, ghost open: set<Module>, ghost base: nat)
      requires Valid(open + {v})
      requires |stack| == base + 1 && stack[base] == v && v !in open
      requires lowlinks[v] == indexes[v]
      requires forall x :: x in open ==> Reaches(graph, x, v)
      modifies this
      ensures Valid(open + {v}) && Extends(old(Now()), Now(), {v})
      ensures base < |stack| && stack[base] == v
      ensures forall d :: Edge(graph, v, d) && d in graph ==> d in indexes
      ensures lowlinks[v] <= indexes[v]
      ensures LowWitness(graph, indexes, stack, base + 1, v, lowlinks[v])
      ensures LowBounds(graph, indexes, stack, base, lowlinks[v])
      decreases graph.Keys - indexes.Keys, 1
    {
      hide Reaches, ReachesOpen, StackConnected, Anchored, Explored, FinishedClasses, Reported, Extends, Members;
      hide LowWitness, LowBounds, OwnBounds;
      StartBounds(graph, Now(), base, v);
      var pending := graph[v];
      assert graph[v] - pending == {};
      while pending != {}
        invariant pending <= graph[v]
        invariant Valid(open + {v}) && Extends(old(Now()), Now(), {v})
        invariant graph.Keys - indexes.Keys <= old(graph.Keys - indexes.Keys)
        invariant base < |stack| && stack[base] == v
        invariant forall d :: d in graph[v] - pending && d in graph ==> d in indexes
        invariant lowlinks[v] <= indexes[v]
        invariant LowWitness(graph, indexes, stack, base + 1, v, lowlinks[v])
        invariant LowBounds(graph, indexes, stack, base + 1, lowlinks[v])
        invariant OwnBounds(indexes, stack, base, graph[v] - pending, lowlinks[v])
      {
        var d :| d in pending;
        assert graph[v] - pending == graph[v] - (pending - {d}) - {d};
        pending := pending - {d};
        assert graph[v] - pending == (graph[v] - pending - {d}) + {d};
        ghost var p, handled := Now(), graph[v] - pending - {d};
        ImportStep(v, open, base, d, handled);
        ExtendsTransitive(old(Now()), p, Now(), {v}, {v});
      }
      assert graph[v] - pending == graph[v];
      BoundsCombine(graph, index, indexes, stack, base, v, lowlinks[v]);
    }

    /** One iteration of that loop. */
    method ImportStep(v: Module, ghost open: set<Module>, ghost base: nat, d: Module, ghost handled: set<Module>)
      requires Valid(open + {v})
      requires base < |stack| && stack[base] == v && v !in open
      requires Edge(graph, v, d)
      requires forall x :: x in open ==> Reaches(graph, x, v)
      requires lowlinks[v] <= indexes[v]
      requires LowWitness(graph, indexes, stack, base + 1, v, lowlinks[v])
      requires LowBounds(graph, indexes, stack, base + 1, lowlinks[v])
      requires OwnBounds(indexes, stack, base, handled, lowlinks[v])
      modifies this
      ensures Valid(open + {v}) && Extends(old(Now()), Now(), {v})
      ensures old(indexes.Keys) <= indexes.Keys
      ensures base < |stack| && stack[base] == v
      ensures d in graph ==> d in indexes
      ensures lowlinks[v] <= indexes[v]
      ensures LowWitness(graph, indexes, stack, base + 1, v, lowlinks[v])
      ensures LowBounds(graph, indexes, stack, base + 1, lowlinks[v])
      ensures OwnBounds(indexes, stack, base, handled + {d}, lowlinks[v])
      decreases graph.Keys - indexes.Keys, 0, 1
    {
      hide Reaches, ReachesOpen, StackConnected, Anchored, Explored, FinishedClasses, Reported, Extends, Members;
      hide LowWitness, LowBounds, OwnBounds;
      ghost var p := Now();
      ExtendsSelf(p, {});
      ExtendsSelf(p, {v});
      if d !in graph {
        OwnBoundsStep(graph, p, p, base, handled, d, lowlinks[v], lowlinks[v]);
      } else if d !in indexes {
        OpenReachImport(graph, open, v, d);
        Visit(d, open + {v});
        ghost var q, low := Now(), Min(p.lowlinks[v], lowlinks[d]);
        AfterVisit(graph, p, q, base, v, d, handled, stacked);
        lowlinks := lowlinks[v := Min(lowlinks[v], lowlinks[d])];
        ExtendsRelink(q, v, low);
        ExtendsTransitive(p, q, Now(), {}, {v});
      } else if d in stacked {
        AfterStacked(graph, p, base, v, d, handled);
        lowlinks := lowlinks[v := Min(lowlinks[v], indexes[d])];
        ExtendsRelink(p, v, lowlinks[v]);
      } else {
        NotStacked(p.stack, d);
        OwnBoundsStep(graph, p, p, base, handled, d, lowlinks[v], lowlinks[v]);
      }
    }

    /** The loop that pops the stack down to and including v. */
    method PopThrough(v: Module, ghost base: nat) returns (component: set<Module>)
      requires Placed(graph, index, indexes, stack) && stacked == Members(stack)
      requires base < |stack| && stack[base] == v
      modifies this`stack, this`stacked
      ensures stack == old(stack)[..base] && stacked == Members(stack)
      ensures component == Above(old(stack), base)
    {
      hide Members, Above;
      component := {};
      AboveTop(stack);
      while |stack| > 0
        invariant base < |stack| <= |old(stack)| && stack == old(stack)[..|stack|]
        invariant component == Above(old(stack), |stack|)
        invariant stacked == Members(stack)
        decreases |stack|
      {
        PopMember(graph, index, indexes, stack);
        AbovePop(old(stack), |stack|);
        var dependency := stack[|stack| - 1];
        stack := stack[..|stack| - 1];
        stacked := stacked - {dependency};
        component := component + {dependency};
        if dependency == v {
          break;
        }
      }
      assert stack == old(stack)[..base];
    }

    /** Popping v's component and reporting it. */
    method PopComponent(v: Module, ghost open: set<Module>, ghost base: nat)
      requires Valid(open + {v})
      requires base < |stack| && stack[base] == v && v !in open
      requires forall x :: x in open ==> x in stack[..base]
      requires forall x :: x in open ==> Reaches(graph, x, v)
      requires forall d :: Edge(graph, v, d) && d in graph ==> d in indexes
      requires LowBounds(graph, indexes, stack, base, indexes[v])
      modifies this`stack, this`stacked, this`components
      ensures Valid(open)
      ensures stack == old(stack)[..base]
    {
      hide Reaches, ReachesOpen, StackConnected, Anchored, Explored, FinishedClasses, Reported, Members, LowBounds,
        Above;
      SegmentIsComponent(graph, index, indexes, stack, components, open, base);
      var component := PopThrough(v, base);
      if |component| > 1 || v in graph[v] {
        components := components + [component];
      }
      CloseFinished(graph, index, indexes, old(stack), old(components), open, base, components);
    }
  }

  /** `_strongly_connected_components`: exactly the components with two members
      or a self-import, each once. */
  method StronglyConnectedComponents(g: Graph) returns (components: seq<set<Module>>)
    ensures IsComponentReport(g, components)
  {
    hide Reaches, ReachesOpen, StackConnected, FinishedClasses;
    var search := new SccSearch(g);
    var pending := g.Keys;
    while pending != {}
      invariant pending <= g.Keys && search.graph == g
      invariant search.Valid({})
      invariant fresh(search)
      invariant g.Keys - pending <= search.indexes.Keys
    {
      var m :| m in pending;
      pending := pending - {m};
      if m !in search.indexes {
        search.Visit(m, {});
      }
    }
    NothingOpenNothingStacked(g, search.indexes, search.stack);
    components := search.components;
  }

  lemma NothingOpenNothingStacked(g: Graph, indexes: Indexes, stack: seq<Module>)
    requires forall i :: 0 <= i < |stack| ==> stack[i] in indexes
    requires Anchored(g, indexes, stack, {})
    ensures stack == []
  {
    if stack != [] {
      var x := OpenWitness(g, indexes, stack[0], {});
    }
  }

  // ----- what the report means -----

  /** Reported components are exactly the maximal mutually reachable sets of
      scanned modules that have two members or a self-import. */
  lemma ReportIsMaximalSets(g: Graph, components: seq<set<Module>>, c: set<Module>)
    requires IsComponentReport(g, components)
    requires c <= g.Keys && c != {}
    ensures c in components <==>
      && MutuallyReachable(g, c)
      && (forall d :: c <= d && d <= g.Keys && MutuallyReachable(g, d) ==> d == c)
      && (|c| > 1 || exists m :: m in c && Edge(g, m, m))
  {
    hide Reaches;
    var n :| n in c;
    ReachesSelf(g, n);
    if c in components {
      var m :| m in g && Cyclic(g, m) && c == Scc(g, m);
      SccIsMaximal(g, m);
      if |c| <= 1 {
        ReachesSelf(g, m);
        assert m in c && Edge(g, m, m);
      }
    }
    if MutuallyReachable(g, c) && (forall d :: c <= d && d <= g.Keys && MutuallyReachable(g, d) ==> d == c) {
      SccIsMaximal(g, n);
      assert c <= Scc(g, n);
      if |c| > 1 || exists m :: m in c && Edge(g, m, m) {
        if m :| m in c && Edge(g, m, m) {
          CyclicClass(g, n, m);
        }
        assert Cyclic(g, n);
      }
    }
  }

  lemma SccIsMaximal(g: Graph, m: Module)
    requires m in g
    ensures m in Scc(g, m) && MutuallyReachable(g, Scc(g, m))
    ensures forall d :: Scc(g, m) <= d && d <= g.Keys && MutuallyReachable(g, d) ==> d == Scc(g, m)
  {
    hide Reaches;
    ReachesSelf(g, m);
    forall a, b | a in Scc(g, m) && b in Scc(g, m) ensures Reaches(g, a, b) {
      ReachesTransitive(g, a, m, b);
    }
    forall d | Scc(g, m) <= d && d <= g.Keys && MutuallyReachable(g, d) ensures d == Scc(g, m) {
      assert forall k :: k in d ==> Mutual(g, m, k);
    }
  }

  /** Two distinct modules share a reported component iff each is in `_reachable` of the other. */
  lemma SharedIffMutuallyReachable(g: Graph, components: seq<set<Module>>, a: Module, b: Module,
                                   fromA: set<Module>, fromB: set<Module>)
    requires IsComponentReport(g, components)
    requires a in g && b in g && a != b
    requires forall m :: m in fromA <==> Reaches(g, a, m)
    requires forall m :: m in fromB <==> Reaches(g, b, m)
    ensures (exists c :: c in components && a in c && b in c) <==> b in fromA && a in fromB
  {
    hide Reaches;
    if c :| c in components && a in c && b in c {
      var m :| m in g && Cyclic(g, m) && c == Scc(g, m);
      SccIsMaximal(g, m);
    }
    if Mutual(g, a, b) {
      SccIsMaximal(g, a);
      assert {a, b} <= Scc(g, a);
      SubsetCardinality({a, b}, Scc(g, a));
      assert Cyclic(g, a);
    }
  }

  // ----- the boundary report -----

  datatype Inspection =
    | RootsMissing(missing: set<Module>)
    | Inspected(forbidden: map<Module, set<Module>>, components: seq<set<Module>>)

  /** `root` imports, directly or not, a module of a forbidden namespace. */
  ghost predicate Violates(g: Graph, root: Module, namespaces: seq<Module>, m: Module) {
    Reaches(g, root, m) && MatchesNamespace(m, namespaces)
  }

  /** `inspect_runtime_import_boundary` on a graph already built. */
  method InspectBoundary(g: Graph, roots: seq<Module>, namespaces: seq<Module>) returns (r: Inspection)
    ensures r.RootsMissing? <==> exists root :: root in roots && root !in g
    ensures r.RootsMissing? ==> forall root :: root in r.missing <==> root in roots && root !in g
    ensures r.Inspected? ==> IsComponentReport(g, r.components)
    ensures r.Inspected? ==> forall root :: root in r.forbidden <==>
      root in roots && exists m :: Violates(g, root, namespaces, m)
    ensures r.Inspected? ==> forall root, m :: root in r.forbidden ==>
      (m in r.forbidden[root] <==> Violates(g, root, namespaces, m))
  {
    hide Reaches, Cyclic, Scc;
    var missing := (set root | root in roots) - g.Keys;
    assert forall root :: root in missing <==> root in roots && root !in g;
    if missing != {} {
      return RootsMissing(missing);
    }
    var forbidden: map<Module, set<Module>> := map[];
    for k := 0 to |roots|
      invariant forall root :: root in forbidden <==> root in roots[..k] && exists m :: Violates(g, root, namespaces, m)
      invariant forall root, m :: root in forbidden ==> (m in forbidden[root] <==> Violates(g, root, namespaces, m))
    {
      assert roots[..k + 1] == roots[..k] + [roots[k]];
      var observed := Reachable(g, roots[k]);
      var violations := set m | m in observed && MatchesNamespace(m, namespaces);
      assert forall m :: m in violations <==> Violates(g, roots[k], namespaces, m);
      if violations != {} {
        var m :| m in violations;
        forbidden := forbidden[roots[k] := violations];
      }
    }
    assert roots[..|roots|] == roots;
    var components := StronglyConnectedComponents(g);
    r := Inspected(forbidden, components);
  }
}
