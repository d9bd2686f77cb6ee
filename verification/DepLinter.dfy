/**
 The dependency linter of tools/lint_deps.py: Rule 1 (rows) while the include graph is collected,
 then Rule 3 (cycles) by white/grey/black depth-first search. Successors are visited in an arbitrary
 order, of which sorted order is one.
*/
module DepLinter {

  type Node = string

  datatype Color = Grey | Black

  datatype Violation = HigherRow(mod: Node, dep: Node) | Cyclic(path: seq<Node>)

  type Graph = map<Node, set<Node>>

  // ---------------------------------------------------------------- graphs

  predicate Edge(g: Graph, u: Node, v: Node) {
    u in g && v in g[u]
  }

  ghost predicate Walk(g: Graph, p: seq<Node>) {
    forall i {:trigger p[i]} :: 0 <= i < |p| - 1 ==> Edge(g, p[i], p[i + 1])
  }

  /** At least one edge, and back where it began. */
  ghost predicate ClosedWalk(g: Graph, p: seq<Node>) {
    |p| >= 2 && Walk(g, p) && p[0] == p[|p| - 1]
  }

  ghost predicate HasCycle(g: Graph) {
    exists p :: ClosedWalk(g, p)
  }

  /** Every edge out of a listed node leads to an earlier one. */
  ghost predicate Ordered(g: Graph, order: seq<Node>) {
    forall i, w :: 0 <= i < |order| && Edge(g, order[i], w) ==> w in order[..i]
  }

  lemma {:induction false} WalkDescends(g: Graph, order: seq<Node>, p: seq<Node>, i: nat) returns (j: nat)
    requires Ordered(g, order) && Walk(g, p) && p != [] && i < |order| && p[0] == order[i]
    ensures j < |order| && order[j] == p[|p| - 1] && j + |p| - 1 <= i
    decreases |p|
  {
    j := i;
    if |p| > 1 {
      assert Edge(g, p[0], p[1]);
      assert p[1] in order[..i];
      var k :| 0 <= k < i && order[..i][k] == p[1];
      var rest := p[1..];
      assert Walk(g, rest) by {
        forall n {:trigger rest[n]} | 0 <= n < |rest| - 1
          ensures Edge(g, rest[n], rest[n + 1])
        {
          assert Edge(g, p[n + 1], p[n + 2]);
        }
      }
      j := WalkDescends(g, order, rest, k);
    }
  }

  /** A closed walk through an ordered node would descend for ever. */
  lemma {:induction false} NoClosedWalkThrough(g: Graph, order: seq<Node>, p: seq<Node>, i: nat)
    requires Ordered(g, order) && p != [] && i < |order| && p[0] == order[i]
    ensures !ClosedWalk(g, p)
    decreases i
  {
    if ClosedWalk(g, p) {
      var j := WalkDescends(g, order, p, i);
      NoClosedWalkThrough(g, order, p, j);
    }
  }

  lemma OrderedIsAcyclic(g: Graph, order: seq<Node>)
    requires Ordered(g, order) && forall u :: u in g ==> u in order
    ensures !HasCycle(g)
  {
    if p :| ClosedWalk(g, p) {
      assert Edge(g, p[0], p[1]);
      var i :| 0 <= i < |order| && order[i] == p[0];
      NoClosedWalkThrough(g, order, p, i);
    }
  }

  // ---------------------------------------------------------------- rows

  type Include = (Node, Node)

  /** An include that makes an edge: between two different known modules. */
  predicate Counts(rows: map<Node, int>, e: Include) {
    e.0 in rows && e.1 in rows && e.0 != e.1
  }

  ghost predicate RowsRespected(rows: map<Node, int>, g: Graph) {
    forall u, v :: Edge(g, u, v) ==> u in rows && v in rows && rows[v] <= rows[u]
  }

  lemma {:induction false} WalkNeverClimbs(rows: map<Node, int>, g: Graph, p: seq<Node>, i: nat, j: nat)
    requires RowsRespected(rows, g) && Walk(g, p) && i <= j < |p| && p[i] in rows
    ensures p[j] in rows && rows[p[j]] <= rows[p[i]]
    decreases j - i
  {
    if i < j {
      WalkNeverClimbs(rows, g, p, i, j - 1);
      assert Edge(g, p[j - 1], p[j]);
    }
  }

  /** Rule 1 leaves cycles only within a row. */
  lemma CycleStaysInRow(rows: map<Node, int>, g: Graph, p: seq<Node>, i: nat)
    requires RowsRespected(rows, g) && ClosedWalk(g, p) && i < |p|
    ensures p[0] in rows && p[i] in rows && rows[p[i]] == rows[p[0]]
  {
    assert Edge(g, p[0], p[1]);
    WalkNeverClimbs(rows, g, p, 0, i);
    WalkNeverClimbs(rows, g, p, i, |p| - 1);
  }

  // ---------------------------------------------------------------- the search

  ghost function Elements(s: seq<Node>): set<Node> {
    set x | x in s
  }

  ghost function Colored(color: map<Node, Color>, c: Color): set<Node> {
    set x | x in color && color[x] == c
  }

  ghost predicate NoDuplicates(s: seq<Node>) {
    forall i, j :: 0 <= i < j < |s| ==> s[i] != s[j]
  }

  /** The recursion stack is a path. */
  ghost predicate Path(g: Graph, s: seq<Node>) {
    s != [] && Walk(g, s) && NoDuplicates(s)
  }

  ghost predicate CyclesGenuine(g: Graph, vs: seq<Violation>) {
    forall i :: 0 <= i < |vs| && vs[i].Cyclic? ==> ClosedWalk(g, vs[i].path)
  }

  ghost predicate NoCycleIn(vs: seq<Violation>) {
    forall i :: 0 <= i < |vs| ==> !vs[i].Cyclic?
  }

  /** Known nodes only. */
  ghost predicate Within(rows: map<Node, int>, g: Graph) {
    forall u, v :: Edge(g, u, v) ==> u in rows && v in rows
  }

  /** The grey node v closes the walk that leads from it along the stack. */
  lemma BackEdgeClosesWalk(g: Graph, stack: seq<Node>, i: nat, v: Node)
    requires Path(g, stack) && i < |stack| && stack[i] == v && Edge(g, stack[|stack| - 1], v)
    ensures ClosedWalk(g, stack[i..] + [v])
  {
    var p := stack[i..] + [v];
    forall k {:trigger p[k]} | 0 <= k < |p| - 1
      ensures Edge(g, p[k], p[k + 1])
    {
      if k < |stack| - i - 1 {
        assert p[k] == stack[i + k] && p[k + 1] == stack[i + k + 1];
      }
    }
  }

  lemma PathExtends(g: Graph, stack: seq<Node>, v: Node)
    requires Path(g, stack) && v !in stack && Edge(g, stack[|stack| - 1], v)
    ensures Path(g, stack + [v]) && Elements(stack + [v]) == Elements(stack) + {v}
  {
    var p := stack + [v];
    forall k {:trigger p[k]} | 0 <= k < |p| - 1
      ensures Edge(g, p[k], p[k + 1])
    {
      if k < |stack| - 1 { assert Edge(g, stack[k], stack[k + 1]); }
    }
  }

  /** u finishes after all its successors. */
  lemma FinishKeepsOrder(g: Graph, order: seq<Node>, u: Node)
    requires Ordered(g, order) && forall w :: Edge(g, u, w) ==> w in order
    ensures Ordered(g, order + [u])
  {
    var more := order + [u];
    forall i, w | 0 <= i < |more| && Edge(g, more[i], w)
      ensures w in more[..i]
    {
      if i < |order| {
        assert order[i] == more[i] && more[..i] == order[..i];
      } else {
        assert more[..i] == order;
      }
    }
  }

  function IndexOf(s: seq<Node>, v: Node): (i: nat)
    requires v in s
    ensures i < |s| && s[i] == v && forall k :: 0 <= k < i ==> s[k] != v
  {
    if s[0] == v then 0 else IndexOf(s[1..], v) + 1
  }

  /** The search's fields: colours (absent: white), reports, and the finished nodes, first finished first. */
  datatype Search = Search(color: map<Node, Color>, violations: seq<Violation>, order: seq<Node>)

  /** What holds of the search between any two calls. */
  ghost predicate Sound(rows: map<Node, int>, g: Graph, s: Search) {
    && Within(rows, g) && g.Keys <= rows.Keys && s.color.Keys <= rows.Keys
    && CyclesGenuine(g, s.violations)
    && Colored(s.color, Black) == Elements(s.order)
    && (NoCycleIn(s.violations) ==> Ordered(g, s.order))
  }

  ghost predicate NoRowIn(vs: seq<Violation>) {
    forall i :: 0 <= i < |vs| ==> !vs[i].HigherRow?
  }

  /** Colours are never taken back, nor is a report or a finish; the search reports only cycles. */
  ghost predicate Grows(s: Search, n: Search) {
    && s.color.Keys <= n.color.Keys
    && (NoCycleIn(n.violations) ==> NoCycleIn(s.violations))
    && (NoRowIn(n.violations) <==> NoRowIn(s.violations))
    && (forall w :: w in s.order ==> w in n.order)
  }

  /** All successors of u outside todo are finished, unless a cycle has been reported. */
  ghost predicate Visited(g: Graph, s: Search, u: Node, todo: set<Node>) {
    NoCycleIn(s.violations) ==> forall w :: Edge(g, u, w) ==> w in todo || w in s.order
  }

  function Whites(rows: map<Node, int>, color: map<Node, Color>): nat {
    |rows.Keys - color.Keys|
  }

  lemma Enter(rows: map<Node, int>, g: Graph, s: Search, u: Node)
    requires Sound(rows, g, s) && u in rows && u !in s.color
    ensures var n := s.(color := s.color[u := Grey]);
            && Sound(rows, g, n) && Grows(s, n)
            && Colored(n.color, Grey) == Colored(s.color, Grey) + {u}
            && Whites(rows, n.color) < Whites(rows, s.color)
  {
    var n := s.(color := s.color[u := Grey]);
    assert Colored(n.color, Black) == Colored(s.color, Black);
    assert rows.Keys - s.color.Keys == (rows.Keys - n.color.Keys) + {u};
  }

  lemma Finish(rows: map<Node, int>, g: Graph, s: Search, u: Node)
    requires Sound(rows, g, s) && u in s.color && s.color[u] == Grey && Visited(g, s, u, {})
    ensures var n := s.(color := s.color[u := Black], order := s.order + [u]);
            && Sound(rows, g, n) && Grows(s, n)
            && Colored(n.color, Grey) == Colored(s.color, Grey) - {u}
  {
    var n := s.(color := s.color[u := Black], order := s.order + [u]);
    if NoCycleIn(s.violations) { FinishKeepsOrder(g, s.order, u); }
    assert Colored(n.color, Black) == Colored(s.color, Black) + {u};
    assert Elements(n.order) == Elements(s.order) + {u};
  }

  lemma FewerWhites(rows: map<Node, int>, s: Search, n: Search)
    requires Grows(s, n)
    ensures Whites(rows, n.color) <= Whites(rows, s.color)
  {
    var x, y := rows.Keys - n.color.Keys, rows.Keys - s.color.Keys;
    assert y == x + (y - x);
  }

  function Successors(g: Graph, u: Node): set<Node> {
    if u in g then g[u] else {}
  }

  lemma IsGrey(s: Search, u: Node)
    ensures u in Colored(s.color, Grey) <==> u in s.color && s.color[u] == Grey
  {
  }

  /** dfs's loop over u's successors: what holds with `todo` still to visit. */
  ghost predicate Exploring(rows: map<Node, int>, g: Graph, stack: seq<Node>, entered: Search, s: Search, u: Node, todo: set<Node>) {
    && Sound(rows, g, s) && Grows(entered, s) && Colored(s.color, Grey) == Elements(stack)
    && todo <= Successors(g, u) && Visited(g, s, u, todo)
  }

  lemma ExploreBegins(rows: map<Node, int>, g: Graph, stack: seq<Node>, s: Search, u: Node)
    requires Sound(rows, g, s) && u in rows && u !in s.color && Elements(stack) == Colored(s.color, Grey) + {u}
    ensures var entered := s.(color := s.color[u := Grey]);
            && Exploring(rows, g, stack, entered, entered, u, Successors(g, u)) && Grows(s, entered)
            && Whites(rows, entered.color) < Whites(rows, s.color)
  {
    Enter(rows, g, s, u);
    hide Sound, Colored, Elements, NoCycleIn, NoRowIn, Whites;
  }

  lemma ExploreAllows(rows: map<Node, int>, g: Graph, stack: seq<Node>, entered: Search, s: Search, u: Node, todo: set<Node>, v: Node)
    requires Exploring(rows, g, stack, entered, s, u, todo) && v in todo
    ensures Sound(rows, g, s) && Edge(g, u, v) && Colored(s.color, Grey) == Elements(stack)
    ensures Whites(rows, s.color) <= Whites(rows, entered.color)
  {
    hide Sound, Visited, Colored, Elements;
    FewerWhites(rows, entered, s);
  }

  lemma ExploreSteps(rows: map<Node, int>, g: Graph, stack: seq<Node>, entered: Search, s: Search, n: Search, u: Node,
                     todo: set<Node>, v: Node)
    requires Exploring(rows, g, stack, entered, s, u, todo) && v in todo
    requires Sound(rows, g, n) && Grows(s, n) && Colored(n.color, Grey) == Elements(stack)
    requires NoCycleIn(n.violations) ==> v in n.order
    ensures Exploring(rows, g, stack, entered, n, u, todo - {v})
  {
    hide Sound, NoCycleIn, NoRowIn, Edge, Colored, Elements;
  }

  lemma ExploreEnds(rows: map<Node, int>, g: Graph, stack: seq<Node>, start: Search, entered: Search, s: Search, u: Node)
    requires Exploring(rows, g, stack, entered, s, u, {}) && Grows(start, entered) && u !in start.color
    requires Elements(stack) == Colored(start.color, Grey) + {u}
    ensures var n := s.(color := s.color[u := Black], order := s.order + [u]);
            && Sound(rows, g, n) && Grows(start, n) && u in n.order
            && Colored(n.color, Grey) == Colored(start.color, Grey) - {u}
  {
    assert u in Elements(stack);
    IsGrey(s, u);
    Finish(rows, g, s, u);
    var n := s.(color := s.color[u := Black], order := s.order + [u]);
    assert n.order[|s.order|] == u;
    hide Sound, NoCycleIn, NoRowIn, Visited, Elements, Colored;
  }

  lemma Report(rows: map<Node, int>, g: Graph, s: Search, p: seq<Node>)
    requires Sound(rows, g, s) && ClosedWalk(g, p)
    ensures var n := s.(violations := s.violations + [Cyclic(p)]);
            Sound(rows, g, n) && Grows(s, n) && !NoCycleIn(n.violations)
  {
    var n := s.(violations := s.violations + [Cyclic(p)]);
    assert n.violations[|s.violations|].Cyclic?;
    assert forall i :: 0 <= i < |s.violations| ==> n.violations[i] == s.violations[i];
  }

  class Linter {
    const rows: map<Node, int>
    var edges: Graph
    var violations: seq<Violation>
    var color: map<Node, Color>   // absent: white
    ghost var order: seq<Node>

    constructor (rows: map<Node, int>)
      ensures this.rows == rows && edges == map[] && violations == [] && color == map[] && order == []
    {
      this.rows := rows;
      edges, violations, color, order := map[], [], map[], [];
    }

    ghost function Now(): Search
      reads this
    {
      Search(color, violations, order)
    }

    /** One include directive of a file of module mod. */
    method AddInclude(mod: Node, dep: Node)
      modifies this`edges, this`violations
      ensures forall u, v :: Edge(edges, u, v) <==> Edge(old(edges), u, v) || (Counts(rows, (mod, dep)) && u == mod && v == dep)
      ensures old(edges.Keys) <= rows.Keys ==> edges.Keys <= rows.Keys
      ensures violations == old(violations) +
                if Counts(rows, (mod, dep)) && rows[dep] > rows[mod] then [HigherRow(mod, dep)] else []
    {
      if mod !in rows || dep == mod || dep !in rows {
        return;
      }
      if mod !in edges {
        edges := edges[mod := {}];
      }
      edges := edges[mod := edges[mod] + {dep}];
      if rows[dep] > rows[mod] {
        violations := violations + [HigherRow(mod, dep)];
      }
    }

    method Scan(includes: seq<Include>)
      requires edges == map[] && violations == []
      modifies this`edges, this`violations
      ensures forall u, v :: Edge(edges, u, v) <==> (u, v) in includes && Counts(rows, (u, v))
      ensures edges.Keys <= rows.Keys && NoCycleIn(violations)
      ensures violations == [] <==> RowsRespected(rows, edges)
    {
      for i := 0 to |includes|
        invariant forall u, v :: Edge(edges, u, v) <==> (u, v) in includes[..i] && Counts(rows, (u, v))
        invariant edges.Keys <= rows.Keys && NoCycleIn(violations)
        invariant violations == [] <==> RowsRespected(rows, edges)
      {
        ghost var was := edges;
        AddInclude(includes[i].0, includes[i].1);
        assert includes[..i + 1] == includes[..i] + [includes[i]];
        assert forall u, v :: Edge(was, u, v) ==> Edge(edges, u, v);
        assert includes[i] == (includes[i].0, includes[i].1);
        if Counts(rows, includes[i]) { assert Edge(edges, includes[i].0, includes[i].1); }
      }
      assert includes[..|includes|] == includes;
    }

    /** dfs(u, stack): on return u is finished and the grey nodes are those of the caller. */
    method Dfs(u: Node, stack: seq<Node>)
      requires Sound(rows, edges, Now()) && u in rows && u !in color
      requires Path(edges, stack) && stack[|stack| - 1] == u
      requires Elements(stack) == Colored(color, Grey) + {u}
      modifies this`color, this`violations, this`order
      ensures Sound(rows, edges, Now()) && Grows(old(Now()), Now())
      ensures u in order && Colored(color, Grey) == old(Colored(color, Grey)) - {u}
      decreases Whites(rows, color), 1
    {
      hide Sound, Grows, Colored, Elements, Exploring, Path, Visited, Whites, Successors;
      ghost var start := Now();
      ghost var entered := start.(color := color[u := Grey]);
      ExploreBegins(rows, edges, stack, start, u);
      color := color[u := Grey];
      var todo := Successors(edges, u);
      while todo != {}
        invariant Exploring(rows, edges, stack, entered, Now(), u, todo)
        decreases todo
      {
        var v :| v in todo;
        ghost var before := Now();
        ExploreAllows(rows, edges, stack, entered, before, u, todo, v);
        Visit(u, stack, v);
        ExploreSteps(rows, edges, stack, entered, before, Now(), u, todo, v);
        todo := todo - {v};
      }
      ghost var done := Now();
      ExploreEnds(rows, edges, stack, start, entered, done, u);
      color := color[u := Black];
      order := order + [u];
    }

    /** The body of dfs's loop for one successor. */
    method Visit(u: Node, stack: seq<Node>, v: Node)
      requires Sound(rows, edges, Now()) && Path(edges, stack) && stack[|stack| - 1] == u
      requires Colored(color, Grey) == Elements(stack) && Edge(edges, u, v)
      modifies this`color, this`violations, this`order
      ensures Sound(rows, edges, Now()) && Grows(old(Now()), Now())
      ensures Colored(color, Grey) == Elements(stack)
      ensures NoCycleIn(violations) ==> v in order
      decreases Whites(rows, color), 2
    {
      if v in color && color[v] == Grey {
        var cycle;
        assert v in Colored(color, Grey);
        if v in stack {
          cycle := stack[IndexOf(stack, v)..] + [v];
          BackEdgeClosesWalk(edges, stack, IndexOf(stack, v), v);
        } else {
          assert false;
        }
        Report(rows, edges, Now(), cycle);
        hide *;
        violations := violations + [Cyclic(cycle)];
      } else if v !in color {
        assert v !in Colored(color, Grey) && v in rows;
        PathExtends(edges, stack, v);
        assert (stack + [v])[|stack|] == v;
        Dfs(v, stack + [v]);
      } else {
        assert v in Colored(color, Black);
      }
    }

    /** Rules 1 and 3 over all include directives. */
    method Lint(includes: seq<Include>) returns (ok: bool)
      requires edges == map[] && violations == [] && color == map[] && order == []
      modifies this
      ensures forall u, v :: Edge(edges, u, v) <==> (u, v) in includes && u in rows && v in rows && u != v
      ensures CyclesGenuine(edges, violations)
      ensures NoCycleIn(violations) <==> !HasCycle(edges)
      ensures ok <==> RowsRespected(rows, edges) && !HasCycle(edges)
      ensures ok ==> forall e :: e in includes && e.0 in rows && e.1 in rows ==> rows[e.1] <= rows[e.0]
    {
      Scan(includes);
      assert violations != [] ==> violations[0].HigherRow?;
      label Scanned:
      var todo := edges.Keys;
      while todo != {}
        invariant edges == old@Scanned(edges) && todo <= edges.Keys
        invariant Sound(rows, edges, Now()) && Colored(color, Grey) == {}
        invariant NoRowIn(violations) <==> RowsRespected(rows, edges)
        invariant forall u :: u in edges ==> u in todo || u in order
        decreases todo
      {
        var u :| u in todo;
        todo := todo - {u};
        if u !in color {
          Dfs(u, [u]);
        } else {
          assert color[u] != Grey by { assert u !in Colored(color, Grey); }
          assert u in Colored(color, Black);
        }
      }
      if NoCycleIn(violations) { OrderedIsAcyclic(edges, order); }
      assert violations != [] ==> violations[0].HigherRow? || violations[0].Cyclic?;
      ok := violations == [];
    }
  }
}
