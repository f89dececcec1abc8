/** How the model compiler computes which subject types can reach a relation. */
module Reachability {

  import opened CompiledModels
  import opened FixedPoint

  /** What a relation's table holds: reachable subject types and reachable wildcards. */
  datatype Fact = Typed(subjectType: TypeId) | Wild(subjectType: TypeId)

  type Edges = seq<set<RelationId>>
  type Table = seq<set<Fact>>

  // ---------------------------------------------------------------------------
  // Propagation
  // ---------------------------------------------------------------------------

  ghost predicate Below(a: Table, b: Table) {
    |a| == |b| && forall s :: 0 <= s < |a| ==> a[s] <= b[s]
  }

  /** A fact known of an edge's target is known of its source. */
  ghost predicate Closed(forward: Edges, table: Table)
    requires |forward| == |table|
  {
    forall f :: ClosedFor(forward, table, f)
  }

  ghost predicate ClosedFor(forward: Edges, table: Table, f: Fact)
    requires |forward| == |table|
  {
    forall s, t :: 0 <= s < |table| && 0 <= t < |table| && t in forward[s] && f in table[t] ==> f in table[s]
  }

  /** What an edge's targets contribute. */
  function Gather(targets: set<RelationId>, table: Table): set<Fact> {
    set t, f | t in targets && t < |table| && f in table[t] :: f
  }

  /** `table` holds nothing that some closed table above `start` does not. */
  ghost predicate Least(forward: Edges, start: Table, table: Table)
    requires |forward| == |start| == |table|
  {
    forall other: Table :: Below(start, other) && |other| == |forward| && Closed(forward, other) ==> Below(table, other)
  }

  /** One pass over all sources, in place. */
  method Round(forward: Edges, table: Table) returns (next: Table, changed: bool)
    requires |forward| == |table|
    ensures Below(table, next)
    ensures changed <==> next != table
    ensures forall s, t :: 0 <= s < |table| && 0 <= t < |table| && t in forward[s] ==> table[t] <= next[s]
    ensures forall other: Table :: Below(table, other) && Closed(forward, other) ==> Below(next, other)
    ensures forall f :: ClosedFor(forward, table, f) ==> forall s :: 0 <= s < |table| && f in next[s] ==> f in table[s]
  {
    next, changed := table, false;
    for s := 0 to |forward|
      invariant Below(table, next)
      invariant changed <==> next != table
      invariant forall x, t :: 0 <= x < s && 0 <= t < |table| && t in forward[x] ==> table[t] <= next[x]
      invariant forall other: Table :: Below(table, other) && Closed(forward, other) ==> Below(next, other)
      invariant forall f :: ClosedFor(forward, table, f) ==> forall x :: 0 <= x < |table| && f in next[x] ==> f in table[x]
    {
      var added := Gather(forward[s], next);
      ghost var before := next;
      if !(added <= next[s]) {
        changed := true;
      }
      next := next[s := next[s] + added];
      RoundStep(forward, table, before, s, next);
      assert added <= before[s] ==> before[s] + added == before[s] && next == before;
      assert next == table ==> before == table && added <= before[s] by {
        if next == table {
          assert forall x :: 0 <= x < |table| ==> before[x] == table[x];
        }
      }
    }
  }

  /** What one source gains keeps every promise of the pass. */
  lemma {:induction false} RoundStep(forward: Edges, table: Table, before: Table, s: nat, next: Table)
    requires |forward| == |table| && s < |table| && Below(table, before)
    requires next == before[s := before[s] + Gather(forward[s], before)]
    ensures Below(table, next) && Below(before, next)
    ensures forall t :: 0 <= t < |table| && t in forward[s] ==> table[t] <= next[s]
    ensures forall other: Table :: Below(before, other) && Closed(forward, other) ==> Below(next, other)
    ensures forall f :: ClosedFor(forward, table, f) && (forall x :: 0 <= x < |table| && f in before[x] ==> f in table[x]) ==>
              forall x :: 0 <= x < |table| && f in next[x] ==> f in table[x]
  {
    forall other: Table | Below(before, other) && Closed(forward, other) ensures Below(next, other) {
      forall f | f in Gather(forward[s], before) ensures f in other[s] {
        assert ClosedFor(forward, other, f);
      }
    }
  }

  /** The relations that hold a fact. */
  function Holders(table: Table, f: Fact): set<nat> {
    set s: nat | s < |table| && f in table[s]
  }

  lemma {:induction false} BoundedSet(s: set<nat>, n: nat)
    requires forall x :: x in s ==> x < n
    ensures |s| <= n
    decreases n
  {
    if n > 0 {
      BoundedSet(s - {n - 1}, n - 1);
      assert |s| <= |s - {n - 1}| + 1 by {
        if n - 1 in s {
          assert s == (s - {n - 1}) + {n - 1};
        } else {
          assert s - {n - 1} == s;
        }
      }
    } else {
      assert s == {};
    }
  }

  /** A pass spreads every fact that is not yet settled to one more relation. */
  lemma {:induction false} SpreadsOrSettles(forward: Edges, table: Table, next: Table, f: Fact)
    requires |forward| == |table| && Below(table, next)
    requires forall s, t :: 0 <= s < |table| && 0 <= t < |table| && t in forward[s] ==> table[t] <= next[s]
    requires ClosedFor(forward, table, f) ==> forall s :: 0 <= s < |table| && f in next[s] ==> f in table[s]
    ensures ClosedFor(forward, table, f) ==> ClosedFor(forward, next, f)
    ensures !ClosedFor(forward, table, f) ==> |Holders(next, f)| > |Holders(table, f)|
  {
    if !ClosedFor(forward, table, f) {
      var s: nat, t: nat :| s < |table| && t < |table| && t in forward[s] && f in table[t] && f !in table[s];
      assert Holders(table, f) + {s} <= Holders(next, f);
      Subset(Holders(table, f) + {s}, Holders(next, f));
    }
  }

  lemma {:induction false} Subset(a: set<nat>, b: set<nat>)
    requires a <= b
    ensures |a| <= |b|
    decreases |a|
  {
    if a != {} {
      var x :| x in a;
      Subset(a - {x}, b - {x});
    }
  }

  /** After `rounds` passes every fact is settled or held by more than `rounds` relations. */
  ghost predicate Spread(forward: Edges, table: Table, rounds: nat)
    requires |forward| == |table|
  {
    forall f :: ClosedFor(forward, table, f) || |Holders(table, f)| > rounds
  }

  lemma {:induction false} SpreadStarts(forward: Edges, table: Table)
    requires |forward| == |table|
    ensures Spread(forward, table, 0)
  {
    forall f ensures ClosedFor(forward, table, f) || |Holders(table, f)| > 0 {
      if !ClosedFor(forward, table, f) {
        var s: nat, t: nat :| s < |table| && t < |table| && t in forward[s] && f in table[t] && f !in table[s];
        assert t in Holders(table, f);
      }
    }
  }

  lemma {:induction false} SpreadEnds(forward: Edges, table: Table, rounds: nat)
    requires |forward| == |table| <= rounds && Spread(forward, table, rounds)
    ensures Closed(forward, table)
  {
    forall f ensures ClosedFor(forward, table, f) {
      BoundedSet(Holders(table, f), |table|);
    }
  }

  /** Passes until nothing changes, at most one more than there are relations. The bound never cuts
      the computation short: the result is the least table above `start` that is closed. */
  method Propagate(forward: Edges, start: Table) returns (table: Table)
    requires |forward| == |start|
    ensures Below(start, table) && Closed(forward, table) && Least(forward, start, table)
  {
    table := start;
    var changed, remaining := true, |forward| + 1;
    SpreadStarts(forward, table);
    while changed && remaining > 0
      invariant |table| == |forward| && remaining <= |forward| + 1
      invariant Below(start, table) && Least(forward, start, table)
      invariant Spread(forward, table, |forward| + 1 - remaining)
      invariant !changed ==> Closed(forward, table)
    {
      var next, moved := Round(forward, table);
      forall f ensures ClosedFor(forward, next, f) || |Holders(next, f)| > |forward| + 1 - (remaining - 1) {
        SpreadsOrSettles(forward, table, next, f);
      }
      table, changed, remaining := next, moved, remaining - 1;
    }
    if changed {
      SpreadEnds(forward, table, |forward| + 1);
    }
  }

  // ---------------------------------------------------------------------------
  // Reading the rewrites
  // ---------------------------------------------------------------------------

  function Operands(node: RewriteNode): set<NodeId> {
    match node
    case UnionNode(ns) => set n | n in ns
    case IntersectionNode(ns) => set n | n in ns
    case DifferenceNode(b, s) => {b, s}
    case _ => {}
  }

  /** What one node asks of the relation that uses it is among the edges and facts. */
  predicate Recorded(m: CompiledModel, node: RewriteNode, edges: set<RelationId>, facts: set<Fact>) {
    match node
    case DirectNode(owner) =>
      owner < |m.relations| && AllRecorded(m.relations[owner].restrictions, edges, facts)
    case ComputedNode(r) => r in edges
    case TtuNode(_, targets) => forall i :: 0 <= i < |targets| ==> targets[i] in edges
    case _ => true
  }

  predicate AllRecorded(rs: seq<DirectRestriction>, edges: set<RelationId>, facts: set<Fact>) {
    forall i :: 0 <= i < |rs| ==> RestrictionRecorded(rs[i], edges, facts)
  }

  predicate RestrictionRecorded(r: DirectRestriction, edges: set<RelationId>, facts: set<Fact>) {
    && Typed(r.subjectType) in facts
    && (r.kind.WildcardKind? ==> Wild(r.subjectType) in facts)
    && (r.kind.UsersetKind? ==> r.kind.relation in edges)
  }

  /** Adds the edges and facts of a direct node's restrictions, and nothing else. */
  method RecordRestrictions(rs: seq<DirectRestriction>, edges: set<RelationId>, facts: set<Fact>)
    returns (e: set<RelationId>, f: set<Fact>)
    ensures edges <= e && facts <= f
    ensures AllRecorded(rs, e, f)
    ensures forall e2: set<RelationId>, f2: set<Fact> ::
              edges <= e2 && facts <= f2 && AllRecorded(rs, e2, f2) ==> e <= e2 && f <= f2
  {
    e, f := edges, facts;
    for i := 0 to |rs|
      invariant edges <= e && facts <= f
      invariant forall k :: 0 <= k < i ==> RestrictionRecorded(rs[k], e, f)
      invariant forall e2: set<RelationId>, f2: set<Fact> ::
                  edges <= e2 && facts <= f2 && AllRecorded(rs, e2, f2) ==> e <= e2 && f <= f2
    {
      f := f + {Typed(rs[i].subjectType)};
      match rs[i].kind {
        case UsersetKind(target) => e := e + {target};
        case WildcardKind => f := f + {Wild(rs[i].subjectType)};
        case ObjectKind =>
      }
    }
  }

  /** Every node below the relation's root is recorded. */
  ghost predicate Walked(m: CompiledModel, seen: set<NodeId>, stack: seq<NodeId>, edges: set<RelationId>, facts: set<Fact>)
    requires ValidModel(m)
  {
    && (forall n :: n in stack ==> n < |m.nodes|)
    && (forall n :: n in seen ==> n < |m.nodes| && Recorded(m, m.nodes[n], edges, facts))
    && (forall n, k :: n in seen && k in Operands(m.nodes[n]) ==> k in seen || k in stack)
  }

  /** The whole rewrite below `n` is recorded. */
  ghost predicate Demands(m: CompiledModel, n: NodeId, edges: set<RelationId>, facts: set<Fact>)
    requires ValidModel(m)
    decreases n
  {
    n < |m.nodes| &&
    assert ValidNode(m, n, m.nodes[n]);
    Recorded(m, m.nodes[n], edges, facts) && forall k :: k in Operands(m.nodes[n]) ==> k < n && Demands(m, k, edges, facts)
  }

  lemma {:induction false} WalkedDemands(m: CompiledModel, seen: set<NodeId>, n: NodeId, edges: set<RelationId>, facts: set<Fact>)
    requires ValidModel(m) && Walked(m, seen, [], edges, facts) && n in seen
    ensures Demands(m, n, edges, facts)
    decreases n
  {
    assert ValidNode(m, n, m.nodes[n]);
    forall k | k in Operands(m.nodes[n]) ensures k < n && Demands(m, k, edges, facts) {
      WalkedDemands(m, seen, k, edges, facts);
    }
  }

  /** Whoever records the rewrite below the root records everything found so far. */
  ghost predicate Frugal(m: CompiledModel, root: NodeId, stack: seq<NodeId>, edges: set<RelationId>, facts: set<Fact>)
    requires ValidModel(m)
  {
    forall e: set<RelationId>, f: set<Fact> :: Demands(m, root, e, f) ==>
      edges <= e && facts <= f && forall n :: n in stack ==> Demands(m, n, e, f)
  }

  function UpTo(n: nat): (all: set<NodeId>)
    ensures forall k: nat :: k in all <==> k < n
  {
    if n == 0 then {} else UpTo(n - 1) + {n - 1}
  }

  /** Records one node: its own edges and facts, and no more. */
  method RecordNode(m: CompiledModel, id: NodeId, edges: set<RelationId>, facts: set<Fact>)
    returns (e: set<RelationId>, f: set<Fact>)
    requires ValidModel(m) && id < |m.nodes|
    ensures edges <= e && facts <= f && Recorded(m, m.nodes[id], e, f)
    ensures forall e2: set<RelationId>, f2: set<Fact> ::
              edges <= e2 && facts <= f2 && Recorded(m, m.nodes[id], e2, f2) ==> e <= e2 && f <= f2
  {
    assert ValidNode(m, id, m.nodes[id]);
    e, f := edges, facts;
    match m.nodes[id] {
      case DirectNode(owner) => e, f := RecordRestrictions(m.relations[owner].restrictions, edges, facts);
      case ComputedNode(target) => e := e + {target};
      case TtuNode(_, targets) => e := e + set t | t in targets;
      case _ =>
    }
  }

  function Children(node: RewriteNode): (ns: seq<NodeId>)
    ensures forall n :: n in ns <==> n in Operands(node)
  {
    match node
    case UnionNode(ns) => ns
    case IntersectionNode(ns) => ns
    case DifferenceNode(b, s) => [b, s]
    case _ => []
  }

  /** Walks the rewrite of one relation with an explicit stack; what it finds is exactly what the
      rewrite demands. */
  method Walk(m: CompiledModel, r: RelationId) returns (edges: set<RelationId>, facts: set<Fact>)
    requires ValidModel(m) && r < |m.relations|
    ensures Demands(m, m.relations[r].root, edges, facts)
    ensures forall e: set<RelationId>, f: set<Fact> :: Demands(m, m.relations[r].root, e, f) ==> edges <= e && facts <= f
  {
    assert ValidRelation(m, m.relations[r]);
    var root := m.relations[r].root;
    var stack := [root];
    var seen: set<NodeId> := {};
    edges, facts := {}, {};
    ghost var all := UpTo(|m.nodes|);
    while stack != []
      invariant Walked(m, seen, stack, edges, facts) && Frugal(m, root, stack, edges, facts)
      invariant root in seen || root in stack
      decreases all - seen, |stack|
    {
      hide ValidModel; hide Demands; hide Recorded; hide Operands; hide Children;
      var id := stack[|stack| - 1];
      ghost var before := stack;
      stack := stack[..|stack| - 1];
      assert forall n :: n in before <==> n == id || n in stack;
      if id in seen {
        continue;
      }
      assert id in before && id in all;
      ghost var e0, f0 := edges, facts;
      edges, facts := RecordNode(m, id, edges, facts);
      var children := Children(m.nodes[id]);
      RecordedGrows(m, seen, e0, f0, edges, facts);
      ChildrenFollow(m, id);
      stack := stack + children;
      seen := seen + {id};
    }
    WalkedDemands(m, seen, root, edges, facts);
  }

  lemma {:induction false} ChildrenFollow(m: CompiledModel, id: NodeId)
    requires ValidModel(m) && id < |m.nodes|
    ensures forall n :: n in Children(m.nodes[id]) ==> n < |m.nodes|
    ensures forall n :: n in Children(m.nodes[id]) <==> n in Operands(m.nodes[id])
    ensures forall e: set<RelationId>, f: set<Fact> :: Demands(m, id, e, f) ==>
              Recorded(m, m.nodes[id], e, f) && forall n :: n in Children(m.nodes[id]) ==> Demands(m, n, e, f)
  {
    assert ValidNode(m, id, m.nodes[id]);
  }

  lemma {:induction false} RecordedGrows(m: CompiledModel, seen: set<NodeId>, e: set<RelationId>, f: set<Fact>, edges: set<RelationId>, facts: set<Fact>)
    requires e <= edges && f <= facts
    requires forall n :: n in seen ==> n < |m.nodes| && Recorded(m, m.nodes[n], e, f)
    ensures forall n :: n in seen ==> n < |m.nodes| && Recorded(m, m.nodes[n], edges, facts)
  {
  }

  // ---------------------------------------------------------------------------
  // The tables of a compiled model
  // ---------------------------------------------------------------------------

  function TypesIn(facts: set<Fact>): set<TypeId> {
    set f | f in facts && f.Typed? :: f.subjectType
  }

  function WildcardsIn(facts: set<Fact>): set<TypeId> {
    set f | f in facts && f.Wild? :: f.subjectType
  }

  function WithTables(m: CompiledModel, table: Table): CompiledModel {
    m.(reachableTypes := seq(|table|, i requires 0 <= i < |table| => TypesIn(table[i])),
       reachableWildcards := seq(|table|, i requires 0 <= i < |table| => WildcardsIn(table[i])))
  }

  /** Two models that differ only in their reachability tables. */
  ghost predicate SameRewrites(m: CompiledModel, other: CompiledModel) {
    other == m.(reachableTypes := other.reachableTypes, reachableWildcards := other.reachableWildcards)
  }

  /** What every relation's own rewrite demands. */
  ghost predicate Collected(m: CompiledModel, forward: Edges, start: Table, n: nat)
    requires ValidModel(m) && n <= |m.relations|
  {
    && |forward| == |start| == n
    && forall r :: 0 <= r < n ==>
         && Demands(m, m.relations[r].root, forward[r], start[r])
         && forall e: set<RelationId>, f: set<Fact> ::
              Demands(m, m.relations[r].root, e, f) ==> forward[r] <= e && start[r] <= f
  }

  /** The compiled tables are closed under the rewrites, and are the least such tables. */
  method BuildTables(m: CompiledModel) returns (built: CompiledModel)
    requires ValidModel(m)
    ensures SameRewrites(m, built) && ReachabilityClosed(built)
    ensures forall other: CompiledModel :: SameRewrites(m, other) && ReachabilityClosed(other) ==> TablesBelow(built, other)
  {
    hide ValidModel; hide ReachabilityClosed; hide Demands; hide Closed; hide Below; hide Least;
    var forward: Edges := [];
    var start: Table := [];
    for r := 0 to |m.relations|
      invariant Collected(m, forward, start, r)
    {
      var edges, facts := Walk(m, r);
      forward, start := forward + [edges], start + [facts];
    }
    var table := Propagate(forward, start);
    built := WithTables(m, table);
    TablesAreClosed(m, forward, start, table);
    forall other: CompiledModel | SameRewrites(m, other) && ReachabilityClosed(other) ensures TablesBelow(built, other) {
      TablesAreLeast(m, forward, start, table, other);
    }
  }

  ghost predicate TablesBelow(m: CompiledModel, other: CompiledModel) {
    && |m.reachableTypes| == |other.reachableTypes| && |m.reachableWildcards| == |other.reachableWildcards|
    && (forall r :: 0 <= r < |m.reachableTypes| ==> m.reachableTypes[r] <= other.reachableTypes[r])
    && (forall r :: 0 <= r < |m.reachableWildcards| ==> m.reachableWildcards[r] <= other.reachableWildcards[r])
  }

  lemma {:induction false} TablesAreClosed(m: CompiledModel, forward: Edges, start: Table, table: Table)
    requires ValidModel(m) && Collected(m, forward, start, |m.relations|)
    requires |table| == |forward| && Below(start, table) && Closed(forward, table)
    ensures ReachabilityClosed(WithTables(m, table))
  {
    var built := WithTables(m, table);
    assert ValidModel(built) by { SameIsValid(m, built); }
    forall r | 0 <= r < |m.relations| ensures NodeCovered(built, r, m.relations[r].root) {
      DemandsCover(m, forward, table, r, m.relations[r].root, start[r]);
    }
  }

  lemma {:induction false} SameIsValid(m: CompiledModel, other: CompiledModel)
    requires ValidModel(m) && SameRewrites(m, other)
    ensures ValidModel(other)
  {
    forall n | 0 <= n < |m.nodes| ensures ValidNode(other, n, other.nodes[n]) {
      assert ValidNode(m, n, m.nodes[n]);
    }
    forall r | 0 <= r < |m.relations| ensures ValidRelation(other, other.relations[r]) {
      assert ValidRelation(m, m.relations[r]);
    }
  }

  lemma {:induction false} EdgeCovers(m: CompiledModel, forward: Edges, table: Table, r: RelationId, t: RelationId)
    requires |table| == |forward| == |m.relations| && Closed(forward, table) && r < |table| && t in forward[r]
    ensures TargetCovered(WithTables(m, table), r, t)
  {
    if t < |table| {
      forall f | f in table[t] ensures f in table[r] {
        assert ClosedFor(forward, table, f);
      }
    }
  }

  /** What a relation's rewrite demands, and closure under its edges, cover the rewrite. */
  lemma {:induction false} DemandsCover(
    m: CompiledModel, forward: Edges, table: Table, r: RelationId, n: NodeId, facts: set<Fact>)
    requires ValidModel(m) && |table| == |forward| == |m.relations| && Closed(forward, table) && r < |table|
    requires Demands(m, n, forward[r], facts) && facts <= table[r]
    requires ValidModel(WithTables(m, table))
    ensures NodeCovered(WithTables(m, table), r, n)
    decreases n
  {
    var built := WithTables(m, table);
    hide Closed;
    assert ValidNode(m, n, m.nodes[n]);
    match m.nodes[n] {
      case DirectNode(owner) =>
        var rs := m.relations[owner].restrictions;
        forall i | 0 <= i < |rs| ensures RestrictionCovered(built, r, rs[i]) {
          assert RestrictionRecorded(rs[i], forward[r], facts);
          assert rs[i].subjectType in TypesIn(table[r]) by { assert Typed(rs[i].subjectType) in table[r]; }
          if rs[i].kind.WildcardKind? {
            assert Wild(rs[i].subjectType) in table[r];
          }
          if rs[i].kind.UsersetKind? {
            EdgeCovers(m, forward, table, r, rs[i].kind.relation);
          }
        }
      case ComputedNode(t) => EdgeCovers(m, forward, table, r, t);
      case TtuNode(_, targets) =>
        forall i | 0 <= i < |targets| ensures TargetCovered(built, r, targets[i]) {
          EdgeCovers(m, forward, table, r, targets[i]);
        }
      case UnionNode(ns) =>
        forall i | 0 <= i < |ns| ensures NodeCovered(built, r, ns[i]) {
          DemandsCover(m, forward, table, r, ns[i], facts);
        }
      case IntersectionNode(ns) =>
        forall i | 0 <= i < |ns| ensures NodeCovered(built, r, ns[i]) {
          DemandsCover(m, forward, table, r, ns[i], facts);
        }
      case DifferenceNode(b, s) =>
        DemandsCover(m, forward, table, r, b, facts);
        DemandsCover(m, forward, table, r, s, facts);
    }
  }

  // Any closed tables give a closed fact table above the collected one.

  function FactsOf(types: set<TypeId>, wildcards: set<TypeId>): set<Fact> {
    (set t | t in types :: Typed(t)) + (set t | t in wildcards :: Wild(t))
  }

  function TableOf(other: CompiledModel): Table
    requires |other.reachableTypes| == |other.reachableWildcards|
  {
    seq(|other.reachableTypes|, i requires 0 <= i < |other.reachableTypes| =>
      FactsOf(other.reachableTypes[i], other.reachableWildcards[i]))
  }

  /** The relations whose facts relation `r` already holds. */
  function Allowed(table: Table, r: RelationId): set<RelationId>
    requires r < |table|
  {
    set t | t in UpTo(|table|) && table[t] <= table[r]
  }

  lemma {:induction false} CoverDemands(m: CompiledModel, other: CompiledModel, r: RelationId, n: NodeId)
    requires ValidModel(m) && SameRewrites(m, other) && ReachabilityClosed(other) && r < |m.relations| && n < |m.nodes|
    requires NodeCovered(other, r, n)
    ensures Demands(m, n, Allowed(TableOf(other), r), TableOf(other)[r])
    decreases n
  {
    var table := TableOf(other);
    var allowed := Allowed(table, r);
    assert ValidNode(m, n, m.nodes[n]);
    match m.nodes[n] {
      case DirectNode(owner) =>
        var rs := m.relations[owner].restrictions;
        assert ValidRelation(m, m.relations[owner]);
        forall i | 0 <= i < |rs| ensures RestrictionRecorded(rs[i], allowed, table[r]) {
          assert RestrictionCovered(other, r, rs[i]) && ValidRestriction(m, rs[i]);
          if rs[i].kind.UsersetKind? {
            TargetAllowed(other, r, rs[i].kind.relation);
          }
        }
      case ComputedNode(t) => TargetAllowed(other, r, t);
      case TtuNode(_, targets) =>
        forall i | 0 <= i < |targets| ensures targets[i] in allowed {
          TargetAllowed(other, r, targets[i]);
        }
      case UnionNode(ns) =>
        forall k | k in ns ensures Demands(m, k, allowed, table[r]) {
          CoverDemands(m, other, r, k);
        }
      case IntersectionNode(ns) =>
        forall k | k in ns ensures Demands(m, k, allowed, table[r]) {
          CoverDemands(m, other, r, k);
        }
      case DifferenceNode(b, s) =>
        CoverDemands(m, other, r, b);
        CoverDemands(m, other, r, s);
    }
  }

  lemma {:induction false} TargetAllowed(other: CompiledModel, r: RelationId, t: RelationId)
    requires |other.reachableTypes| == |other.relations| == |other.reachableWildcards| && r < |other.relations|
    requires t < |other.relations| && TargetCovered(other, r, t)
    ensures t in Allowed(TableOf(other), r)
  {
  }

  lemma {:induction false} TablesAreLeast(m: CompiledModel, forward: Edges, start: Table, table: Table, other: CompiledModel)
    requires ValidModel(m) && Collected(m, forward, start, |m.relations|)
    requires |table| == |forward| && Least(forward, start, table)
    requires SameRewrites(m, other) && ReachabilityClosed(other)
    ensures TablesBelow(WithTables(m, table), other)
  {
    var upper := TableOf(other);
    forall r | 0 <= r < |m.relations| ensures forward[r] <= Allowed(upper, r) && start[r] <= upper[r] {
      assert ValidRelation(m, m.relations[r]);
      CoverDemands(m, other, r, m.relations[r].root);
    }
    assert Below(start, upper);
    assert Closed(forward, upper) by {
      forall f ensures ClosedFor(forward, upper, f) {
        forall s, t | 0 <= s < |upper| && 0 <= t < |upper| && t in forward[s] && f in upper[t] ensures f in upper[s] {
          assert t in Allowed(upper, s);
        }
      }
    }
    assert Below(table, upper);
    UpperTables(m, table, other);
  }

  lemma {:induction false} UpperTables(m: CompiledModel, table: Table, other: CompiledModel)
    requires |other.reachableTypes| == |other.reachableWildcards| && Below(table, TableOf(other))
    ensures TablesBelow(WithTables(m, table), other)
  {
    forall r | 0 <= r < |table| ensures TypesIn(table[r]) <= other.reachableTypes[r] {
      assert table[r] <= TableOf(other)[r];
    }
    forall r | 0 <= r < |table| ensures WildcardsIn(table[r]) <= other.reachableWildcards[r] {
      assert table[r] <= TableOf(other)[r];
    }
  }
}
