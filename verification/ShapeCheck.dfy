/** The worklist that bounds a parsed condition before it is lowered. */
module ShapeCheck {

  import opened Outcomes
  import opened ConditionTypes
  import opened ConditionCompiler

  datatype Limits = Limits(
    nodes: nat, depth: nat, identifiers: nat, literals: nat, comprehensions: nat, collectionItems: nat)

  datatype Counts = Counts(nodes: nat, identifiers: nat, literals: nat, comprehensions: nat)

  function Plus(a: Counts, b: Counts): Counts {
    Counts(a.nodes + b.nodes, a.identifiers + b.identifiers, a.literals + b.literals, a.comprehensions + b.comprehensions)
  }

  const NONE := Counts(0, 0, 0, 0)

  // ---------------------------------------------------------------------------
  // The shape of a tree, by recursion
  // ---------------------------------------------------------------------------

  /** What the expression itself adds, without its children. */
  function Own(e: Expr): Counts {
    Counts(1, if e.Ident? then 1 else 0, if e.LiteralExpr? then 1 else 0, if e.ComprehensionExpr? then 1 else 0)
  }

  function Count(e: Expr): Counts
    decreases e
  {
    Plus(Own(e),
         match e
         case ListExpr(es) => CountAll(es)
         case MapExpr(entries) => CountEntries(entries)
         case SelectExpr(operand, _, _) => Count(operand)
         case CallExpr(_, target, args) => Plus(if target.Some? then Count(target.value) else NONE, CountAll(args))
         case ComprehensionExpr(range, _, _, _, init, cond, step, result) =>
           Plus(Plus(Plus(Plus(Count(range), Count(init)), Count(cond)), Count(step)), Count(result))
         case _ => NONE)
  }

  function CountAll(es: seq<Expr>): Counts
    decreases es, |es|
  {
    if es == [] then NONE else Plus(CountAll(es[..|es| - 1]), Count(es[|es| - 1]))
  }

  function CountEntries(entries: seq<Entry>): Counts
    decreases entries, |entries|
  {
    if entries == [] then NONE else Plus(CountEntries(entries[..|entries| - 1]), CountEntry(entries[|entries| - 1]))
  }

  function CountEntry(entry: Entry): Counts
    decreases entry
  {
    if entry.OtherEntry? then NONE else Plus(Count(entry.key), Count(entry.value))
  }

  function Max(a: nat, b: nat): nat {
    if a < b then b else a
  }

  function Height(e: Expr): nat
    decreases e
  {
    1 + match e
        case ListExpr(es) => Tallest(es)
        case MapExpr(entries) => TallestEntry(entries)
        case SelectExpr(operand, _, _) => Height(operand)
        case CallExpr(_, target, args) => Max(if target.Some? then Height(target.value) else 0, Tallest(args))
        case ComprehensionExpr(range, _, _, _, init, cond, step, result) =>
          Max(Height(range), Max(Height(init), Max(Height(cond), Max(Height(step), Height(result)))))
        case _ => 0
  }

  function Tallest(es: seq<Expr>): nat
    decreases es, |es|
  {
    if es == [] then 0 else Max(Tallest(es[..|es| - 1]), Height(es[|es| - 1]))
  }

  function TallestEntry(entries: seq<Entry>): nat
    decreases entries, |entries|
  {
    if entries == [] then 0 else Max(TallestEntry(entries[..|entries| - 1]), EntryHeight(entries[|entries| - 1]))
  }

  function EntryHeight(entry: Entry): nat
    decreases entry
  {
    if entry.OtherEntry? then 0 else Max(Height(entry.key), Height(entry.value))
  }

  /** The expression's children, in the order they are pushed. */
  function Children(e: Expr): seq<Expr> {
    match e
    case ListExpr(es) => es
    case MapExpr(entries) => EntryExprs(entries)
    case SelectExpr(operand, _, _) => [operand]
    case CallExpr(_, target, args) => (if target.Some? then [target.value] else []) + args
    case ComprehensionExpr(range, _, _, _, init, cond, step, result) => [range, init, cond, step, result]
    case _ => []
  }

  function EntryExprs(entries: seq<Entry>): seq<Expr> {
    if entries == [] then [] else
    var last := entries[|entries| - 1];
    EntryExprs(entries[..|entries| - 1]) + if last.OtherEntry? then [] else [last.key, last.value]
  }

  predicate Plain(entry: Entry) {
    entry.MapEntry? && !entry.optional
  }

  predicate AllPlain(entries: seq<Entry>) {
    forall i :: 0 <= i < |entries| ==> Plain(entries[i])
  }

  /** A literal collection of the expression itself has at most `n` items. */
  predicate OwnItemsWithin(e: Expr, n: nat) {
    (e.ListExpr? ==> |e.elements| <= n) && (e.MapExpr? ==> |e.entries| <= n)
  }

  predicate OwnSupported(e: Expr) {
    !e.Unspecified? && !e.Struct? && (e.MapExpr? ==> AllPlain(e.entries))
  }

  lemma {:induction false} Snoc(es: seq<Expr>, e: Expr)
    ensures CountAll(es + [e]) == Plus(CountAll(es), Count(e)) && Tallest(es + [e]) == Max(Tallest(es), Height(e))
  {
    hide Count; hide Height;
    assert (es + [e])[..|es|] == es;
  }

  lemma {:induction false} CountAppend(a: seq<Expr>, b: seq<Expr>)
    ensures CountAll(a + b) == Plus(CountAll(a), CountAll(b))
    ensures Tallest(a + b) == Max(Tallest(a), Tallest(b))
    decreases |b|
  {
    hide CountAll; hide Tallest;
    if b == [] {
      assert a + b == a;
      CountNone();
    } else {
      var init, last := b[..|b| - 1], b[|b| - 1];
      CountAppend(a, init);
      assert b == init + [last];
      assert a + b == (a + init) + [last];
      Snoc(init, last);
      Snoc(a + init, last);
    }
  }

  lemma {:induction false} CountNone()
    ensures CountAll([]) == NONE && Tallest([]) == 0
  {
  }

  lemma {:induction false} CountFew(a: Expr, b: Expr)
    ensures CountAll([a]) == Count(a) && Tallest([a]) == Height(a)
    ensures CountAll([a, b]) == Plus(Count(a), Count(b)) && Tallest([a, b]) == Max(Height(a), Height(b))
  {
    hide Count; hide Height;
    assert [a][..0] == [] && [a, b][..1] == [a];
  }

  lemma {:induction false} EntriesAreChildren(entries: seq<Entry>)
    ensures CountEntries(entries) == CountAll(EntryExprs(entries))
    ensures TallestEntry(entries) == Tallest(EntryExprs(entries))
    decreases |entries|
  {
    hide Count; hide Height; hide CountAll; hide Tallest;
    if entries == [] {
      assert CountAll([]) == NONE && Tallest([]) == 0 by { CountNone(); }
    } else {
      var init, last := entries[..|entries| - 1], entries[|entries| - 1];
      EntriesAreChildren(init);
      if last.MapEntry? {
        CountAppend(EntryExprs(init), [last.key, last.value]);
        CountFew(last.key, last.value);
      } else {
        assert EntryExprs(init) + [] == EntryExprs(init);
      }
    }
  }

  lemma {:induction false} FiveChildren(a: Expr, b: Expr, c: Expr, d: Expr, e: Expr)
    ensures CountAll([a, b, c, d, e]) == Plus(Plus(Plus(Plus(Count(a), Count(b)), Count(c)), Count(d)), Count(e))
    ensures Tallest([a, b, c, d, e]) == Max(Height(a), Max(Height(b), Max(Height(c), Max(Height(d), Height(e)))))
  {
    hide Count; hide Height; hide CountAll; hide Tallest;
    CountFew(a, b);
    Snoc([a, b], c);
    Snoc([a, b] + [c], d);
    Snoc([a, b] + [c] + [d], e);
    assert [a, b, c, d, e] == [a, b] + [c] + [d] + [e];
  }

  /** The children's part of `Count` and `Height`. */
  lemma {:induction false} Unfold(e: Expr)
    ensures
      Count(e) == Plus(Own(e), match e
        case ListExpr(es) => CountAll(es)
        case MapExpr(entries) => CountEntries(entries)
        case SelectExpr(operand, _, _) => Count(operand)
        case CallExpr(_, target, args) => Plus(if target.Some? then Count(target.value) else NONE, CountAll(args))
        case ComprehensionExpr(range, _, _, _, init, cond, step, result) =>
          Plus(Plus(Plus(Plus(Count(range), Count(init)), Count(cond)), Count(step)), Count(result))
        case _ => NONE)
    ensures
      Height(e) == 1 + match e
        case ListExpr(es) => Tallest(es)
        case MapExpr(entries) => TallestEntry(entries)
        case SelectExpr(operand, _, _) => Height(operand)
        case CallExpr(_, target, args) => Max(if target.Some? then Height(target.value) else 0, Tallest(args))
        case ComprehensionExpr(range, _, _, _, init, cond, step, result) =>
          Max(Height(range), Max(Height(init), Max(Height(cond), Max(Height(step), Height(result)))))
        case _ => 0
  {
    hide Plus; hide Own; hide Max; hide CountAll; hide Tallest; hide CountEntries; hide TallestEntry;
  }

  /** The counts and the height come from the children. */
  lemma {:induction false} ChildrenMakeUp(e: Expr)
    ensures Count(e) == Plus(Own(e), CountAll(Children(e)))
    ensures Height(e) == 1 + Tallest(Children(e))
  {
    hide Count; hide Height; hide CountAll; hide Tallest; hide CountEntries; hide TallestEntry; hide Own;
    Unfold(e);
    match e {
      case MapExpr(entries) => EntriesAreChildren(entries);
      case SelectExpr(operand, _, _) => CountFew(operand, operand);
      case CallExpr(_, target, args) =>
        if target.Some? {
          CountFew(target.value, target.value);
          CountAppend([target.value], args);
        } else {
          assert Children(e) == args;
        }
      case ComprehensionExpr(range, _, _, _, init, cond, step, result) => FiveChildren(range, init, cond, step, result);
      case _ => CountNone();
    }
  }

  lemma {:induction false} CountOfMember(es: seq<Expr>, c: Expr)
    requires c in es
    ensures Count(c).nodes <= CountAll(es).nodes && Height(c) <= Tallest(es)
    decreases |es|
  {
    hide Count; hide Height;
    if c != es[|es| - 1] {
      CountOfMember(es[..|es| - 1], c);
    }
  }

  lemma {:induction false} ChildIsSmaller(e: Expr)
    ensures forall c :: c in Children(e) ==> Count(c).nodes < Count(e).nodes && Height(c) < Height(e)
  {
    hide Count; hide Height; hide CountAll; hide Tallest;
    ChildrenMakeUp(e);
    forall c | c in Children(e) ensures Count(c).nodes < Count(e).nodes && Height(c) < Height(e) {
      CountOfMember(Children(e), c);
    }
  }

  /** No unsupported form occurs anywhere in the tree. */
  ghost predicate Supported(e: Expr)
    decreases Count(e).nodes
  {
    ChildIsSmaller(e);
    OwnSupported(e) && forall c :: c in Children(e) ==> Supported(c)
  }

  /** Every literal collection in the tree has at most `n` items. */
  ghost predicate ItemsWithin(e: Expr, n: nat)
    decreases Count(e).nodes
  {
    ChildIsSmaller(e);
    OwnItemsWithin(e, n) && forall c :: c in Children(e) ==> ItemsWithin(c, n)
  }

  predicate CountsWithin(c: Counts, l: Limits) {
    c.nodes <= l.nodes && c.identifiers <= l.identifiers && c.literals <= l.literals && c.comprehensions <= l.comprehensions
  }

  /** The tree keeps every limit. */
  ghost predicate Within(e: Expr, l: Limits) {
    CountsWithin(Count(e), l) && Height(e) <= l.depth && ItemsWithin(e, l.collectionItems)
  }

  // ---------------------------------------------------------------------------
  // The worklist
  // ---------------------------------------------------------------------------

  type Stack = seq<(Expr, nat)>

  function Exprs(stack: Stack): seq<Expr> {
    seq(|stack|, i requires 0 <= i < |stack| => stack[i].0)
  }

  /** Everything still on the stack fits; `depth` counts from one at the root. */
  ghost predicate StackSupported(stack: Stack) {
    forall i :: 0 <= i < |stack| ==> Supported(stack[i].0)
  }

  ghost predicate StackItems(stack: Stack, n: nat) {
    forall i :: 0 <= i < |stack| ==> ItemsWithin(stack[i].0, n)
  }

  ghost predicate StackHeights(stack: Stack, depth: nat) {
    forall i :: 0 <= i < |stack| ==> stack[i].1 + Height(stack[i].0) <= depth + 1
  }

  function AtDepth(es: seq<Expr>, depth: nat): Stack {
    seq(|es|, i requires 0 <= i < |es| => (es[i], depth))
  }

  lemma {:induction false} TallestBound(es: seq<Expr>, n: nat)
    ensures Tallest(es) <= n <==> forall i :: 0 <= i < |es| ==> Height(es[i]) <= n
    decreases |es|
  {
    hide Height;
    if es != [] {
      TallestBound(es[..|es| - 1], n);
      assert forall i :: 0 <= i < |es| - 1 ==> es[..|es| - 1][i] == es[i];
    }
  }

  /** Replacing an expression on top of the stack by its children keeps what the stack promises. */
  lemma {:induction false} Expand(rest: Stack, e: Expr, depth: nat, l: Limits)
    requires OwnSupported(e) && OwnItemsWithin(e, l.collectionItems) && depth <= l.depth
    ensures
      var before, after := rest + [(e, depth)], rest + AtDepth(Children(e), depth + 1);
      && Plus(CountAll(Exprs(rest)), Count(e)) == CountAll(Exprs(before))
      && Plus(CountAll(Exprs(after)), Own(e)) == CountAll(Exprs(before))
      && (StackSupported(before) <==> StackSupported(after))
      && (StackItems(before, l.collectionItems) <==> StackItems(after, l.collectionItems))
      && (StackHeights(before, l.depth) <==> StackHeights(after, l.depth))
  {
    hide Height; hide Tallest; hide Count; hide CountAll; hide Own; hide OwnSupported; hide OwnItemsWithin;
    var kids := AtDepth(Children(e), depth + 1);
    ChildrenMakeUp(e);
    assert Exprs(rest + [(e, depth)]) == Exprs(rest) + [e];
    Snoc(Exprs(rest), e);
    assert Exprs(rest + kids) == Exprs(rest) + Children(e);
    CountAppend(Exprs(rest), Children(e));
    StackSplits(rest, [(e, depth)], l);
    StackSplits(rest, kids, l);
    KidsFit(e, depth, l);
  }

  lemma {:induction false} KidsFit(e: Expr, depth: nat, l: Limits)
    requires OwnSupported(e) && OwnItemsWithin(e, l.collectionItems) && depth <= l.depth
    ensures
      var kids := AtDepth(Children(e), depth + 1);
      && (StackSupported([(e, depth)]) <==> StackSupported(kids))
      && (StackItems([(e, depth)], l.collectionItems) <==> StackItems(kids, l.collectionItems))
      && (StackHeights([(e, depth)], l.depth) <==> StackHeights(kids, l.depth))
  {
    hide Height; hide Tallest; hide Count; hide CountAll; hide Own; hide OwnSupported; hide OwnItemsWithin;
    var kids := AtDepth(Children(e), depth + 1);
    ChildrenMakeUp(e);
    TallestBound(Children(e), l.depth - depth);
    assert [(e, depth)][0].0 == e && [(e, depth)][0].1 == depth;
    assert forall i :: 0 <= i < |kids| ==> kids[i].0 == Children(e)[i] && kids[i].1 == depth + 1;
    assert forall c :: c in Children(e) ==> exists i :: 0 <= i < |kids| && kids[i].0 == c;
  }

  lemma {:induction false} StackSplits(a: Stack, b: Stack, l: Limits)
    ensures StackSupported(a + b) <==> StackSupported(a) && StackSupported(b)
    ensures StackItems(a + b, l.collectionItems) <==> StackItems(a, l.collectionItems) && StackItems(b, l.collectionItems)
    ensures StackHeights(a + b, l.depth) <==> StackHeights(a, l.depth) && StackHeights(b, l.depth)
  {
    hide Height; hide Supported; hide ItemsWithin;
    assert forall i :: 0 <= i < |b| ==> (a + b)[|a| + i] == b[i];
    assert forall i :: 0 <= i < |a| ==> (a + b)[i] == a[i];
    assert forall i :: |a| <= i < |a| + |b| ==> (a + b)[i] == b[i - |a|];
  }

  /** One more than `current`, unless that passes `maximum`. */
  function CheckedCount(current: nat, maximum: nat): (r: Compiled<nat>)
    ensures r.Ready? <==> current < maximum
  {
    if current + 1 > maximum then Rejected(LimitExceeded) else Ready(current + 1)
  }

  /** The statistics after visiting `e`, whose node has been counted already. */
  function Visited(stats: Counts, e: Expr): Counts {
    Plus(stats, Own(e)).(nodes := stats.nodes)
  }

  ghost predicate Pushed(
    e: Expr, depth: nat, stack: Stack, stats: Counts, l: Limits, r: Compiled<(Stack, Counts)>)
  {
    match r
    case Ready((after, counts)) =>
      && OwnSupported(e) && OwnItemsWithin(e, l.collectionItems)
      && after == stack + AtDepth(Children(e), depth)
      && counts == Visited(stats, e) && CountsWithin(counts, l)
    case Rejected(error) =>
      || (error == Unsupported && !OwnSupported(e))
      || (error == LimitExceeded && (!OwnItemsWithin(e, l.collectionItems) || !CountsWithin(Visited(stats, e), l)))
  }

  method PushChildren(e: Expr, depth: nat, stack: Stack, stats: Counts, l: Limits)
    returns (r: Compiled<(Stack, Counts)>)
    requires CountsWithin(stats, l)
    ensures Pushed(e, depth, stack, stats, l, r)
  {
    hide AtDepth;
    match e {
      case Unspecified => return Rejected(Unsupported);
      case Struct => return Rejected(Unsupported);
      case Ident(_) =>
        var n := CheckedCount(stats.identifiers, l.identifiers);
        if n.Rejected? {
          return Rejected(n.error);
        }
        NoChildren(stack, depth);
        return Ready((stack, stats.(identifiers := n.value)));
      case LiteralExpr(_) =>
        var n := CheckedCount(stats.literals, l.literals);
        if n.Rejected? {
          return Rejected(n.error);
        }
        NoChildren(stack, depth);
        return Ready((stack, stats.(literals := n.value)));
      case ListExpr(es) =>
        if |es| > l.collectionItems {
          return Rejected(LimitExceeded);
        }
        return Ready((stack + AtDepth(es, depth), stats));
      case MapExpr(entries) =>
        if |entries| > l.collectionItems {
          return Rejected(LimitExceeded);
        }
        var ok, after := PushEntries(entries, depth, stack);
        if !ok {
          return Rejected(Unsupported);
        }
        return Ready((after, stats));
      case SelectExpr(operand, _, _) =>
        OneChild(operand, depth);
        return Ready((stack + [(operand, depth)], stats));
      case CallExpr(_, target, args) =>
        var after := if target.Some? then stack + [(target.value, depth)] else stack;
        CallChildren(stack, target, args, depth);
        return Ready((after + AtDepth(args, depth), stats));
      case ComprehensionExpr(range, _, _, _, init, cond, step, result) =>
        var n := CheckedCount(stats.comprehensions, l.comprehensions);
        if n.Rejected? {
          return Rejected(n.error);
        }
        return Ready((stack + AtDepth([range, init, cond, step, result], depth), stats.(comprehensions := n.value)));
    }
  }

  lemma {:induction false} NoChildren(stack: Stack, depth: nat)
    ensures stack + AtDepth([], depth) == stack
  {
  }

  lemma {:induction false} OneChild(e: Expr, depth: nat)
    ensures AtDepth([e], depth) == [(e, depth)]
  {
  }

  lemma {:induction false} CallChildren(stack: Stack, target: Option<Expr>, args: seq<Expr>, depth: nat)
    ensures stack + AtDepth((if target.Some? then [target.value] else []) + args, depth) ==
            (if target.Some? then stack + [(target.value, depth)] else stack) + AtDepth(args, depth)
  {
  }

  method PushEntries(entries: seq<Entry>, depth: nat, stack: Stack) returns (ok: bool, after: Stack)
    ensures ok <==> AllPlain(entries)
    ensures ok ==> after == stack + AtDepth(EntryExprs(entries), depth)
  {
    after := stack;
    assert stack == stack + AtDepth(EntryExprs(entries[..0]), depth);
    for i := 0 to |entries|
      invariant AllPlain(entries[..i]) && after == stack + AtDepth(EntryExprs(entries[..i]), depth)
    {
      var entry := entries[i];
      if entry.OtherEntry? || entry.optional {
        assert !Plain(entries[i]);
        return false, after;
      }
      assert entries[..i + 1][..i] == entries[..i];
      assert AtDepth(EntryExprs(entries[..i + 1]), depth) ==
             AtDepth(EntryExprs(entries[..i]), depth) + [(entry.key, depth), (entry.value, depth)];
      after := after + [(entry.key, depth)] + [(entry.value, depth)];
    }
    assert entries[..|entries|] == entries;
    return true, after;
  }

  /** What the loop knows: counts so far plus counts still stacked make the whole, and the tree is
      acceptable exactly when everything still stacked is. */
  ghost predicate Progress(root: Expr, stack: Stack, stats: Counts, l: Limits) {
    && Plus(stats, CountAll(Exprs(stack))) == Count(root)
    && CountsWithin(stats, l)
    && (Supported(root) <==> StackSupported(stack))
    && (ItemsWithin(root, l.collectionItems) <==> StackItems(stack, l.collectionItems))
    && (Height(root) <= l.depth <==> StackHeights(stack, l.depth))
  }

  lemma {:induction false} Starts(root: Expr, l: Limits)
    ensures Progress(root, [(root, 1)], NONE, l)
  {
    hide Count; hide Height; hide CountAll; hide Supported; hide ItemsWithin;
    assert Exprs([(root, 1)]) == [root];
    CountFew(root, root);
    assert [(root, 1)][0] == (root, 1);
  }

  /** What a rejected or accepted expression on top of the stack says about the whole tree. */
  lemma {:induction false} Tops(root: Expr, rest: Stack, e: Expr, depth: nat, stats: Counts, l: Limits)
    requires Progress(root, rest + [(e, depth)], stats, l)
    ensures stats.nodes >= l.nodes || depth > l.depth ==> !Within(root, l)
    ensures !OwnSupported(e) ==> !Supported(root)
    ensures !OwnItemsWithin(e, l.collectionItems) || !CountsWithin(Plus(stats, Own(e)), l) ==> !Within(root, l)
  {
    hide Count; hide Height; hide CountAll; hide Tallest;
    var stack := rest + [(e, depth)];
    assert stack[|rest|] == (e, depth);
    assert Exprs(stack) == Exprs(rest) + [e];
    Snoc(Exprs(rest), e);
    ChildrenMakeUp(e);
  }

  lemma {:induction false} Continues(root: Expr, rest: Stack, e: Expr, depth: nat, stats: Counts, l: Limits)
    requires Progress(root, rest + [(e, depth)], stats, l)
    requires OwnSupported(e) && OwnItemsWithin(e, l.collectionItems) && depth <= l.depth
    requires CountsWithin(Plus(stats, Own(e)), l)
    ensures Progress(root, rest + AtDepth(Children(e), depth + 1), Plus(stats, Own(e)), l)
    ensures CountAll(Exprs(rest + AtDepth(Children(e), depth + 1))).nodes < CountAll(Exprs(rest + [(e, depth)])).nodes
  {
    hide Count; hide Height; hide CountAll; hide Tallest; hide Supported; hide ItemsWithin;
    hide StackSupported; hide StackItems; hide StackHeights; hide Exprs; hide AtDepth;
    Expand(rest, e, depth, l);
  }

  /** The worklist accepts exactly the supported trees within the limits, and blames the right cause. */
  method ValidateShape(root: Expr, l: Limits) returns (r: Compiled<()>)
    ensures r.Ready? <==> Supported(root) && Within(root, l)
    ensures r == Rejected(Unsupported) ==> !Supported(root)
    ensures r == Rejected(LimitExceeded) ==> !Within(root, l)
    ensures r.Rejected? ==> r.error == Unsupported || r.error == LimitExceeded
  {
    hide Count; hide Height; hide CountAll; hide Supported; hide ItemsWithin; hide Own; hide Children;
    var stack: Stack := [(root, 1)];
    var stats := NONE;
    Starts(root, l);
    while stack != []
      invariant Progress(root, stack, stats, l)
      decreases CountAll(Exprs(stack)).nodes
    {
      var rest := stack[..|stack| - 1];
      var (e, depth) := stack[|stack| - 1];
      assert stack == rest + [(e, depth)];
      Tops(root, rest, e, depth, stats, l);
      var n := CheckedCount(stats.nodes, l.nodes);
      if n.Rejected? {
        return Rejected(n.error);
      }
      if depth > l.depth {
        return Rejected(LimitExceeded);
      }
      var counted := stats.(nodes := n.value);
      var pushed := PushChildren(e, depth + 1, rest, counted, l);
      OwnNodes(stats, e);
      if pushed.Rejected? {
        return Rejected(pushed.error);
      }
      Continues(root, rest, e, depth, stats, l);
      stack, stats := pushed.value.0, pushed.value.1;
    }
    assert Exprs([]) == [];
    CountNone();
    return Ready(());
  }

  lemma {:induction false} OwnNodes(stats: Counts, e: Expr)
    ensures Visited(stats.(nodes := stats.nodes + 1), e) == Plus(stats, Own(e))
  {
  }
}
