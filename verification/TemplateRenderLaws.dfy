/**
  What rendering depends on, and what the output budget allows: a template reads nothing but the
  variables it declares, and the size limit is only ever reached by outputs close to it.
*/
module TemplateRenderLaws {
  import opened Rounding
  import opened Template
  import opened TemplateSyntaxLaws
  import opened Wrappers

  // ─── Variables decide ─────────────────────────────────

  function Get(values: map<string, string>, name: string): Option<string> {
    if name in values then Some(values[name]) else None
  }

  ghost predicate AgreeOn(v: map<string, string>, w: map<string, string>, names: set<string>) {
    forall name :: name in names ==> Get(v, name) == Get(w, name)
  }

  /** No value is named after one of these aliases. */
  ghost predicate NoKeyUnder(v: map<string, string>, aliases: set<string>) {
    forall name :: name in v ==> Head(name) !in aliases
  }

  /** Two scopes that differ only in their values, and agree where the nodes can see them. */
  ghost predicate SameFor(s: Scope, t: Scope, names: set<string>, aliases: set<string>) {
    s.lists == t.lists && s.items == t.items
    && AgreeOn(s.values, t.values, names) && NoKeyUnder(s.values, aliases) && NoKeyUnder(t.values, aliases)
  }

  lemma SameLookup(s: Scope, t: Scope, name: string, aliases: set<string>, all: set<string>)
    requires SameFor(s, t, Named(name, aliases), all) && aliases <= all
    ensures Lookup(s, name) == Lookup(t, name)
  {
    if Head(name) !in aliases {
      assert Get(s.values, name) == Get(t.values, name);
    }
  }

  lemma SameElementScope(s: Scope, t: Scope, names: set<string>, all: set<string>, loop: Loop, list: seq<Item>, i: nat)
    requires SameFor(s, t, names, all) && i < |list|
    ensures SameFor(ElementScope(s, loop, list, i), ElementScope(t, loop, list, i), names, all)
  {
  }

  lemma {:induction false} SameNode(node: Node, s: Scope, t: Scope, left: int, aliases: set<string>, all: set<string>)
    requires SameFor(s, t, NodeVariables(node, aliases), all)
    requires aliases <= all && NodeAliases(node) <= all
    ensures RenderNode(node, s, left) == RenderNode(node, t, left)
    decreases node, 0
  {
    match node
    case Text(_) =>
    case Var(name, _) => SameLookup(s, t, name, aliases, all);
    case If(cond, whenTrue, _, whenFalse) =>
      SameLookup(s, t, cond.name, aliases, all);
      SameSeq(whenTrue, s, t, left, aliases, all);
      SameSeq(whenFalse, s, t, left, aliases, all);
    case Each(loop, body) =>
      if loop.list in s.lists { SameEach(node, s, t, s.lists[loop.list], 0, left, aliases, all); }
  }

  lemma {:induction false} SameEach(
    node: Node, s: Scope, t: Scope, list: seq<Item>, i: nat, left: int, aliases: set<string>, all: set<string>)
    requires node.Each? && i <= |list|
    requires SameFor(s, t, NodeVariables(node, aliases), all)
    requires aliases <= all && NodeAliases(node) <= all
    ensures RenderEach(node, s, list, i, left) == RenderEach(node, t, list, i, left)
    decreases node.body, |node.body|, |list| - i + 1
  {
    if i < |list| {
      var si, ti := ElementScope(s, node.loop, list, i), ElementScope(t, node.loop, list, i);
      SameElementScope(s, t, NodeVariables(node, aliases), all, node.loop, list, i);
      SameSeq(node.body, si, ti, left, aliases + {node.loop.alias}, all);
      SameEach(node, s, t, list, i + 1, RenderSeq(node.body, si, left).left, aliases, all);
    }
  }

  lemma {:induction false} SameSeq(nodes: seq<Node>, s: Scope, t: Scope, left: int, aliases: set<string>,
      all: set<string>)
    requires SameFor(s, t, Variables(nodes, aliases), all)
    requires aliases <= all && Aliases(nodes) <= all
    ensures RenderSeq(nodes, s, left) == RenderSeq(nodes, t, left)
    decreases nodes, |nodes|, 0
  {
    if nodes != [] {
      SameNode(nodes[0], s, t, left, aliases, all);
      var first := RenderNode(nodes[0], s, left);
      if first.result.Ok? {
        SameSeq(nodes[1..], s, t, first.left - |first.result.value|, aliases, all);
      }
    }
  }

  /**
    Rendering depends only on the extracted variables: two sets of values that agree on them, and
    have no key under an alias of the template, render the same, or fail the same.
  */
  lemma VariablesDecide(nodes: seq<Node>, v: map<string, string>, w: map<string, string>, lists: map<string, seq<Item>>)
    requires AgreeOn(v, w, Variables(nodes, {}))
    requires NoKeyUnder(v, Aliases(nodes)) && NoKeyUnder(w, Aliases(nodes))
    ensures RenderOf(nodes, v, lists) == RenderOf(nodes, w, lists)
  {
    SameSeq(nodes, Scope(v, lists, map[]), Scope(w, lists, map[]), MAX_OUTPUT, {}, Aliases(nodes));
  }

  /** A value named like an alias is read inside the loop, though it is not extracted. */
  lemma AliasNamedKeysAreNotExtracted()
    ensures var nodes := [Each(Loop("l", "item"), [Var("item", "")])];
            && Variables(nodes, {}) == {}
            && RenderOf(nodes, map["item" := "a"], map["l" := [map[]]])
               != RenderOf(nodes, map["item" := "b"], map["l" := [map[]]])
  {
    var body := [Var("item", "")];
    var nodes := [Each(Loop("l", "item"), body)];
    FourLettersNoDot();
    assert body[1..] == [] && nodes[1..] == [];
    assert Variables(body, {"item"}) == {};
    RendersItem("a");
    RendersItem("b");
  }

  lemma FourLettersNoDot()
    ensures FirstDot("item") == 4 && Head("item") == "item"
  {
    assert "item"[1..] == "tem" && "tem"[1..] == "em" && "em"[1..] == "m" && "m"[1..] == "";
    assert FirstDot("m") == 1 && FirstDot("em") == 2 && FirstDot("tem") == 3;
  }

  lemma RendersItem(x: string)
    requires |x| == 1
    ensures RenderOf([Each(Loop("l", "item"), [Var("item", "")])], map["item" := x], map["l" := [map[]]]) == Ok(x)
  {
    var body, list: seq<Item> := [Var("item", "")], [map[]];
    var node := Each(Loop("l", "item"), body);
    var scope := Scope(map["item" := x], map["l" := list], map[]);
    var inner := ElementScope(scope, node.loop, list, 0);
    FourLettersNoDot();
    assert body[1..] == [] && [node][1..] == [];
    assert Lookup(inner, "item") == Some(x);
    assert RenderNode(body[0], inner, MAX_OUTPUT) == Rendered(Ok(x), MAX_OUTPUT);
    assert RenderSeq([], inner, MAX_OUTPUT - 1) == Rendered(Ok(""), MAX_OUTPUT - 1);
    EndOfOutput(x, MAX_OUTPUT - 1);
    assert RenderSeq(body, inner, MAX_OUTPUT) == Rendered(Ok(x), MAX_OUTPUT - 1);
    assert RenderEach(node, scope, list, 1, MAX_OUTPUT - 1) == Rendered(Ok(""), MAX_OUTPUT - 1);
    assert RenderEach(node, scope, list, 0, MAX_OUTPUT) == Rendered(Ok(x), MAX_OUTPUT - 1);
  }

  // ─── Rendering without a budget ───────────────────────

  /** What a template would render with no limit, and what the limit would be charged for it. */
  datatype Free = Free(result: Result<string, RenderError>, cost: nat)

  function FreeNode(node: Node, scope: Scope): Free
    decreases node, 0
  {
    match node
    case Text(text) => Free(Ok(text), 0)
    case Var(name, raw) =>
      var value := Lookup(scope, name);
      Free(Ok(if value.Some? then value.value else raw), 0)
    case If(cond, whenTrue, _, whenFalse) =>
      if Evaluate(cond, scope) then FreeSeq(whenTrue, scope) else FreeSeq(whenFalse, scope)
    case Each(loop, body) =>
      if loop.list !in scope.lists then Free(Err(ListNotFound), 0)
      else FreeEach(node, scope, scope.lists[loop.list], 0)
  }

  function Joined(first: Free, own: nat, rest: Free): Free {
    if first.result.Err? then first
    else if rest.result.Err? then Free(rest.result, first.cost + own + rest.cost)
    else Free(Ok(first.result.value + rest.result.value), first.cost + own + rest.cost)
  }

  function FreeEach(node: Node, scope: Scope, list: seq<Item>, i: nat): Free
    requires node.Each? && i <= |list|
    decreases node.body, |node.body|, |list| - i + 1
  {
    if i == |list| then Free(Ok(""), 0)
    else Joined(FreeSeq(node.body, ElementScope(scope, node.loop, list, i)), 0, FreeEach(node, scope, list, i + 1))
  }

  function FreeSeq(nodes: seq<Node>, scope: Scope): Free
    decreases nodes, |nodes|, 0
  {
    if nodes == [] then Free(Ok(""), 0)
    else
      var first := FreeNode(nodes[0], scope);
      Joined(first, if first.result.Ok? then |first.result.value| else 0, FreeSeq(nodes[1..], scope))
  }

  /** The budgeted rendering is the free one when the charge fits, and fails when it does not. */
  predicate Budgeted(free: Free, left: int, r: Rendered) {
    if free.result.Err? then r.result.Err?
    else if free.cost <= left then r == Rendered(free.result, left - free.cost)
    else r.result == Err(TooLarge)
  }

  lemma {:induction false} BudgetedNode(node: Node, scope: Scope, left: nat)
    ensures Budgeted(FreeNode(node, scope), left, RenderNode(node, scope, left))
    decreases node, 0
  {
    match node
    case Text(_) =>
    case Var(_, _) =>
    case If(cond, whenTrue, _, whenFalse) =>
      BudgetedSeq(whenTrue, scope, left);
      BudgetedSeq(whenFalse, scope, left);
    case Each(loop, body) =>
      if loop.list in scope.lists { BudgetedEach(node, scope, scope.lists[loop.list], 0, left); }
  }

  lemma {:induction false} BudgetedEach(node: Node, scope: Scope, list: seq<Item>, i: nat, left: nat)
    requires node.Each? && i <= |list|
    ensures Budgeted(FreeEach(node, scope, list, i), left, RenderEach(node, scope, list, i, left))
    decreases node.body, |node.body|, |list| - i + 1
  {
    if i < |list| {
      var inner := ElementScope(scope, node.loop, list, i);
      BudgetedSeq(node.body, inner, left);
      var first := RenderSeq(node.body, inner, left);
      if first.result.Ok? && first.left >= 0 { BudgetedEach(node, scope, list, i + 1, first.left); }
    }
  }

  lemma {:induction false} BudgetedSeq(nodes: seq<Node>, scope: Scope, left: nat)
    ensures Budgeted(FreeSeq(nodes, scope), left, RenderSeq(nodes, scope, left))
    decreases nodes, |nodes|, 0
  {
    if nodes != [] {
      BudgetedNode(nodes[0], scope, left);
      var first := RenderNode(nodes[0], scope, left);
      if first.result.Ok? && first.left - |first.result.value| >= 0 {
        BudgetedSeq(nodes[1..], scope, first.left - |first.result.value|);
      }
    }
  }

  // ─── What the budget is charged ───────────────────────

  lemma CostJoined(first: Free, own: nat, rest: Free, k: nat)
    requires Joined(first, own, rest).result.Ok?
    requires first.cost + own <= k * |first.result.value| && rest.cost <= k * |rest.result.value|
    ensures Joined(first, own, rest).cost <= k * |Joined(first, own, rest).result.value|
  {
  }

  lemma {:induction false} CostOfNode(node: Node, scope: Scope)
    requires FreeNode(node, scope).result.Ok?
    ensures FreeNode(node, scope).cost <= NodeDepth(node) * |FreeNode(node, scope).result.value|
    decreases node, 0
  {
    match node
    case Text(_) =>
    case Var(_, _) =>
    case If(cond, whenTrue, _, whenFalse) =>
      var b := if Evaluate(cond, scope) then whenTrue else whenFalse;
      CostOfSeq(b, scope);
      MulLe(Depth(b) + 1, NodeDepth(node), |FreeSeq(b, scope).result.value|);
    case Each(loop, body) => CostOfEach(node, scope, scope.lists[loop.list], 0);
  }

  lemma {:induction false} CostOfEach(node: Node, scope: Scope, list: seq<Item>, i: nat)
    requires node.Each? && i <= |list| && FreeEach(node, scope, list, i).result.Ok?
    ensures FreeEach(node, scope, list, i).cost <= NodeDepth(node) * |FreeEach(node, scope, list, i).result.value|
    decreases node.body, |node.body|, |list| - i + 1
  {
    if i < |list| {
      var inner := ElementScope(scope, node.loop, list, i);
      CostOfSeq(node.body, inner);
      CostOfEach(node, scope, list, i + 1);
      CostJoined(FreeSeq(node.body, inner), 0, FreeEach(node, scope, list, i + 1), NodeDepth(node));
    }
  }

  /** Every character is charged once for each block around it, and once at the top. */
  lemma {:induction false} CostOfSeq(nodes: seq<Node>, scope: Scope)
    requires FreeSeq(nodes, scope).result.Ok?
    ensures FreeSeq(nodes, scope).cost <= (Depth(nodes) + 1) * |FreeSeq(nodes, scope).result.value|
    ensures FreeSeq(nodes, scope).cost >= |FreeSeq(nodes, scope).result.value|
    decreases nodes, |nodes|, 0
  {
    hide FreeNode, NodeDepth;
    if nodes != [] {
      CostOfNode(nodes[0], scope);
      CostOfSeq(nodes[1..], scope);
      CostOfPiece(FreeNode(nodes[0], scope), FreeSeq(nodes[1..], scope), NodeDepth(nodes[0]), Depth(nodes[1..]));
    }
  }

  lemma CostOfPiece(first: Free, rest: Free, inner: nat, others: nat)
    requires first.result.Ok? && rest.result.Ok?
    requires first.cost <= inner * |first.result.value|
    requires |rest.result.value| <= rest.cost <= (others + 1) * |rest.result.value|
    ensures var all := Joined(first, |first.result.value|, rest);
            |all.result.value| <= all.cost <= (Max(inner, others) + 1) * |all.result.value|
  {
    var n, k := |first.result.value|, Max(inner, others) + 1;
    MulLe(inner + 1, k, n);
    MulLe(others + 1, k, |rest.result.value|);
    assert (inner + 1) * n == inner * n + n;
    CostJoined(first, n, rest, k);
  }

  const SAFE_OUTPUT := 285_714

  /**
    A rendering never exceeds the limit; and every output of a template the parser accepts, up to
    285 714 characters, is produced without the size error.
  */
  lemma SizeLimit(nodes: seq<Node>, values: map<string, string>, lists: map<string, seq<Item>>)
    ensures RenderOf(nodes, values, lists).Ok? ==> |RenderOf(nodes, values, lists).value| <= MAX_OUTPUT
    ensures var free := FreeSeq(nodes, Scope(values, lists, map[]));
            Depth(nodes) <= MAX_DEPTH && free.result.Ok? && |free.result.value| <= SAFE_OUTPUT ==>
              RenderOf(nodes, values, lists) == free.result
  {
    hide RenderSeq, FreeSeq, Depth;
    var scope := Scope(values, lists, map[]);
    var free := FreeSeq(nodes, scope);
    BudgetedSeq(nodes, scope, MAX_OUTPUT);
    if free.result.Ok? {
      CostOfSeq(nodes, scope);
      if Depth(nodes) <= MAX_DEPTH && |free.result.value| <= SAFE_OUTPUT {
        MulLe(Depth(nodes) + 1, 7, |free.result.value|);
      }
    }
  }

  /** A text inside n conditionals on a missing variable, negated so that they all hold. */
  function Wrapped(text: string, n: nat): seq<Node> {
    if n == 0 then [Text(text)] else [If(Condition(true, "x", None), Wrapped(text, n - 1), false, [])]
  }

  lemma {:induction false} WrappedCost(text: string, n: nat, scope: Scope)
    requires scope.items == map[] && "x" !in scope.values
    ensures FreeSeq(Wrapped(text, n), scope) == Free(Ok(text), (n + 1) * |text|)
    ensures Depth(Wrapped(text, n)) == n
  {
    var nodes := Wrapped(text, n);
    assert nodes[1..] == [] && text + "" == text;
    if n == 0 {
      assert FreeNode(nodes[0], scope) == Free(Ok(text), 0);
    } else {
      WrappedCost(text, n - 1, scope);
      assert Evaluate(nodes[0].cond, scope);
      assert FreeNode(nodes[0], scope) == Free(Ok(text), n * |text|);
      assert (n + 1) * |text| == n * |text| + |text|;
    }
  }

  /** 285 714 is the most that is always safe: six levels down, one character more is refused. */
  lemma SafeOutputIsTight(text: string)
    ensures Depth(Wrapped(text, MAX_DEPTH)) <= MAX_DEPTH
    ensures RenderOf(Wrapped(text, MAX_DEPTH), map[], map[]) == Ok(text) <==> |text| <= SAFE_OUTPUT
  {
    hide RenderSeq, FreeSeq, Depth, Wrapped;
    var scope := Scope(map[], map[], map[]);
    WrappedCost(text, MAX_DEPTH, scope);
    BudgetedSeq(Wrapped(text, MAX_DEPTH), scope, MAX_OUTPUT);
  }
}
