/**
  The contract template engine on tokens: variables, conditionals and loops over lists. The parser
  keeps a stack of open blocks; its result is the tree the renderer walks.
*/
module Template {
  import opened Wrappers

  const MAX_DEPTH := 6

  datatype Operator = Eq | Ne | Ge | Le | Gt | Lt

  /** A literal keeps its quotes, when it has them. */
  datatype Comparison = Comparison(op: Operator, literal: string)

  datatype Condition = Condition(negate: bool, name: string, test: Option<Comparison>)

  /** A block tag whose argument does not parse carries None. */
  datatype Token =
    | TextTok(text: string)
    | VarTok(name: string, raw: string)
    | SiTok(cond: Option<Condition>)
    | CadaTok(loop: Option<Loop>)
    | SinoTok
    | EndSiTok
    | EndCadaTok
    | UnknownTok

  datatype Loop = Loop(list: string, alias: string)

  /** Whether there is an else branch is kept; without one, whenFalse is empty. */
  datatype Node =
    | Text(text: string)
    | Var(name: string, raw: string)
    | If(cond: Condition, whenTrue: seq<Node>, hasElse: bool, whenFalse: seq<Node>)
    | Each(loop: Loop, body: seq<Node>)

  datatype SyntaxError =
    | UnknownBlock | BadCondition | BadLoop | UnclosedBlock | UnexpectedClose | MisplacedElse | DuplicateElse
    | UnknownList | TooDeep

  // ─── Parser ───────────────────────────────────────────

  datatype FrameKind = Root | Si(cond: Condition) | Cada(loop: Loop)

  /** An open block: the nodes of its current branch and, inside an else, those of the first one. */
  datatype Frame = Frame(kind: FrameKind, nodes: seq<Node>, whenTrue: Option<seq<Node>>)

  type Stack = s: seq<Frame> | s != [] witness [Frame(Root, [], None)]

  function Top(stack: Stack): Frame { stack[|stack| - 1] }

  function SetTop(stack: Stack, f: Frame): Stack { stack[|stack| - 1 := f] }

  function Push(stack: Stack, node: Node): Stack {
    SetTop(stack, Top(stack).(nodes := Top(stack).nodes + [node]))
  }

  function KnownList(lists: Option<set<string>>, name: string): bool {
    lists.None? || name in lists.value
  }

  function Open(stack: Stack, kind: FrameKind): Stack { stack + [Frame(kind, [], None)] }

  function Closed(f: Frame): Node
    requires !f.kind.Root?
  {
    match f.kind
    case Si(cond) =>
      if f.whenTrue.Some? then If(cond, f.whenTrue.value, true, f.nodes) else If(cond, f.nodes, false, [])
    case Cada(loop) => Each(loop, f.nodes)
  }

  function Close(stack: Stack): Stack
    requires |stack| > 1 && !Top(stack).kind.Root?
  {
    Push(stack[..|stack| - 1], Closed(Top(stack)))
  }

  /** What one token does to the stack of open blocks. */
  function Step(stack: Stack, token: Token, lists: Option<set<string>>): Result<Stack, SyntaxError> {
    match token
    case TextTok(text) => Ok(if text == "" then stack else Push(stack, Text(text)))
    case VarTok(name, raw) => Ok(Push(stack, Var(name, raw)))
    case SiTok(cond) =>
      if |stack| > MAX_DEPTH then Err(TooDeep)
      else if cond.None? then Err(BadCondition)
      else Ok(Open(stack, Si(cond.value)))
    case CadaTok(loop) =>
      if |stack| > MAX_DEPTH then Err(TooDeep)
      else if loop.None? then Err(BadLoop)
      else if !KnownList(lists, loop.value.list) then Err(UnknownList)
      else Ok(Open(stack, Cada(loop.value)))
    case SinoTok =>
      var f := Top(stack);
      if !f.kind.Si? then Err(MisplacedElse)
      else if f.whenTrue.Some? then Err(DuplicateElse)
      else Ok(SetTop(stack, Frame(f.kind, [], Some(f.nodes))))
    case EndSiTok =>
      if |stack| == 1 || !Top(stack).kind.Si? then Err(UnexpectedClose) else Ok(Close(stack))
    case EndCadaTok =>
      if |stack| == 1 || !Top(stack).kind.Cada? then Err(UnexpectedClose) else Ok(Close(stack))
    case UnknownTok => Err(UnknownBlock)
  }

  function ParseFrom(stack: Stack, tokens: seq<Token>, lists: Option<set<string>>): Result<seq<Node>, SyntaxError>
    decreases |tokens|
  {
    if tokens == [] then
      if |stack| > 1 then Err(UnclosedBlock) else Ok(stack[0].nodes)
    else
      match Step(stack, tokens[0], lists)
      case Err(e) => Err(e)
      case Ok(next) => ParseFrom(next, tokens[1..], lists)
  }

  function ParseOf(tokens: seq<Token>, lists: Option<set<string>>): Result<seq<Node>, SyntaxError> {
    ParseFrom([Frame(Root, [], None)], tokens, lists)
  }

  /** One pass over the tokens, with the stack of open blocks as the only state. */
  method Parse(tokens: seq<Token>, lists: Option<set<string>>) returns (r: Result<seq<Node>, SyntaxError>)
    ensures r == ParseOf(tokens, lists)
  {
    var stack: seq<Frame> := [Frame(Root, [], None)];
    for i := 0 to |tokens|
      invariant stack != []
      invariant ParseFrom(stack, tokens[i..], lists) == ParseOf(tokens, lists)
    {
      assert tokens[i..][0] == tokens[i] && tokens[i..][1..] == tokens[i + 1..];
      match tokens[i] {
        case TextTok(text) =>
          if text != "" {
            stack := Push(stack, Text(text));
          }
        case VarTok(name, raw) =>
          stack := Push(stack, Var(name, raw));
        case SiTok(cond) =>
          if |stack| > MAX_DEPTH { return Err(TooDeep); }
          if cond.None? { return Err(BadCondition); }
          stack := Open(stack, Si(cond.value));
        case CadaTok(loop) =>
          if |stack| > MAX_DEPTH { return Err(TooDeep); }
          if loop.None? { return Err(BadLoop); }
          if !KnownList(lists, loop.value.list) { return Err(UnknownList); }
          stack := Open(stack, Cada(loop.value));
        case SinoTok =>
          var f := Top(stack);
          if !f.kind.Si? { return Err(MisplacedElse); }
          if f.whenTrue.Some? { return Err(DuplicateElse); }
          stack := SetTop(stack, Frame(f.kind, [], Some(f.nodes)));
        case EndSiTok =>
          if |stack| == 1 || !Top(stack).kind.Si? { return Err(UnexpectedClose); }
          stack := Close(stack);
        case EndCadaTok =>
          if |stack| == 1 || !Top(stack).kind.Cada? { return Err(UnexpectedClose); }
          stack := Close(stack);
        case UnknownTok =>
          return Err(UnknownBlock);
      }
    }
    assert tokens[|tokens|..] == [];
    if |stack| > 1 {
      return Err(UnclosedBlock);
    }
    r := Ok(stack[0].nodes);
  }

  // ─── Values and conditions ────────────────────────────

  type Item = map<string, string>

  datatype Scope = Scope(values: map<string, string>, lists: map<string, seq<Item>>, items: map<string, Item>)

  /** Where the first dot of a name is; its length when it has none. */
  function FirstDot(name: string): (k: nat)
    ensures k <= |name|
  {
    if name == "" || name[0] == '.' then 0 else 1 + FirstDot(name[1..])
  }

  /** The first dotted segment of a name. */
  function Head(name: string): string { name[..FirstDot(name)] }

  /** The field of the loop element the name starts with, if it has it; else the value of the whole name. */
  function Lookup(scope: Scope, name: string): Option<string> {
    var dot := FirstDot(name);
    if 0 < dot < |name| && name[..dot] in scope.items && name[dot + 1..] in scope.items[name[..dot]]
    then Some(scope.items[name[..dot]][name[dot + 1..]])
    else if name in scope.values then Some(scope.values[name]) else None
  }

  predicate IsSpace(c: char) { c == ' ' || c == '\t' || c == '\n' || c == '\r' }

  function TrimLeft(s: string): string {
    if s != "" && IsSpace(s[0]) then TrimLeft(s[1..]) else s
  }

  function TrimRight(s: string): string {
    if s != "" && IsSpace(s[|s| - 1]) then TrimRight(s[..|s| - 1]) else s
  }

  function Trim(s: string): string { TrimRight(TrimLeft(s)) }

  function Lower(s: string): string {
    seq(|s|, i requires 0 <= i < |s| => if 'A' <= s[i] <= 'Z' then s[i] - 'A' + 'a' else s[i])
  }

  predicate Digits(s: string) { s != "" && forall i :: 0 <= i < |s| ==> '0' <= s[i] <= '9' }

  /** Where the decimal separator is, comma or point; the length when there is none. */
  function Separator(s: string): (k: nat)
    ensures k <= |s|
  {
    if s == "" || s[0] == '.' || s[0] == ',' then 0 else 1 + Separator(s[1..])
  }

  function Unsigned(s: string): string { if s != "" && s[0] == '-' then s[1..] else s }

  predicate IsNumber(s: string) {
    var u := Unsigned(s);
    var k := Separator(u);
    Digits(u[..k]) && (k < |u| ==> Digits(u[k + 1..]))
  }

  predicate IsZero(s: string) {
    IsNumber(s) && forall i :: 0 <= i < |s| ==> !('1' <= s[i] <= '9')
  }

  /** A value counts as true unless it is missing, blank, "false" or a zero. */
  predicate Truthy(value: Option<string>) {
    value.Some? && (var v := Trim(value.value); v != "" && Lower(v) != "false" && !IsZero(v))
  }

  function DigitsValue(s: string): nat
    requires forall i :: 0 <= i < |s| ==> '0' <= s[i] <= '9'
  {
    if s == "" then 0 else 10 * DigitsValue(s[..|s| - 1]) + (s[|s| - 1] - '0') as nat
  }

  function Power10(n: nat): (p: nat)
    ensures p > 0
  {
    if n == 0 then 1 else 10 * Power10(n - 1)
  }

  function NumberOf(s: string): real
    requires IsNumber(s)
  {
    var u := Unsigned(s);
    var k := Separator(u);
    var fraction := if k < |u| then u[k + 1..] else "";
    var magnitude := DigitsValue(u[..k]) as real + DigitsValue(fraction) as real / Power10(|fraction|) as real;
    if s[0] == '-' then -magnitude else magnitude
  }

  predicate Holds(op: Operator, a: real, b: real) {
    match op
    case Eq => a == b
    case Ne => a != b
    case Ge => a >= b
    case Le => a <= b
    case Gt => a > b
    case Lt => a < b
  }

  /** Numbers compare as numbers against an unquoted literal; anything else only for equality, as text. */
  predicate Compare(value: Option<string>, c: Comparison) {
    var left := Trim(if value.Some? then value.value else "");
    var quoted := c.literal != "" && c.literal[0] == '"';
    var right := if quoted && |c.literal| >= 2 then c.literal[1..|c.literal| - 1] else c.literal;
    if !quoted && IsNumber(left) && IsNumber(right) then Holds(c.op, NumberOf(left), NumberOf(right))
    else if c.op == Eq then left == right
    else if c.op == Ne then left != right
    else false
  }

  predicate Evaluate(cond: Condition, scope: Scope) {
    var value := Lookup(scope, cond.name);
    var result := if cond.test.Some? then Compare(value, cond.test.value) else Truthy(value);
    if cond.negate then !result else result
  }

  // ─── Renderer ─────────────────────────────────────────

  const MAX_OUTPUT := 2_000_000

  datatype RenderError = ListNotFound | TooLarge

  /** A rendered piece and what is left of the output budget. */
  datatype Rendered = Rendered(result: Result<string, RenderError>, left: int)

  function DigitsOf(n: nat): string {
    if n < 10 then [n as char + '0'] else DigitsOf(n / 10) + [(n % 10) as char + '0']
  }

  /** The element of a list with its position fields, which win over its own. */
  function WithPosition(entry: Item, i: nat, total: nat): Item {
    entry["n" := DigitsOf(i + 1)]["total" := DigitsOf(total)]
         ["primero" := if i == 0 then "1" else "0"]["ultimo" := if i + 1 == total then "1" else "0"]
  }

  function ElementScope(scope: Scope, loop: Loop, list: seq<Item>, i: nat): Scope
    requires i < |list|
  {
    scope.(items := scope.items[loop.alias := WithPosition(list[i], i, |list|)])
  }

  function RenderNode(node: Node, scope: Scope, left: int): Rendered
    decreases node, 0
  {
    match node
    case Text(text) => Rendered(Ok(text), left)
    case Var(name, raw) =>
      var value := Lookup(scope, name);
      Rendered(Ok(if value.Some? then value.value else raw), left)
    case If(cond, whenTrue, _, whenFalse) =>
      if Evaluate(cond, scope) then RenderSeq(whenTrue, scope, left) else RenderSeq(whenFalse, scope, left)
    case Each(loop, body) =>
      if loop.list !in scope.lists then Rendered(Err(ListNotFound), left)
      else RenderEach(node, scope, scope.lists[loop.list], 0, left)
  }

  /** The elements of a list from the i-th on. */
  function RenderEach(node: Node, scope: Scope, list: seq<Item>, i: nat, left: int): Rendered
    requires node.Each? && i <= |list|
    decreases node.body, |node.body|, |list| - i + 1
  {
    if i == |list| then Rendered(Ok(""), left)
    else
      var first := RenderSeq(node.body, ElementScope(scope, node.loop, list, i), left);
      if first.result.Err? then first
      else Prefixed(first.result.value, RenderEach(node, scope, list, i + 1, first.left))
  }

  function Prefixed(out: string, rest: Rendered): Rendered {
    if rest.result.Err? then rest else rest.(result := Ok(out + rest.result.value))
  }

  /** Every piece is charged to the budget when it is complete, whatever was charged to produce it. */
  function RenderSeq(nodes: seq<Node>, scope: Scope, left: int): Rendered
    decreases nodes, |nodes|, 0
  {
    if nodes == [] then Rendered(Ok(""), left)
    else
      var first := RenderNode(nodes[0], scope, left);
      if first.result.Err? then first
      else
        var after := first.left - |first.result.value|;
        if after < 0 then Rendered(Err(TooLarge), after)
        else Prefixed(first.result.value, RenderSeq(nodes[1..], scope, after))
  }

  function RenderOf(nodes: seq<Node>, values: map<string, string>, lists: map<string, seq<Item>>)
    : Result<string, RenderError>
  {
    RenderSeq(nodes, Scope(values, lists, map[]), MAX_OUTPUT).result
  }

  // ─── The renderer's loops ─────────────────────────────

  /** The output budget, shared by the whole rendering. */
  class Budget {
    var left: int

    constructor (n: int)
      ensures left == n
    {
      left := n;
    }
  }

  lemma PrefixedTwice(a: string, b: string, rest: Rendered)
    ensures Prefixed(a, Prefixed(b, rest)) == Prefixed(a + b, rest)
  {
    if rest.result.Ok? {
      assert a + (b + rest.result.value) == a + b + rest.result.value;
    }
  }

  lemma PrefixedNothing(rest: Rendered)
    ensures Prefixed("", rest) == rest
  {
    if rest.result.Ok? {
      assert "" + rest.result.value == rest.result.value;
    }
  }

  method RenderPiece(node: Node, scope: Scope, budget: Budget) returns (r: Result<string, RenderError>)
    modifies budget
    ensures Rendered(r, budget.left) == RenderNode(node, scope, old(budget.left))
    decreases node, 0
  {
    match node {
      case Text(text) =>
        r := Ok(text);
      case Var(name, raw) =>
        var value := Lookup(scope, name);
        r := Ok(if value.Some? then value.value else raw);
      case If(cond, whenTrue, _, whenFalse) =>
        if Evaluate(cond, scope) {
          r := Render(whenTrue, scope, budget);
        } else {
          r := Render(whenFalse, scope, budget);
        }
      case Each(loop, body) =>
        if loop.list !in scope.lists {
          return Err(ListNotFound);
        }
        r := RenderElements(node, scope, scope.lists[loop.list], budget);
    }
  }

  method RenderElements(node: Node, scope: Scope, list: seq<Item>, budget: Budget)
    returns (r: Result<string, RenderError>)
    requires node.Each?
    modifies budget
    ensures Rendered(r, budget.left) == RenderEach(node, scope, list, 0, old(budget.left))
    decreases node.body, |node.body|, 1
  {
    hide Prefixed;
    ghost var goal := RenderEach(node, scope, list, 0, budget.left);
    var joined := "";
    PrefixedNothing(goal);
    for i := 0 to |list|
      invariant goal == Prefixed(joined, RenderEach(node, scope, list, i, budget.left))
    {
      ghost var rest := RenderEach(node, scope, list, i, budget.left);
      var part := Render(node.body, ElementScope(scope, node.loop, list, i), budget);
      if part.Err? {
        ErrorIsKept(joined, rest);
        return part;
      }
      PrefixedTwice(joined, part.value, RenderEach(node, scope, list, i + 1, budget.left));
      joined := joined + part.value;
    }
    EndOfOutput(joined, budget.left);
    r := Ok(joined);
  }

  lemma ErrorIsKept(out: string, rest: Rendered)
    requires rest.result.Err?
    ensures Prefixed(out, rest) == rest
  {
  }

  lemma EndOfOutput(out: string, left: int)
    ensures Prefixed(out, Rendered(Ok(""), left)) == Rendered(Ok(out), left)
  {
    assert out + "" == out;
  }

  /** Renders the nodes one after another, charging each piece to the budget as it is added. */
  method Render(nodes: seq<Node>, scope: Scope, budget: Budget) returns (r: Result<string, RenderError>)
    modifies budget
    ensures Rendered(r, budget.left) == RenderSeq(nodes, scope, old(budget.left))
    decreases nodes, |nodes|, 0
  {
    hide Prefixed, RenderNode;
    ghost var goal := RenderSeq(nodes, scope, budget.left);
    var out := "";
    PrefixedNothing(goal);
    assert nodes[0..] == nodes;
    for i := 0 to |nodes|
      invariant goal == Prefixed(out, RenderSeq(nodes[i..], scope, budget.left))
    {
      assert nodes[i..][0] == nodes[i] && nodes[i..][1..] == nodes[i + 1..];
      ghost var rest := RenderSeq(nodes[i..], scope, budget.left);
      var piece := RenderPiece(nodes[i], scope, budget);
      if piece.Err? {
        ErrorIsKept(out, rest);
        return piece;
      }
      budget.left := budget.left - |piece.value|;
      if budget.left < 0 {
        ErrorIsKept(out, rest);
        return Err(TooLarge);
      }
      PrefixedTwice(out, piece.value, RenderSeq(nodes[i + 1..], scope, budget.left));
      out := out + piece.value;
    }
    EndOfOutput(out, budget.left);
    r := Ok(out);
  }

  method RenderTemplate(nodes: seq<Node>, values: map<string, string>, lists: map<string, seq<Item>>)
    returns (r: Result<string, RenderError>)
    ensures r == RenderOf(nodes, values, lists)
  {
    var budget := new Budget(MAX_OUTPUT);
    r := Render(nodes, Scope(values, lists, map[]), budget);
  }

  // ─── Variables ────────────────────────────────────────

  /** The names a template reads, but for those whose first segment is an alias in scope. */
  function Variables(nodes: seq<Node>, aliases: set<string>): set<string>
    decreases nodes, 1
  {
    if nodes == [] then {}
    else NodeVariables(nodes[0], aliases) + Variables(nodes[1..], aliases)
  }

  function Named(name: string, aliases: set<string>): set<string> {
    if Head(name) in aliases then {} else {name}
  }

  function NodeVariables(node: Node, aliases: set<string>): set<string>
    decreases node, 0
  {
    match node
    case Text(_) => {}
    case Var(name, _) => Named(name, aliases)
    case If(cond, whenTrue, _, whenFalse) =>
      Named(cond.name, aliases) + Variables(whenTrue, aliases) + Variables(whenFalse, aliases)
    case Each(loop, body) => Variables(body, aliases + {loop.alias})
  }

  /** Every alias a loop of the template gives to its element. */
  function Aliases(nodes: seq<Node>): set<string>
    decreases nodes, 1
  {
    if nodes == [] then {} else NodeAliases(nodes[0]) + Aliases(nodes[1..])
  }

  function NodeAliases(node: Node): set<string>
    decreases node, 0
  {
    match node
    case Text(_) => {}
    case Var(_, _) => {}
    case If(_, whenTrue, _, whenFalse) => Aliases(whenTrue) + Aliases(whenFalse)
    case Each(loop, body) => {loop.alias} + Aliases(body)
  }
}
