/**
  The stack parser and the printer of template trees are inverses: the parser accepts exactly the
  token sequences that some well-nested tree of at most six levels prints, and gives that tree back.
*/
module TemplateSyntaxLaws {
  import opened Rounding
  import opened Template
  import opened Wrappers

  // ─── Printing ─────────────────────────────────────────

  function Print(nodes: seq<Node>): seq<Token>
    decreases nodes, 1
  {
    if nodes == [] then [] else PrintNode(nodes[0]) + Print(nodes[1..])
  }

  function PrintNode(node: Node): seq<Token>
    decreases node, 0
  {
    match node
    case Text(text) => [TextTok(text)]
    case Var(name, raw) => [VarTok(name, raw)]
    case If(cond, whenTrue, hasElse, whenFalse) =>
      [SiTok(Some(cond))] + Print(whenTrue) + (if hasElse then [SinoTok] + Print(whenFalse) else []) + [EndSiTok]
    case Each(loop, body) => [CadaTok(Some(loop))] + Print(body) + [EndCadaTok]
  }

  /** How deep blocks are nested. */
  function Depth(nodes: seq<Node>): nat
    decreases nodes, 1
  {
    if nodes == [] then 0 else Max(NodeDepth(nodes[0]), Depth(nodes[1..]))
  }

  function NodeDepth(node: Node): nat
    decreases node, 0
  {
    match node
    case Text(_) => 0
    case Var(_, _) => 0
    case If(_, whenTrue, _, whenFalse) => 1 + Max(Depth(whenTrue), Depth(whenFalse))
    case Each(_, body) => 1 + Depth(body)
  }

  /** A tree some template denotes: no empty texts, no nodes in an absent branch, known lists. */
  predicate WellFormed(nodes: seq<Node>, lists: Option<set<string>>)
    decreases nodes, 1
  {
    nodes != [] ==> WellFormedNode(nodes[0], lists) && WellFormed(nodes[1..], lists)
  }

  predicate WellFormedNode(node: Node, lists: Option<set<string>>)
    decreases node, 0
  {
    match node
    case Text(text) => text != ""
    case Var(_, _) => true
    case If(_, whenTrue, hasElse, whenFalse) =>
      WellFormed(whenTrue, lists) && WellFormed(whenFalse, lists) && (!hasElse ==> whenFalse == [])
    case Each(loop, body) => KnownList(lists, loop.list) && WellFormed(body, lists)
  }

  // ─── Parsing what was printed ─────────────────────────

  function PushAll(stack: Stack, nodes: seq<Node>): Stack {
    SetTop(stack, Top(stack).(nodes := Top(stack).nodes + nodes))
  }

  lemma PushAllOne(stack: Stack, node: Node, rest: seq<Node>)
    ensures PushAll(Push(stack, node), rest) == PushAll(stack, [node] + rest)
  {
    assert Top(stack).nodes + [node] + rest == Top(stack).nodes + ([node] + rest);
  }

  lemma ParseToken(stack: Stack, token: Token, rest: seq<Token>, lists: Option<set<string>>)
    requires Step(stack, token, lists).Ok?
    ensures ParseFrom(stack, [token] + rest, lists) == ParseFrom(Step(stack, token, lists).value, rest, lists)
  {
    assert ([token] + rest)[1..] == rest;
  }

  /** Printed nodes are read back onto the block that is open, whatever comes after them. */
  lemma {:induction false} ParsePrinted(stack: Stack, nodes: seq<Node>, rest: seq<Token>, lists: Option<set<string>>)
    requires WellFormed(nodes, lists) && |stack| + Depth(nodes) <= MAX_DEPTH + 1
    ensures ParseFrom(stack, Print(nodes) + rest, lists) == ParseFrom(PushAll(stack, nodes), rest, lists)
    decreases nodes, 1
  {
    hide ParseFrom, Step;
    if nodes == [] {
      assert Print(nodes) + rest == rest;
      assert Top(stack).nodes + [] == Top(stack).nodes;
      assert PushAll(stack, nodes) == stack;
    } else {
      var tail := Print(nodes[1..]) + rest;
      assert Print(nodes) + rest == PrintNode(nodes[0]) + tail;
      ParsePrintedNode(stack, nodes[0], tail, lists);
      ParsePrinted(Push(stack, nodes[0]), nodes[1..], rest, lists);
      PushAllOne(stack, nodes[0], nodes[1..]);
      assert [nodes[0]] + nodes[1..] == nodes;
    }
  }

  lemma {:induction false} ParsePrintedNode(stack: Stack, node: Node, rest: seq<Token>, lists: Option<set<string>>)
    requires WellFormedNode(node, lists) && |stack| + NodeDepth(node) <= MAX_DEPTH + 1
    ensures ParseFrom(stack, PrintNode(node) + rest, lists) == ParseFrom(Push(stack, node), rest, lists)
    decreases node, 1
  {
    hide ParseFrom;
    match node
    case Text(text) => ParseToken(stack, TextTok(text), rest, lists);
    case Var(name, raw) => ParseToken(stack, VarTok(name, raw), rest, lists);
    case If(_, _, _, _) => ParsePrintedIf(stack, node, rest, lists);
    case Each(loop, body) =>
      var inner := Print(body) + ([EndCadaTok] + rest);
      assert PrintNode(node) + rest == [CadaTok(Some(loop))] + inner;
      ParseToken(stack, CadaTok(Some(loop)), inner, lists);
      var open := Open(stack, Cada(loop));
      ParsePrinted(open, body, [EndCadaTok] + rest, lists);
      CloseAfter(stack, open, body, node);
      ParseToken(PushAll(open, body), EndCadaTok, rest, lists);
  }

  lemma {:induction false} ParsePrintedIf(stack: Stack, node: Node, rest: seq<Token>, lists: Option<set<string>>)
    requires node.If? && WellFormedNode(node, lists) && |stack| + NodeDepth(node) <= MAX_DEPTH + 1
    ensures ParseFrom(stack, PrintNode(node) + rest, lists) == ParseFrom(Push(stack, node), rest, lists)
    decreases node, 0, 1
  {
    hide ParseFrom;
    var open := Open(stack, Si(node.cond));
    var afterTrue := (if node.hasElse then [SinoTok] + Print(node.whenFalse) else []) + [EndSiTok] + rest;
    var inner := Print(node.whenTrue) + afterTrue;
    assert PrintNode(node) + rest == [SiTok(Some(node.cond))] + inner;
    ParseToken(stack, SiTok(Some(node.cond)), inner, lists);
    ParsePrinted(open, node.whenTrue, afterTrue, lists);
    var entered := PushAll(open, node.whenTrue);
    assert [] + node.whenTrue == node.whenTrue;
    if node.hasElse {
      assert afterTrue == [SinoTok] + (Print(node.whenFalse) + ([EndSiTok] + rest));
      ParsePrintedElse(stack, entered, node, rest, lists);
    } else {
      assert afterTrue == [EndSiTok] + rest;
      CloseAfter(stack, open, node.whenTrue, node);
      ParseToken(entered, EndSiTok, rest, lists);
    }
  }

  lemma {:induction false} ParsePrintedElse(
    stack: Stack, entered: Stack, node: Node, rest: seq<Token>, lists: Option<set<string>>)
    requires node.If? && node.hasElse && WellFormedNode(node, lists) && |stack| + NodeDepth(node) <= MAX_DEPTH + 1
    requires entered == PushAll(Open(stack, Si(node.cond)), node.whenTrue)
    ensures ParseFrom(entered, [SinoTok] + (Print(node.whenFalse) + ([EndSiTok] + rest)), lists)
         == ParseFrom(Push(stack, node), rest, lists)
    decreases node, 0, 0
  {
    hide ParseFrom;
    assert [] + node.whenTrue == node.whenTrue;
    var inElse := SetTop(entered, Frame(Si(node.cond), [], Some(node.whenTrue)));
    var afterElse := Print(node.whenFalse) + ([EndSiTok] + rest);
    ParseToken(entered, SinoTok, afterElse, lists);
    ParsePrinted(inElse, node.whenFalse, [EndSiTok] + rest, lists);
    CloseAfter(stack, inElse, node.whenFalse, node);
    ParseToken(PushAll(inElse, node.whenFalse), EndSiTok, rest, lists);
  }

  lemma CloseAfter(stack: Stack, open: Stack, nodes: seq<Node>, node: Node)
    requires |open| == |stack| + 1 && open[..|stack|] == stack && Top(open).nodes == [] && !Top(open).kind.Root?
    requires Closed(Top(open).(nodes := nodes)) == node
    ensures Close(PushAll(open, nodes)) == Push(stack, node)
  {
    var full := PushAll(open, nodes);
    assert [] + nodes == nodes;
    assert full[..|full| - 1] == stack;
  }

  /** Parsing the tokens of a well-formed tree of at most six levels gives the tree back. */
  lemma RoundTrip(nodes: seq<Node>, lists: Option<set<string>>)
    requires WellFormed(nodes, lists) && Depth(nodes) <= MAX_DEPTH
    ensures ParseOf(Print(nodes), lists) == Ok(nodes)
  {
    var start: Stack := [Frame(Root, [], None)];
    ParsePrinted(start, nodes, [], lists);
    assert Print(nodes) + [] == Print(nodes);
    assert [] + nodes == nodes;
  }

  // ─── Printing what was parsed ─────────────────────────

  /** The tokens without the empty texts between them, which say nothing. */
  function NoEmptyText(tokens: seq<Token>): seq<Token> {
    if tokens == [] then []
    else (if tokens[0] == TextTok("") then [] else [tokens[0]]) + NoEmptyText(tokens[1..])
  }

  lemma {:induction false} PrintAppend(nodes: seq<Node>, node: Node)
    ensures Print(nodes + [node]) == Print(nodes) + PrintNode(node)
  {
    hide PrintNode;
    if nodes == [] {
      assert [] + [node] == [node] && [node][1..] == [];
      assert Print([node]) == PrintNode(node) + [];
    } else {
      PrintAppend(nodes[1..], node);
      assert (nodes + [node])[1..] == nodes[1..] + [node];
      assert Print(nodes) == PrintNode(nodes[0]) + Print(nodes[1..]);
      assert PrintNode(nodes[0]) + (Print(nodes[1..]) + PrintNode(node)) == Print(nodes) + PrintNode(node);
    }
  }

  lemma {:induction false} DepthAppend(nodes: seq<Node>, node: Node)
    ensures Depth(nodes + [node]) == Max(Depth(nodes), NodeDepth(node))
  {
    if nodes == [] {
      assert [] + [node] == [node] && [node][1..] == [];
    } else {
      DepthAppend(nodes[1..], node);
      assert (nodes + [node])[1..] == nodes[1..] + [node];
    }
  }

  lemma {:induction false} WellFormedAppend(nodes: seq<Node>, node: Node, lists: Option<set<string>>)
    requires WellFormed(nodes, lists) && WellFormedNode(node, lists)
    ensures WellFormed(nodes + [node], lists)
  {
    if nodes == [] {
      assert [] + [node] == [node] && [node][1..] == [];
    } else {
      WellFormedAppend(nodes[1..], node, lists);
      assert (nodes + [node])[1..] == nodes[1..] + [node];
    }
  }

  function FrameTokens(f: Frame): seq<Token> {
    match f.kind
    case Root => Print(f.nodes)
    case Si(cond) =>
      [SiTok(Some(cond))] + (if f.whenTrue.Some? then Print(f.whenTrue.value) + [SinoTok] else []) + Print(f.nodes)
    case Cada(loop) => [CadaTok(Some(loop))] + Print(f.nodes)
  }

  /** Everything read so far, as the open blocks remember it. */
  function Consumed(stack: seq<Frame>): seq<Token> {
    if stack == [] then [] else Consumed(stack[..|stack| - 1]) + FrameTokens(stack[|stack| - 1])
  }

  predicate GoodNodes(nodes: seq<Node>, room: int, lists: Option<set<string>>) {
    WellFormed(nodes, lists) && Depth(nodes) <= room
  }

  /** A block with `room` levels left inside it. */
  predicate GoodFrame(f: Frame, room: int, lists: Option<set<string>>) {
    && room >= 0 && GoodNodes(f.nodes, room, lists)
    && (f.whenTrue.Some? ==> f.kind.Si? && GoodNodes(f.whenTrue.value, room, lists))
    && (f.kind.Cada? ==> KnownList(lists, f.kind.loop.list))
  }

  predicate GoodStack(stack: seq<Frame>, lists: Option<set<string>>) {
    && stack != []
    && (forall i :: 0 <= i < |stack| ==> GoodFrame(stack[i], MAX_DEPTH - i, lists))
    && (forall i :: 0 <= i < |stack| ==> (stack[i].kind.Root? <==> i == 0))
  }

  lemma PushKeeps(stack: Stack, node: Node, lists: Option<set<string>>)
    requires GoodStack(stack, lists) && WellFormedNode(node, lists) && NodeDepth(node) <= MAX_DEPTH - (|stack| - 1)
    ensures GoodStack(Push(stack, node), lists)
    ensures Consumed(Push(stack, node)) == Consumed(stack) + PrintNode(node)
  {
    hide WellFormedNode, NodeDepth, PrintNode, GoodFrame, FrameTokens;
    var f, n := Top(stack), |stack| - 1;
    assert GoodFrame(f, MAX_DEPTH - n, lists);
    PushedFrame(f, node, MAX_DEPTH - n, lists);
    TopChanges(stack, f.(nodes := f.nodes + [node]), PrintNode(node), lists);
  }

  /** Changing the innermost block by what it has read more changes what all of them have read by the same. */
  lemma TopChanges(stack: Stack, g: Frame, more: seq<Token>, lists: Option<set<string>>)
    requires GoodStack(stack, lists) && GoodFrame(g, MAX_DEPTH - (|stack| - 1), lists) && g.kind == Top(stack).kind
    requires FrameTokens(g) == FrameTokens(Top(stack)) + more
    ensures GoodStack(SetTop(stack, g), lists) && Consumed(SetTop(stack, g)) == Consumed(stack) + more
  {
    hide GoodFrame, FrameTokens, Consumed;
    ReadMore(stack, g, more);
  }

  lemma ReadMore(stack: Stack, g: Frame, more: seq<Token>)
    requires FrameTokens(g) == FrameTokens(Top(stack)) + more
    ensures Consumed(SetTop(stack, g)) == Consumed(stack) + more
  {
    hide FrameTokens;
    var n := |stack| - 1;
    assert SetTop(stack, g)[..n] == stack[..n];
    assert Consumed(stack[..n]) + (FrameTokens(stack[n]) + more) == Consumed(stack[..n]) + FrameTokens(stack[n]) + more;
  }

  lemma PushedFrame(f: Frame, node: Node, room: int, lists: Option<set<string>>)
    requires GoodFrame(f, room, lists) && WellFormedNode(node, lists) && NodeDepth(node) <= room
    ensures var g := f.(nodes := f.nodes + [node]);
            GoodFrame(g, room, lists) && FrameTokens(g) == FrameTokens(f) + PrintNode(node)
  {
    hide WellFormed, WellFormedNode, Depth, NodeDepth, Print, PrintNode;
    WellFormedAppend(f.nodes, node, lists);
    DepthAppend(f.nodes, node);
    PrintAppend(f.nodes, node);
  }

  lemma ClosedIsGood(f: Frame, room: int, lists: Option<set<string>>)
    requires GoodFrame(f, room, lists) && !f.kind.Root?
    ensures WellFormedNode(Closed(f), lists) && NodeDepth(Closed(f)) <= room + 1
    ensures PrintNode(Closed(f)) == FrameTokens(f) + [if f.kind.Si? then EndSiTok else EndCadaTok]
  {
  }

  lemma CloseKeeps(stack: Stack, lists: Option<set<string>>)
    requires GoodStack(stack, lists) && |stack| > 1
    ensures GoodStack(Close(stack), lists)
    ensures Consumed(Close(stack)) == Consumed(stack) + [if Top(stack).kind.Si? then EndSiTok else EndCadaTok]
  {
    hide WellFormed, WellFormedNode, Depth, NodeDepth, PrintNode, GoodFrame, GoodStack, Push, Closed, FrameTokens;
    var n := |stack| - 1;
    InnerFrames(stack, lists);
    ClosedIsGood(Top(stack), MAX_DEPTH - n, lists);
    PushKeeps(stack[..n], Closed(Top(stack)), lists);
  }

  lemma InnerFrames(stack: Stack, lists: Option<set<string>>)
    requires GoodStack(stack, lists) && |stack| > 1
    ensures GoodStack(stack[..|stack| - 1], lists)
    ensures GoodFrame(Top(stack), MAX_DEPTH - (|stack| - 1), lists) && !Top(stack).kind.Root?
  {
    hide GoodFrame;
  }

  lemma OpenKeeps(stack: Stack, kind: FrameKind, lists: Option<set<string>>)
    requires GoodStack(stack, lists) && |stack| <= MAX_DEPTH && !kind.Root?
    requires kind.Cada? ==> KnownList(lists, kind.loop.list)
    ensures GoodStack(Open(stack, kind), lists)
    ensures Consumed(Open(stack, kind))
         == Consumed(stack) + [if kind.Si? then SiTok(Some(kind.cond)) else CadaTok(Some(kind.loop))]
  {
    hide GoodFrame, FrameTokens;
    NewFrame(kind, MAX_DEPTH - |stack|, lists);
    assert Open(stack, kind)[..|stack|] == stack;
  }

  lemma NewFrame(kind: FrameKind, room: int, lists: Option<set<string>>)
    requires room >= 0 && !kind.Root? && (kind.Cada? ==> KnownList(lists, kind.loop.list))
    ensures GoodFrame(Frame(kind, [], None), room, lists)
    ensures FrameTokens(Frame(kind, [], None))
         == [if kind.Si? then SiTok(Some(kind.cond)) else CadaTok(Some(kind.loop))]
  {
  }

  /** Every token the parser takes is remembered: what has been read is always what the open blocks print. */
  lemma StepKeeps(stack: Stack, token: Token, lists: Option<set<string>>)
    requires GoodStack(stack, lists) && Step(stack, token, lists).Ok?
    ensures GoodStack(Step(stack, token, lists).value, lists)
    ensures Consumed(Step(stack, token, lists).value)
         == Consumed(stack) + (if token == TextTok("") then [] else [token])
  {
    hide GoodStack, Consumed;
    match token
    case TextTok(text) =>
      if text != "" { TextFits(stack, Text(text), lists); PushKeeps(stack, Text(text), lists); }
    case VarTok(name, raw) =>
      TextFits(stack, Var(name, raw), lists);
      PushKeeps(stack, Var(name, raw), lists);
    case SiTok(cond) => OpenKeeps(stack, Si(cond.value), lists);
    case CadaTok(loop) => OpenKeeps(stack, Cada(loop.value), lists);
    case SinoTok => ElseKeeps(stack, lists);
    case EndSiTok => CloseKeeps(stack, lists);
    case EndCadaTok => CloseKeeps(stack, lists);
  }

  lemma TextFits(stack: Stack, node: Node, lists: Option<set<string>>)
    requires GoodStack(stack, lists) && (node.Text? || node.Var?)
    ensures NodeDepth(node) <= MAX_DEPTH - (|stack| - 1)
  {
    assert GoodFrame(stack[|stack| - 1], MAX_DEPTH - (|stack| - 1), lists);
  }

  lemma ElseKeeps(stack: Stack, lists: Option<set<string>>)
    requires GoodStack(stack, lists) && Top(stack).kind.Si? && Top(stack).whenTrue.None?
    ensures var inElse := SetTop(stack, Frame(Top(stack).kind, [], Some(Top(stack).nodes)));
            GoodStack(inElse, lists) && Consumed(inElse) == Consumed(stack) + [SinoTok]
  {
    hide GoodFrame, FrameTokens;
    var f, n := Top(stack), |stack| - 1;
    assert GoodFrame(f, MAX_DEPTH - n, lists);
    ElseFrame(f, MAX_DEPTH - n, lists);
    TopChanges(stack, Frame(f.kind, [], Some(f.nodes)), [SinoTok], lists);
  }

  lemma ElseFrame(f: Frame, room: int, lists: Option<set<string>>)
    requires GoodFrame(f, room, lists) && f.kind.Si? && f.whenTrue.None?
    ensures var e := Frame(f.kind, [], Some(f.nodes));
            GoodFrame(e, room, lists) && FrameTokens(e) == FrameTokens(f) + [SinoTok]
  {
  }

  lemma NoEmptyTextOfNothing()
    ensures NoEmptyText([]) == []
  {
  }

  lemma NoEmptyTextStep(before: seq<Token>, tokens: seq<Token>)
    requires tokens != []
    ensures before + (if tokens[0] == TextTok("") then [] else [tokens[0]]) + NoEmptyText(tokens[1..])
         == before + NoEmptyText(tokens)
  {
    var first, rest := if tokens[0] == TextTok("") then [] else [tokens[0]], NoEmptyText(tokens[1..]);
    hide NoEmptyText;
    assert before + first + rest == before + (first + rest);
  }

  lemma {:induction false} ParsedIsPrinted(stack: Stack, tokens: seq<Token>, lists: Option<set<string>>)
    requires GoodStack(stack, lists) && ParseFrom(stack, tokens, lists).Ok?
    ensures var nodes := ParseFrom(stack, tokens, lists).value;
            GoodNodes(nodes, MAX_DEPTH, lists) && Print(nodes) == Consumed(stack) + NoEmptyText(tokens)
    decreases |tokens|
  {
    hide Print, GoodNodes, GoodStack, Consumed, Step, NoEmptyText;
    assert NoEmptyText([]) == [] by { NoEmptyTextOfNothing(); }
    if tokens == [] {
      OnlyTheRoot(stack, lists);
    } else {
      var next := Step(stack, tokens[0], lists).value;
      StepKeeps(stack, tokens[0], lists);
      ParsedIsPrinted(next, tokens[1..], lists);
      NoEmptyTextStep(Consumed(stack), tokens);
    }
  }

  lemma OnlyTheRoot(stack: Stack, lists: Option<set<string>>)
    requires GoodStack(stack, lists) && |stack| == 1
    ensures GoodNodes(stack[0].nodes, MAX_DEPTH, lists)
    ensures Print(stack[0].nodes) == Consumed(stack) == Consumed(stack) + []
  {
    assert GoodFrame(stack[0], MAX_DEPTH, lists);
    assert stack[..0] == [];
    assert Consumed([]) + Print(stack[0].nodes) == Print(stack[0].nodes);
  }

  /** Empty texts change nothing. */
  lemma {:induction false} EmptyTextsDoNotMatter(stack: Stack, tokens: seq<Token>, lists: Option<set<string>>)
    ensures ParseFrom(stack, NoEmptyText(tokens), lists) == ParseFrom(stack, tokens, lists)
    decreases |tokens|
  {
    if tokens != [] {
      var rest := NoEmptyText(tokens[1..]);
      var step := Step(stack, tokens[0], lists);
      if tokens[0] == TextTok("") {
        EmptyTextsDoNotMatter(stack, tokens[1..], lists);
        assert [] + rest == rest;
      } else {
        assert ([tokens[0]] + rest)[1..] == rest;
        if step.Ok? { EmptyTextsDoNotMatter(step.value, tokens[1..], lists); }
      }
    }
  }

  /**
    The parser accepts exactly the token sequences that a well-formed tree of at most six levels
    prints, empty texts aside, and its answer is that tree.
  */
  lemma AcceptsExactlyTheWellNested(tokens: seq<Token>, lists: Option<set<string>>)
    ensures ParseOf(tokens, lists).Ok? <==>
              exists nodes :: GoodNodes(nodes, MAX_DEPTH, lists) && Print(nodes) == NoEmptyText(tokens)
    ensures forall nodes :: GoodNodes(nodes, MAX_DEPTH, lists) && Print(nodes) == NoEmptyText(tokens)
              ==> ParseOf(tokens, lists) == Ok(nodes)
  {
    hide ParseFrom;
    var start: Stack := [Frame(Root, [], None)];
    assert GoodFrame(start[0], MAX_DEPTH, lists);
    assert start[..0] == [] && Consumed(start) == [];
    EmptyTextsDoNotMatter(start, tokens, lists);
    if ParseOf(tokens, lists).Ok? {
      ParsedIsPrinted(start, tokens, lists);
      assert Print(ParseOf(tokens, lists).value) == NoEmptyText(tokens);
    }
    forall nodes | GoodNodes(nodes, MAX_DEPTH, lists) && Print(nodes) == NoEmptyText(tokens)
      ensures ParseOf(tokens, lists) == Ok(nodes)
    {
      RoundTrip(nodes, lists);
    }
  }

  // ─── Depth ────────────────────────────────────────────

  /** Blocks opened and not yet closed. */
  function OpenBlocks(tokens: seq<Token>): int {
    if tokens == [] then 0
    else
      var t := tokens[|tokens| - 1];
      OpenBlocks(tokens[..|tokens| - 1])
        + (if t.SiTok? || t.CadaTok? then 1 else if t.EndSiTok? || t.EndCadaTok? then -1 else 0)
  }

  lemma OneMoreToken(stack: Stack, read: seq<Token>, token: Token, lists: Option<set<string>>)
    requires |stack| == 1 + OpenBlocks(read) <= MAX_DEPTH + 1 && Step(stack, token, lists).Ok?
    ensures |Step(stack, token, lists).value| == 1 + OpenBlocks(read + [token]) <= MAX_DEPTH + 1
  {
    assert (read + [token])[..|read|] == read;
  }

  /** Nothing accepted ever has more than six blocks open, nor closes one that is not open. */
  lemma {:induction false} NeverDeeperThanSix(stack: Stack, read: seq<Token>, tokens: seq<Token>,
      lists: Option<set<string>>, k: nat)
    requires |stack| == 1 + OpenBlocks(read) <= MAX_DEPTH + 1
    requires ParseFrom(stack, tokens, lists).Ok? && k <= |tokens|
    ensures 0 <= OpenBlocks(read + tokens[..k]) <= MAX_DEPTH
    decreases k
  {
    hide OpenBlocks, Step;
    if k == 0 {
      assert read + tokens[..0] == read;
    } else {
      var next := Step(stack, tokens[0], lists).value;
      OneMoreToken(stack, read, tokens[0], lists);
      assert tokens[..k] == [tokens[0]] + tokens[1..][..k - 1];
      assert read + tokens[..k] == read + [tokens[0]] + tokens[1..][..k - 1];
      NeverDeeperThanSix(next, read + [tokens[0]], tokens[1..], lists, k - 1);
    }
  }
}
