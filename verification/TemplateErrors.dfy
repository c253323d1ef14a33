/**
  Which error refuses a template, from the tags alone: what blocks are open when each tag is read.
*/
module TemplateErrors {
  import opened Template
  import opened Wrappers

  datatype OpenBlock = OpenIf(hasElse: bool) | OpenLoop

  /** What a tag that is taken does to the blocks open. */
  function AfterTag(open: seq<OpenBlock>, t: Token): seq<OpenBlock> {
    if t.SiTok? then open + [OpenIf(false)]
    else if t.CadaTok? then open + [OpenLoop]
    else if open == [] then []
    else if t.SinoTok? then open[|open| - 1 := OpenIf(true)]
    else if t.EndSiTok? || t.EndCadaTok? then open[..|open| - 1]
    else open
  }

  /** The blocks that some tags leave open, the innermost last. */
  function Blocks(tokens: seq<Token>): seq<OpenBlock> {
    if tokens == [] then [] else AfterTag(Blocks(tokens[..|tokens| - 1]), tokens[|tokens| - 1])
  }

  /** Why a tag is refused where these blocks are open. */
  function Refusal(open: seq<OpenBlock>, t: Token, lists: Option<set<string>>): Option<SyntaxError> {
    var innermost := if open == [] then None else Some(open[|open| - 1]);
    if (t.SiTok? || t.CadaTok?) && |open| >= 6 then Some(TooDeep)
    else match t
      case SiTok(None) => Some(BadCondition)
      case CadaTok(None) => Some(BadLoop)
      case CadaTok(Some(loop)) => if lists.Some? && loop.list !in lists.value then Some(UnknownList) else None
      case SinoTok =>
        if innermost == Some(OpenIf(true)) then Some(DuplicateElse)
        else if innermost == Some(OpenIf(false)) then None else Some(MisplacedElse)
      case EndSiTok => if innermost.Some? && innermost.value.OpenIf? then None else Some(UnexpectedClose)
      case EndCadaTok => if innermost == Some(OpenLoop) then None else Some(UnexpectedClose)
      case UnknownTok => Some(UnknownBlock)
      case _ => None
  }

  /** The stack of the parser has these blocks open. */
  ghost predicate Remembers(stack: Stack, open: seq<OpenBlock>) {
    && |stack| == |open| + 1 && stack[0].kind.Root?
    && forall i :: 0 <= i < |open| ==>
         match open[i]
         case OpenIf(hasElse) => stack[i + 1].kind.Si? && (hasElse <==> stack[i + 1].whenTrue.Some?)
         case OpenLoop => stack[i + 1].kind.Cada?
  }

  lemma RefusedByTheStack(stack: Stack, open: seq<OpenBlock>, t: Token, lists: Option<set<string>>)
    requires Remembers(stack, open)
    ensures var step, refusal := Step(stack, t, lists), Refusal(open, t, lists);
            if refusal.Some? then step == Err(refusal.value) else step.Ok?
  {
    if open != [] { assert open[|open| - 1].OpenIf? <==> Top(stack).kind.Si?; }
  }

  lemma TopChangesOnly(stack: Stack, f: Frame, open: seq<OpenBlock>)
    requires Remembers(stack, open) && f.kind == Top(stack).kind && f.whenTrue.Some? == Top(stack).whenTrue.Some?
    ensures Remembers(SetTop(stack, f), open)
  {
  }

  lemma TakenTag(stack: Stack, open: seq<OpenBlock>, t: Token, lists: Option<set<string>>)
    requires Remembers(stack, open) && Step(stack, t, lists).Ok?
    ensures Remembers(Step(stack, t, lists).value, AfterTag(open, t))
  {
    hide Remembers;
    match t
    case TextTok(text) => TopChangesOnly(stack, Top(stack).(nodes := Top(stack).nodes + [Text(text)]), open);
    case VarTok(name, raw) => TopChangesOnly(stack, Top(stack).(nodes := Top(stack).nodes + [Var(name, raw)]), open);
    case SiTok(cond) => Opened(stack, open, Si(cond.value));
    case CadaTok(loop) => Opened(stack, open, Cada(loop.value));
    case SinoTok => ElseTaken(stack, open);
    case EndSiTok => ClosedTop(stack, open);
    case EndCadaTok => ClosedTop(stack, open);
    case UnknownTok =>
  }

  lemma Opened(stack: Stack, open: seq<OpenBlock>, kind: FrameKind)
    requires Remembers(stack, open) && !kind.Root?
    ensures Remembers(Open(stack, kind), open + [if kind.Si? then OpenIf(false) else OpenLoop])
  {
  }

  lemma ElseTaken(stack: Stack, open: seq<OpenBlock>)
    requires Remembers(stack, open) && Top(stack).kind.Si?
    ensures open != []
    ensures Remembers(SetTop(stack, Frame(Top(stack).kind, [], Some(Top(stack).nodes))),
                      open[|open| - 1 := OpenIf(true)])
  {
  }

  lemma ClosedTop(stack: Stack, open: seq<OpenBlock>)
    requires Remembers(stack, open) && |stack| > 1 && !Top(stack).kind.Root?
    ensures open != [] && Remembers(Close(stack), open[..|open| - 1])
  {
    hide Closed;
    var below: Stack := stack[..|stack| - 1];
    assert Remembers(below, open[..|open| - 1]);
    TopChangesOnly(below, Top(below).(nodes := Top(below).nodes + [Closed(Top(stack))]), open[..|open| - 1]);
  }

  lemma OneMoreTag(stack: Stack, read: seq<Token>, t: Token, lists: Option<set<string>>)
    requires Remembers(stack, Blocks(read))
    ensures var step, refusal := Step(stack, t, lists), Refusal(Blocks(read), t, lists);
            if refusal.Some? then step == Err(refusal.value)
            else step.Ok? && Remembers(step.value, Blocks(read + [t]))
  {
    hide Step, Refusal, Remembers;
    assert (read + [t])[..|read|] == read;
    RefusedByTheStack(stack, Blocks(read), t, lists);
    if Step(stack, t, lists).Ok? { TakenTag(stack, Blocks(read), t, lists); }
  }

  /** The tags up to the k-th are taken, and it is the first one refused. */
  predicate FirstRefused(tokens: seq<Token>, lists: Option<set<string>>, k: nat, e: SyntaxError) {
    && k < |tokens| && Refusal(Blocks(tokens[..k]), tokens[k], lists) == Some(e)
    && forall j :: 0 <= j < k ==> Refusal(Blocks(tokens[..j]), tokens[j], lists).None?
  }

  predicate NoneRefused(tokens: seq<Token>, lists: Option<set<string>>) {
    forall j :: 0 <= j < |tokens| ==> Refusal(Blocks(tokens[..j]), tokens[j], lists).None?
  }

  lemma {:induction false} ParsesUpTo(tokens: seq<Token>, lists: Option<set<string>>, k: nat) returns (stack: Stack)
    requires k <= |tokens| && forall j :: 0 <= j < k ==> Refusal(Blocks(tokens[..j]), tokens[j], lists).None?
    ensures Remembers(stack, Blocks(tokens[..k])) && ParseOf(tokens, lists) == ParseFrom(stack, tokens[k..], lists)
  {
    hide Refusal, Remembers, Step;
    if k == 0 {
      stack := [Frame(Root, [], None)];
      NothingOpen(stack);
      assert tokens[..0] == [] && tokens[0..] == tokens;
    } else {
      var before := ParsesUpTo(tokens, lists, k - 1);
      OneMoreTag(before, tokens[..k - 1], tokens[k - 1], lists);
      assert tokens[..k - 1] + [tokens[k - 1]] == tokens[..k];
      assert tokens[k - 1..][0] == tokens[k - 1] && tokens[k - 1..][1..] == tokens[k..];
      stack := Step(before, tokens[k - 1], lists).value;
    }
  }

  lemma NothingOpen(stack: Stack)
    requires stack == [Frame(Root, [], None)]
    ensures Remembers(stack, Blocks([]))
  {
  }

  /** A template is refused with the error of the first tag refused; or as unclosed, when it ends with open blocks. */
  lemma RefusedExactlyWhen(tokens: seq<Token>, lists: Option<set<string>>, e: SyntaxError)
    ensures ParseOf(tokens, lists) == Err(e) <==>
              || (exists k :: FirstRefused(tokens, lists, k, e))
              || (NoneRefused(tokens, lists) && Blocks(tokens) != [] && e == UnclosedBlock)
    ensures ParseOf(tokens, lists).Ok? <==> NoneRefused(tokens, lists) && Blocks(tokens) == []
  {
    hide Refusal, Step, Blocks;
    if NoneRefused(tokens, lists) {
      var stack := ParsesUpTo(tokens, lists, |tokens|);
      assert tokens[..|tokens|] == tokens && tokens[|tokens|..] == [];
    } else {
      var k := FirstOf(tokens, lists, |tokens|);
      var stack := ParsesUpTo(tokens, lists, k);
      OneMoreTag(stack, tokens[..k], tokens[k], lists);
      assert tokens[k..][0] == tokens[k];
      var refusal := Refusal(Blocks(tokens[..k]), tokens[k], lists).value;
      assert FirstRefused(tokens, lists, k, refusal);
      if j :| FirstRefused(tokens, lists, j, e) { assert j == k; }
    }
  }

  lemma {:induction false} FirstOf(tokens: seq<Token>, lists: Option<set<string>>, n: nat) returns (k: nat)
    requires n <= |tokens| && exists j :: 0 <= j < n && Refusal(Blocks(tokens[..j]), tokens[j], lists).Some?
    ensures k < n && Refusal(Blocks(tokens[..k]), tokens[k], lists).Some?
    ensures forall j :: 0 <= j < k ==> Refusal(Blocks(tokens[..j]), tokens[j], lists).None?
  {
    hide Refusal, Blocks;
    if j :| 0 <= j < n - 1 && Refusal(Blocks(tokens[..j]), tokens[j], lists).Some? {
      k := FirstOf(tokens, lists, n - 1);
    } else {
      k := n - 1;
    }
  }
}
