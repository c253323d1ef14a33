/**
  What a template reads and decides: which value a name has, when a condition holds, what a number written as text
  is worth, the position fields of a list element, and the names a template mentions.
*/
module TemplateMeaning {
  import opened Template
  import opened TemplateRenderLaws
  import opened Wrappers

  // ─── Names ────────────────────────────────────────────

  predicate NoDot(s: string) { forall i :: 0 <= i < |s| ==> s[i] != '.' }

  lemma {:induction false} FirstDotIs(a: string, rest: string)
    requires NoDot(a) && (rest == "" || rest[0] == '.')
    ensures FirstDot(a + rest) == |a|
  {
    if a != "" {
      assert (a + rest)[1..] == a[1..] + rest;
      FirstDotIs(a[1..], rest);
    } else {
      assert a + rest == rest;
    }
  }

  /** A name with a dot is the field of a loop element, when it has it; otherwise a value by its whole name. */
  lemma FieldOfAnElement(scope: Scope, item: string, field: string)
    requires NoDot(item) && item != ""
    ensures var name := item + "." + field;
            Lookup(scope, name)
            == if item in scope.items && field in scope.items[item] then Some(scope.items[item][field])
               else Get(scope.values, name)
  {
    var name := item + "." + field;
    assert name == item + ("." + field);
    FirstDotIs(item, "." + field);
    assert name[..|item|] == item && name[|item| + 1..] == field;
  }

  /** Any other name is a value: one without a dot, or that begins with one. */
  lemma PlainName(scope: Scope, name: string)
    requires NoDot(name) || name[0] == '.'
    ensures Lookup(scope, name) == Get(scope.values, name)
  {
    if NoDot(name) {
      assert name + "" == name;
      FirstDotIs(name, "");
    }
  }

  // ─── Texts ────────────────────────────────────────────

  /** A space, a tab or a line break. */
  predicate Blank(c: char) { c in {' ', '\t', '\n', '\r'} }

  /** t is what is between two places of s, with nothing but spaces outside them and none at its ends. */
  predicate TrimsAt(t: string, s: string, i: nat, j: nat) {
    && i <= j <= |s| && t == s[i..j]
    && (forall x :: 0 <= x < i ==> Blank(s[x])) && (forall x :: j <= x < |s| ==> Blank(s[x]))
    && (i < j ==> !Blank(s[i]) && !Blank(s[j - 1]))
  }

  /** t is s without the spaces around it. */
  ghost predicate IsTrimmed(t: string, s: string) { exists i, j :: TrimsAt(t, s, i, j) }

  lemma {:induction false} LeftTrimmed(s: string) returns (i: nat)
    ensures i <= |s| && TrimLeft(s) == s[i..] && (forall x :: 0 <= x < i ==> Blank(s[x]))
    ensures i < |s| ==> !Blank(s[i])
  {
    i := 0;
    if s != "" && Blank(s[0]) {
      var j := LeftTrimmed(s[1..]);
      i := j + 1;
      assert s[1..][j..] == s[i..];
      forall x | 0 <= x < i ensures Blank(s[x]) { if x > 0 { assert s[1..][x - 1] == s[x]; } }
    }
  }

  lemma {:induction false} RightTrimmed(s: string) returns (j: nat)
    ensures j <= |s| && TrimRight(s) == s[..j] && (forall x :: j <= x < |s| ==> Blank(s[x]))
    ensures j > 0 ==> !Blank(s[j - 1])
  {
    j := |s|;
    if s != "" && Blank(s[|s| - 1]) {
      j := RightTrimmed(s[..|s| - 1]);
      assert s[..|s| - 1][..j] == s[..j];
      forall x | j <= x < |s| ensures Blank(s[x]) { if x < |s| - 1 { assert s[..|s| - 1][x] == s[x]; } }
    }
  }

  lemma TrimIsTrimmed(s: string)
    ensures IsTrimmed(Trim(s), s)
  {
    hide TrimLeft, TrimRight;
    var i := LeftTrimmed(s);
    var k := RightTrimmed(s[i..]);
    var j := i + k;
    assert s[i..][..k] == s[i..j];
    forall x | j <= x < |s| ensures Blank(s[x]) { assert s[i..][x - i] == s[x]; }
    if k > 0 { assert s[i..][k - 1] == s[j - 1]; }
    assert TrimsAt(Trim(s), s, i, j);
  }

  /** There is only one text without the spaces around another. */
  lemma OneTrimmed(a: string, b: string, s: string)
    requires IsTrimmed(a, s) && IsTrimmed(b, s)
    ensures a == b
  {
    var i: nat, j: nat :| TrimsAt(a, s, i, j);
    var k: nat, l: nat :| TrimsAt(b, s, k, l);
    if i < j {
      NotASpace(s, i, k, l);
      NotASpace(s, j - 1, k, l);
    }
    if k < l {
      NotASpace(s, k, i, j);
      NotASpace(s, l - 1, i, j);
    }
  }

  lemma NotASpace(s: string, x: nat, i: nat, j: nat)
    requires x < |s| && !Blank(s[x]) && i <= j <= |s|
    requires (forall y :: 0 <= y < i ==> Blank(s[y])) && (forall y :: j <= y < |s| ==> Blank(s[y]))
    ensures i <= x < j
  {
  }

  predicate SameLetter(c: char, lower: char) { c == lower || (c as int + 32 == lower as int && 'A' <= c <= 'Z') }

  /** "false", in letters of either case. */
  predicate SaysFalse(v: string) {
    && |v| == 5 && SameLetter(v[0], 'f') && SameLetter(v[1], 'a') && SameLetter(v[2], 'l')
    && SameLetter(v[3], 's') && SameLetter(v[4], 'e')
  }

  lemma LowerFalse(v: string)
    ensures Lower(v) == "false" <==> SaysFalse(v)
  {
    var w := Lower(v);
    if |v| == 5 {
      forall i | 0 <= i < 5 ensures w[i] == "false"[i] <==> SameLetter(v[i], "false"[i]) {}
      if SaysFalse(v) { assert w == "false"; }
    }
  }

  // ─── Numbers ──────────────────────────────────────────

  /** Digits worth so much, read from the left. */
  predicate Worth(digits: string, value: nat)
    decreases |digits|
  {
    if digits == "" then value == 0
    else
      var d := digits[|digits| - 1];
      '0' <= d <= '9' && value % 10 == d as int - 48 && Worth(digits[..|digits| - 1], value / 10)
  }

  /** s is a number: a minus or none, digits, and a comma or a point with digits after it or none. */
  predicate Written(s: string, negative: bool, whole: string, separator: string, fraction: string) {
    && s == (if negative then "-" else "") + whole + separator + fraction
    && Digits(whole)
    && (if separator == "" then fraction == "" else (separator == "." || separator == ",") && Digits(fraction))
  }

  function Tens(n: nat): (p: nat)
    ensures p > 0
  {
    if n == 0 then 1 else 10 * Tens(n - 1)
  }

  lemma {:induction false} TensIs(n: nat)
    ensures Power10(n) == Tens(n)
  {
    if n > 0 { TensIs(n - 1); }
  }

  lemma {:induction false} DigitsAreWorth(s: string)
    requires forall i :: 0 <= i < |s| ==> '0' <= s[i] <= '9'
    ensures Worth(s, DigitsValue(s))
  {
    if s != "" {
      var front, d := DigitsValue(s[..|s| - 1]), (s[|s| - 1] - '0') as nat;
      DigitsAreWorth(s[..|s| - 1]);
      assert (10 * front + d) / 10 == front && (10 * front + d) % 10 == d;
    }
  }

  lemma {:induction false} OneWorth(s: string, a: nat, b: nat)
    requires Worth(s, a) && Worth(s, b)
    ensures a == b
    decreases |s|
  {
    if s != "" { OneWorth(s[..|s| - 1], a / 10, b / 10); }
  }

  lemma {:induction false} SeparatorIs(whole: string, rest: string)
    requires (forall i :: 0 <= i < |whole| ==> '0' <= whole[i] <= '9')
    requires rest == "" || rest[0] == '.' || rest[0] == ','
    ensures Separator(whole + rest) == |whole|
  {
    if whole != "" {
      assert (whole + rest)[1..] == whole[1..] + rest;
      SeparatorIs(whole[1..], rest);
    } else {
      assert whole + rest == rest;
    }
  }

  lemma SignOf(s: string, negative: bool, u: string)
    requires s == (if negative then "-" else "") + u && u != "" && u[0] != '-'
    ensures s != "" && Unsigned(s) == u && (s[0] == '-' <==> negative)
  {
    if negative { assert s[0] == '-' && s[1..] == u; } else { assert s == u; }
  }

  /** Where the parts of a written number are. */
  lemma PartsOf(s: string, negative: bool, whole: string, separator: string, fraction: string)
    requires Written(s, negative, whole, separator, fraction)
    ensures s != "" && (s[0] == '-' <==> negative)
    ensures var u := Unsigned(s); var k := Separator(u);
            && k == |whole| && u[..k] == whole && (k < |u| <==> separator != "")
            && (separator != "" ==> u[k + 1..] == fraction)
  {
    hide Separator, Unsigned;
    var u, rest := whole + separator + fraction, separator + fraction;
    assert u == whole + rest && u[0] == whole[0];
    assert s == (if negative then "-" else "") + u;
    SignOf(s, negative, u);
    SeparatorIs(whole, rest);
    assert u[..|whole|] == whole;
    if separator != "" { assert u[|whole| + 1..] == fraction; }
  }

  /** What a written number is: recognised as one, and worth its digits with the sign and the point. */
  lemma WrittenNumber(s: string, negative: bool, whole: string, separator: string, fraction: string, w: nat, f: nat)
    requires Written(s, negative, whole, separator, fraction) && Worth(whole, w) && Worth(fraction, f)
    ensures IsNumber(s)
    ensures var x := w as real + f as real / Tens(|fraction|) as real;
            NumberOf(s) == if negative then -x else x
  {
    hide Separator, Unsigned, DigitsValue, Worth, Power10, Tens;
    PartsOf(s, negative, whole, separator, fraction);
    DigitsAreWorth(whole);
    DigitsAreWorth(fraction);
    OneWorth(whole, w, DigitsValue(whole));
    OneWorth(fraction, f, DigitsValue(fraction));
    TensIs(|fraction|);
  }

  lemma {:induction false} SeparatorFound(u: string)
    ensures var k := Separator(u);
            && k <= |u| && (k < |u| ==> u[k] == '.' || u[k] == ',')
            && forall i :: 0 <= i < k ==> u[i] != '.' && u[i] != ','
  {
    if u != "" && u[0] != '.' && u[0] != ',' { SeparatorFound(u[1..]); }
  }

  /** Only written numbers are numbers. */
  lemma NumbersAreWritten(s: string)
    ensures IsNumber(s) <==>
              exists negative, whole, separator, fraction :: Written(s, negative, whole, separator, fraction)
  {
    if IsNumber(s) { NumberIsWritten(s); }
    if negative, whole, separator, fraction :| Written(s, negative, whole, separator, fraction) {
      DigitsAreWorth(whole);
      DigitsAreWorth(fraction);
      WrittenNumber(s, negative, whole, separator, fraction, DigitsValue(whole), DigitsValue(fraction));
    }
  }

  lemma NumberIsWritten(s: string)
    requires IsNumber(s)
    ensures exists negative, whole, separator, fraction :: Written(s, negative, whole, separator, fraction)
  {
    hide Separator, Digits, Written;
    var u := Unsigned(s);
    var k := Separator(u);
    SeparatorFound(u);
    NotEmptyNumber(s);
    if k < |u| {
      SplitAt(u, k);
      WrittenWithPoint(s, s[0] == '-', u, k);
      assert Written(s, s[0] == '-', u[..k], [u[k]], u[k + 1..]);
    } else {
      assert u[..k] == u;
      WrittenWhole(s, s[0] == '-', u);
      assert Written(s, s[0] == '-', u, "", "");
    }
  }

  lemma NotEmptyNumber(s: string)
    requires IsNumber(s)
    ensures s != "" && s == (if s[0] == '-' then "-" else "") + Unsigned(s)
  {
    var u := Unsigned(s);
    assert u[..Separator(u)] != "";
  }

  lemma SplitAt(u: string, k: nat)
    requires k < |u|
    ensures u == u[..k] + [u[k]] + u[k + 1..]
  {
  }

  lemma WrittenWithPoint(s: string, negative: bool, u: string, k: nat)
    requires s == (if negative then "-" else "") + u && k < |u| && (u[k] == '.' || u[k] == ',')
    requires Digits(u[..k]) && Digits(u[k + 1..])
    ensures Written(s, negative, u[..k], [u[k]], u[k + 1..])
  {
    hide Digits;
    SplitAt(u, k);
    var sign := if negative then "-" else "";
    assert sign + u == sign + u[..k] + [u[k]] + u[k + 1..];
  }

  lemma WrittenWhole(s: string, negative: bool, u: string)
    requires s == (if negative then "-" else "") + u && Digits(u)
    ensures Written(s, negative, u, "", "")
  {
    hide Digits;
    assert s + "" + "" == s;
  }

  /** A zero is a number worth nothing. */
  lemma ZeroIsWorthNothing(s: string)
    ensures IsZero(s) <==> IsNumber(s) && NumberOf(s) == 0.0
  {
    if IsNumber(s) {
      hide Separator, IsNumber, NumberOf, Written, Digits, Worth;
      NumberIsWritten(s);
      var negative, whole, separator, fraction :| Written(s, negative, whole, separator, fraction);
      DigitsOnly(s, negative, whole, separator, fraction);
      DigitsAreWorth(whole);
      DigitsAreWorth(fraction);
      WrittenNumber(s, negative, whole, separator, fraction, DigitsValue(whole), DigitsValue(fraction));
      ZeroDigits(whole);
      ZeroDigits(fraction);
      ZeroParts(s, negative, whole, separator, fraction);
      ZeroQuotient(DigitsValue(whole), DigitsValue(fraction), Tens(|fraction|));
    }
  }

  lemma DigitsOnly(s: string, negative: bool, whole: string, separator: string, fraction: string)
    requires Written(s, negative, whole, separator, fraction)
    ensures forall i :: 0 <= i < |whole| ==> '0' <= whole[i] <= '9'
    ensures forall i :: 0 <= i < |fraction| ==> '0' <= fraction[i] <= '9'
  {
  }

  predicate NoneAboveZero(s: string) { forall i :: 0 <= i < |s| ==> !('1' <= s[i] <= '9') }

  lemma {:induction false} ZeroDigits(s: string)
    requires forall i :: 0 <= i < |s| ==> '0' <= s[i] <= '9'
    ensures DigitsValue(s) == 0 <==> NoneAboveZero(s)
  {
    if s != "" {
      ZeroDigits(s[..|s| - 1]);
      assert s == s[..|s| - 1] + [s[|s| - 1]];
    }
  }

  lemma ZeroParts(s: string, negative: bool, whole: string, separator: string, fraction: string)
    requires Written(s, negative, whole, separator, fraction)
    ensures NoneAboveZero(s) <==> NoneAboveZero(whole) && NoneAboveZero(fraction)
  {
    hide Digits;
    var sign := if negative then "-" else "";
    if NoneAboveZero(s) {
      forall i | 0 <= i < |whole| ensures !('1' <= whole[i] <= '9') { assert s[|sign| + i] == whole[i]; }
      forall i | 0 <= i < |fraction| ensures !('1' <= fraction[i] <= '9') {
        assert s[|sign| + |whole| + |separator| + i] == fraction[i];
      }
    }
    if NoneAboveZero(whole) && NoneAboveZero(fraction) {
      forall i | 0 <= i < |s| ensures !('1' <= s[i] <= '9') {
        if |sign| <= i < |sign| + |whole| { assert s[i] == whole[i - |sign|]; }
        var from := |sign| + |whole| + |separator|;
        if i >= from { assert s[i] == fraction[i - from]; }
      }
    }
  }

  lemma ZeroQuotient(w: nat, f: nat, tens: nat)
    requires tens > 0
    ensures w as real + f as real / tens as real == 0.0 <==> w == 0 && f == 0
  {
    assert f > 0 ==> f as real / tens as real > 0.0;
    assert f == 0 ==> f as real / tens as real == 0.0;
  }

  // ─── Conditions ───────────────────────────────────────

  /** Which comparisons two numbers meet: those that their order allows. */
  predicate Meets(op: Operator, a: real, b: real) {
    if a < b then op == Lt || op == Le || op == Ne
    else if a > b then op == Gt || op == Ge || op == Ne
    else op == Eq || op == Le || op == Ge
  }

  /** The text of a literal: without its quotes, when it has them. */
  function TextOf(literal: string): string {
    if |literal| >= 2 && literal[0] == '"' then literal[1..|literal| - 1] else literal
  }

  /** A value holds alone when it is not blank, nor "false" in any letters, nor a number worth zero. */
  predicate HoldsAlone(value: Option<string>, t: string) {
    value.Some? && t != "" && !SaysFalse(t) && !(IsNumber(t) && NumberOf(t) == 0.0)
  }

  /**
    A value compares by number when it is one and the literal is one without quotes; by text otherwise, and then
    only to be the same or not.
  */
  predicate Compares(t: string, c: Comparison) {
    var quoted, right := c.literal != "" && c.literal[0] == '"', TextOf(c.literal);
    if !quoted && IsNumber(t) && IsNumber(right) then Meets(c.op, NumberOf(t), NumberOf(right))
    else (c.op == Eq && t == right) || (c.op == Ne && t != right)
  }

  lemma TruthyMeans(value: Option<string>)
    ensures var text := if value.Some? then value.value else "";
            IsTrimmed(Trim(text), text) && (Truthy(value) <==> HoldsAlone(value, Trim(text)))
  {
    hide IsNumber, NumberOf, IsZero, Lower, SaysFalse, Trim;
    var text := if value.Some? then value.value else "";
    TrimIsTrimmed(text);
    LowerFalse(Trim(text));
    ZeroIsWorthNothing(Trim(text));
  }

  lemma CompareMeans(value: Option<string>, c: Comparison)
    ensures Compare(value, c) <==> Compares(Trim(if value.Some? then value.value else ""), c)
  {
    hide IsNumber, NumberOf, Trim;
  }

  /** When a condition holds: its value alone or compared, and the contrary when it is negated. */
  lemma ConditionMeans(cond: Condition, scope: Scope)
    ensures var value := Lookup(scope, cond.name);
            var text := if value.Some? then value.value else "";
            && IsTrimmed(Trim(text), text)
            && (Evaluate(cond, scope) <==>
                  cond.negate != (if cond.test.Some? then Compares(Trim(text), cond.test.value)
                                  else HoldsAlone(value, Trim(text))))
  {
    hide Lookup, Truthy, Compare, Compares, HoldsAlone, IsTrimmed, Trim;
    var value := Lookup(scope, cond.name);
    TruthyMeans(value);
    if cond.test.Some? { CompareMeans(value, cond.test.value); }
  }

  // ─── Elements ─────────────────────────────────────────

  lemma {:induction false} DigitsOfIsWorth(n: nat)
    ensures Worth(DigitsOf(n), n) && Digits(DigitsOf(n)) && (n > 0 ==> DigitsOf(n)[0] != '0')
  {
    if n >= 10 {
      DigitsOfIsWorth(n / 10);
      var s := DigitsOf(n);
      assert s[..|s| - 1] == DigitsOf(n / 10);
    }
  }

  /**
    The element a loop reads: its position from 1 and how many there are, written in digits; whether it is the first
    and the last; and its own fields, but for those.
  */
  lemma ElementIs(scope: Scope, loop: Loop, list: seq<Item>, i: nat)
    requires i < |list|
    ensures var inner := ElementScope(scope, loop, list, i);
            && inner.values == scope.values && inner.lists == scope.lists
            && (forall a :: a != loop.alias ==>
                  (a in inner.items <==> a in scope.items) && (a in scope.items ==> inner.items[a] == scope.items[a]))
            && loop.alias in inner.items
            && var e := inner.items[loop.alias];
               && "n" in e && Worth(e["n"], i + 1) && Digits(e["n"]) && e["n"][0] != '0'
               && "total" in e && Worth(e["total"], |list|) && Digits(e["total"]) && e["total"][0] != '0'
               && "primero" in e && e["primero"] == (if i == 0 then "1" else "0")
               && "ultimo" in e && e["ultimo"] == (if i == |list| - 1 then "1" else "0")
               && forall f :: f != "n" && f != "total" && f != "primero" && f != "ultimo" ==>
                    (f in e <==> f in list[i]) && (f in list[i] ==> e[f] == list[i][f])
  {
    hide DigitsOf, Worth, Digits;
    DigitsOfIsWorth(i + 1);
    DigitsOfIsWorth(|list|);
    var e := WithPosition(list[i], i, |list|);
    assert "n" != "total" && "n" != "primero" && "n" != "ultimo" by { assert |"n"| == 1; }
    assert "total" != "primero" && "total" != "ultimo" by { assert |"total"| == 5; }
    assert "primero" != "ultimo" by { assert "primero"[0] == 'p'; }
  }

  // ─── Names mentioned ──────────────────────────────────

  /** A name that a node mentions, in a text or a condition, where it is not of the element of a loop around it. */
  ghost predicate Mentions(nodes: seq<Node>, name: string, aliases: set<string>)
    decreases nodes, 1
  {
    exists i :: 0 <= i < |nodes| && NodeMentions(nodes[i], name, aliases)
  }

  ghost predicate NodeMentions(node: Node, name: string, aliases: set<string>)
    decreases node, 0
  {
    match node
    case Text(_) => false
    case Var(own, _) => own == name && Unaliased(name, aliases)
    case If(cond, whenTrue, _, whenFalse) =>
      || (cond.name == name && Unaliased(name, aliases))
      || Mentions(whenTrue, name, aliases) || Mentions(whenFalse, name, aliases)
    case Each(loop, body) => Mentions(body, name, aliases + {loop.alias})
  }

  /** A name is of the element of a loop: it is its alias, or its alias, a dot and something else. */
  ghost predicate OfElement(name: string, alias: string) {
    NoDot(alias) && (name == alias || exists rest :: name == alias + "." + rest)
  }

  ghost predicate Unaliased(name: string, aliases: set<string>) { forall a :: a in aliases ==> !OfElement(name, a) }

  lemma HeadIs(name: string, a: string)
    ensures OfElement(name, a) <==> a == Head(name)
  {
    HeadHasNoDot(name);
    var k := FirstDot(name);
    if k < |name| { assert name == Head(name) + "." + name[k + 1..]; }
    if OfElement(name, a) {
      if name == a {
        assert a + "" == a;
        FirstDotIs(a, "");
      } else {
        var rest :| name == a + "." + rest;
        assert name == a + ("." + rest);
        FirstDotIs(a, "." + rest);
      }
    }
  }

  lemma {:induction false} HeadHasNoDot(name: string)
    ensures NoDot(Head(name)) && (FirstDot(name) < |name| ==> name[FirstDot(name)] == '.')
  {
    if name != "" && name[0] != '.' {
      HeadHasNoDot(name[1..]);
      assert Head(name) == [name[0]] + Head(name[1..]);
    }
  }

  lemma NamedIs(name: string, aliases: set<string>)
    ensures Named(name, aliases) == if Unaliased(name, aliases) then {name} else {}
  {
    hide Head, OfElement;
    HeadIs(name, Head(name));
    forall a | a in aliases ensures OfElement(name, a) <==> a == Head(name) { HeadIs(name, a); }
  }

  /** The names extracted from a template are those it mentions, but for those of the element of a loop around them. */
  lemma {:induction false} VariablesAreMentioned(nodes: seq<Node>, name: string, aliases: set<string>)
    ensures name in Variables(nodes, aliases) <==> Mentions(nodes, name, aliases)
    decreases nodes, 1
  {
    hide Unaliased, Named;
    if nodes != [] {
      NodeVariablesAreMentioned(nodes[0], name, aliases);
      VariablesAreMentioned(nodes[1..], name, aliases);
      if i :| 0 <= i < |nodes| && NodeMentions(nodes[i], name, aliases) {
        if i > 0 { assert nodes[1..][i - 1] == nodes[i]; }
      }
    }
  }

  lemma {:induction false} NodeVariablesAreMentioned(node: Node, name: string, aliases: set<string>)
    ensures name in NodeVariables(node, aliases) <==> NodeMentions(node, name, aliases)
    decreases node, 0
  {
    hide Unaliased, Named;
    match node
    case Text(_) =>
    case Var(own, _) => NamedIs(own, aliases);
    case If(cond, whenTrue, _, whenFalse) =>
      NamedIs(cond.name, aliases);
      VariablesAreMentioned(whenTrue, name, aliases);
      VariablesAreMentioned(whenFalse, name, aliases);
    case Each(loop, body) => VariablesAreMentioned(body, name, aliases + {loop.alias});
  }
}
