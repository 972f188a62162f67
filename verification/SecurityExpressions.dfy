/** Security expressions: substitution, token check, parse and evaluation of the text of a condition. */
module SecurityExpressions {
  import opened Strings
  import opened Wrappers

  datatype Context = Context(roles: seq<string>, permissions: seq<string>, authenticated: bool)

  // ---- The four substitutions, applied in this order ----

  datatype Rule = AnyRole | Role | Permission | Authenticated

  function Opening(rule: Rule): (s: string)
    ensures s != ""
  {
    match rule
    case AnyRole => "hasAnyRole("
    case Role => "hasRole('"
    case Permission => "hasPermission('"
    case Authenticated => "isAuthenticated"
  }

  function Stop(rule: Rule): char {
    if rule.AnyRole? then ')' else '\''
  }

  function Closing(rule: Rule): string {
    match rule
    case AnyRole => ")"
    case Role => "')"
    case Permission => "')"
    case Authenticated => ""
  }

  /** The length of the longest prefix without `stop`. */
  function Run(s: string, stop: char): (n: nat)
    ensures n <= |s| && (n < |s| ==> s[n] == stop) && forall i :: 0 <= i < n ==> s[i] != stop
  {
    if s == "" || s[0] == stop then 0 else 1 + Run(s[1..], stop)
  }

  /** The quoted, non-empty strings of an argument list. */
  function Quoted(s: string): seq<string>
    decreases |s|
  {
    if s == "" then []
    else
      var n := Run(s[1..], '\'');
      if s[0] == '\'' && 0 < n < |s| - 1 then [s[1..n + 1]] + Quoted(s[n + 2..]) else Quoted(s[1..])
  }

  predicate HasAny(held: seq<string>, wanted: seq<string>) {
    exists i :: 0 <= i < |wanted| && wanted[i] in held
  }

  function Answer(rule: Rule, arg: string, ctx: Context): bool {
    match rule
    case AnyRole => HasAny(ctx.roles, Quoted(arg))
    case Role => arg in ctx.roles
    case Permission => arg in ctx.permissions
    case Authenticated => ctx.authenticated
  }

  function Shown(b: bool): string {
    if b then "True" else "False"
  }

  datatype Hit = Hit(length: nat, text: string)

  /** The match of a rule at the front of `s`, and what replaces it. */
  function At(s: string, rule: Rule, ctx: Context): (r: Option<Hit>)
    ensures r.Some? ==> 0 < r.value.length <= |s| && Opening(rule) <= s
  {
    var opening := Opening(rule);
    if !(opening <= s) then None
    else if rule.Authenticated? then Some(Hit(|opening|, Shown(Answer(rule, "", ctx))))
    else
      var rest := s[|opening|..];
      var n := Run(rest, Stop(rule));
      if n > 0 && Closing(rule) <= rest[n..] then
        Some(Hit(|opening| + n + |Closing(rule)|, Shown(Answer(rule, rest[..n], ctx))))
      else None
  }

  /** Replaces the matches of a rule from left to right. */
  function Rewrite(s: string, rule: Rule, ctx: Context): string
    decreases |s|
  {
    if s == "" then ""
    else
      var hit := At(s, rule, ctx);
      if hit.Some? then hit.value.text + Rewrite(s[hit.value.length..], rule, ctx)
      else [s[0]] + Rewrite(s[1..], rule, ctx)
  }

  function Substitute(s: string, ctx: Context): string {
    Rewrite(Rewrite(Rewrite(Rewrite(s, AnyRole, ctx), Role, ctx), Permission, ctx), Authenticated, ctx)
  }

  // ---- Tokens ----

  datatype Token = Const(value: bool) | Op(conjunction: bool) | Negation | Open | Close

  /** `str.isspace`. */
  predicate IsSpace(c: char) {
    var n := c as int;
    9 <= n <= 13 || 28 <= n <= 32 || n == 0x85 || n == 0xa0 || n == 0x1680 || 0x2000 <= n <= 0x200a
    || n == 0x2028 || n == 0x2029 || n == 0x202f || n == 0x205f || n == 0x3000
  }

  function SpaceParentheses(s: string): string {
    if s == "" then ""
    else SpaceParenthesis(s[0]) + SpaceParentheses(s[1..])
  }

  function SpaceParenthesis(c: char): string {
    if c == '(' then " ( " else if c == ')' then " ) " else [c]
  }

  function WordLength(s: string): (n: nat)
    ensures n <= |s|
  {
    if s == "" || IsSpace(s[0]) then 0 else 1 + WordLength(s[1..])
  }

  /** `str.split` on white space. */
  function Words(s: string): seq<string>
    decreases |s|
  {
    if s == "" then []
    else if IsSpace(s[0]) then Words(s[1..])
    else [s[..WordLength(s)]] + Words(s[WordLength(s)..])
  }

  function TokenOf(word: string): Option<Token> {
    if word == "True" then Some(Const(true))
    else if word == "False" then Some(Const(false))
    else if word == "and" then Some(Op(true))
    else if word == "or" then Some(Op(false))
    else if word == "not" then Some(Negation)
    else if word == "(" then Some(Open)
    else if word == ")" then Some(Close)
    else None
  }

  function Tokens(words: seq<string>): Option<seq<Token>> {
    if words == [] then Some([])
    else
      var first, rest := TokenOf(words[0]), Tokens(words[1..]);
      if first.Some? && rest.Some? then Some([first.value] + rest.value) else None
  }

  // ---- The expression grammar of Python on these tokens, and the evaluation of its trees ----

  datatype Tree = Constant(value: bool) | Not(operand: Tree) | BoolOp(conjunction: bool, values: seq<Tree>)

  function EvalNode(t: Tree): bool {
    match t
    case Constant(value) => value
    case Not(operand) => !EvalNode(operand)
    case BoolOp(conjunction, values) =>
      if conjunction then forall i :: 0 <= i < |values| ==> EvalNode(values[i])
      else exists i :: 0 <= i < |values| && EvalNode(values[i])
  }

  /** Level 0 is a disjunction, level 1 a conjunction, level 2 a negation or an atom. */
  function Parse(level: nat, ts: seq<Token>): (r: Option<(Tree, seq<Token>)>)
    requires level <= 2
    ensures r.Some? ==> |r.value.1| < |ts|
    decreases |ts|, 3 - level, 1
  {
    if level < 2 then ParseChain(level, [], ts)
    else if ts == [] then None
    else
      match ts[0]
      case Const(value) => Some((Constant(value), ts[1..]))
      case Negation =>
        var r := Parse(2, ts[1..]);
        if r.Some? then Some((Not(r.value.0), r.value.1)) else None
      case Open =>
        var r := Parse(0, ts[1..]);
        if r.Some? && r.value.1 != [] && r.value.1[0] == Close then Some((r.value.0, r.value.1[1..])) else None
      case _ => None
  }

  /** Operands joined by the operator of one level make one node. */
  function ParseChain(level: nat, before: seq<Tree>, ts: seq<Token>): (r: Option<(Tree, seq<Token>)>)
    requires level < 2
    ensures r.Some? ==> |r.value.1| < |ts|
    decreases |ts|, 3 - level, 0
  {
    var r := Parse(level + 1, ts);
    if r.None? then None
    else
      var values := before + [r.value.0];
      if Begins(r.value.1, level) then ParseChain(level, values, r.value.1[1..])
      else Some((Node(level, values), r.value.1))
  }

  predicate Begins(ts: seq<Token>, level: nat) {
    ts != [] && ts[0] == Op(level == 1)
  }

  function Node(level: nat, values: seq<Tree>): Tree {
    if |values| == 1 then values[0] else BoolOp(level == 1, values)
  }

  // ---- Layout that Python's own tokenizer accepts ----

  function Strip(s: string): string {
    if s == "" then ""
    else if IsSpace(s[0]) then Strip(s[1..])
    else if IsSpace(s[|s| - 1]) then Strip(s[..|s| - 1])
    else s
  }

  /** Line breaks only inside parentheses, and no white space but spaces, tabs and form feeds otherwise. */
  predicate Readable(s: string, depth: int) {
    s == "" ||
    if s[0] == '(' then Readable(s[1..], depth + 1)
    else if s[0] == ')' then Readable(s[1..], depth - 1)
    else if s[0] == '\n' || s[0] == '\r' then depth > 0 && Readable(s[1..], depth)
    else (IsSpace(s[0]) ==> s[0] == ' ' || s[0] == '\t' || s[0] as int == 12) && Readable(s[1..], depth)
  }

  datatype Error = Invalid

  function SafeBoolEval(s: string, tokens: seq<Token>): Result<bool, Error> {
    var parsed := Parse(0, tokens);
    if Readable(Strip(s), 0) && parsed.Some? && parsed.value.1 == [] then Ok(EvalNode(parsed.value.0)) else Err(Invalid)
  }

  function EvaluateExpression(expr: string, ctx: Context): Result<bool, Error> {
    var cleaned := SpaceParentheses(Substitute(expr, ctx));
    match Tokens(Words(cleaned))
    case None => Err(Invalid)
    case Some(tokens) => SafeBoolEval(cleaned, tokens)
  }

  // ---- Expressions and what they mean ----

  datatype Expr =
    | HasAnyRole(names: seq<string>)
    | HasRole(name: string)
    | HasPermission(name: string)
    | IsAuthenticated
    | Neg(operand: Expr)
    | And(left: Expr, right: Expr)
    | Or(left: Expr, right: Expr)
    | Group(inner: Expr)

  function Truth(e: Expr, ctx: Context): bool {
    match e
    case HasAnyRole(names) => HasAny(ctx.roles, names)
    case HasRole(name) => name in ctx.roles
    case HasPermission(name) => name in ctx.permissions
    case IsAuthenticated => ctx.authenticated
    case Neg(operand) => !Truth(operand, ctx)
    case And(left, right) => Truth(left, ctx) && Truth(right, ctx)
    case Or(left, right) => Truth(left, ctx) || Truth(right, ctx)
    case Group(inner) => Truth(inner, ctx)
  }

  function Precedence(e: Expr): nat {
    match e
    case Or(_, _) => 0
    case And(_, _) => 1
    case _ => 2
  }

  /** The text of an expression where `level` is wanted: parentheses only where precedence needs them. */
  function Render(e: Expr, level: nat): string
    decreases e, 1
  {
    if Precedence(e) < level then "(" + RenderBare(e) + ")" else RenderBare(e)
  }

  function RenderBare(e: Expr): string
    decreases e, 0
  {
    match e
    case HasAnyRole(names) => "hasAnyRole(" + Arguments(names) + ")"
    case HasRole(name) => "hasRole('" + name + "')"
    case HasPermission(name) => "hasPermission('" + name + "')"
    case IsAuthenticated => "isAuthenticated"
    case Neg(operand) => "not " + Render(operand, 2)
    case And(left, right) => Render(left, 1) + " and " + Render(right, 2)
    case Or(left, right) => Render(left, 0) + " or " + Render(right, 1)
    case Group(inner) => "(" + Render(inner, 0) + ")"
  }

  function Arguments(names: seq<string>): string {
    if names == [] then ""
    else if |names| == 1 then "'" + names[0] + "'"
    else "'" + names[0] + "', " + Arguments(names[1..])
  }

  /** A call with a non-empty argument list starts in `name`: the substitution of `hasAnyRole` would match there. */
  ghost predicate CallStartsAt(name: string, k: nat) {
    k + 11 <= |name| && name[k..k + 11] == "hasAnyRole(" && (k + 11 < |name| ==> name[k + 11] != ')')
  }

  ghost predicate CallStarts(name: string) {
    exists k :: 0 <= k < |name| && CallStartsAt(name, k)
  }

  /** The name and the quote that closes it would together open a role call. */
  ghost predicate OpensRole(name: string) {
    |name| >= 8 && name[|name| - 8..] == "hasRole("
  }

  /** The arguments that the substitutions leave alone until their own turn. */
  ghost predicate ArgumentFits(rule: Rule, arg: string) {
    match rule
    case AnyRole => arg != "" && Free(arg, ')')
    case Role => arg != "" && Free(arg, '\'') && !CallStarts(arg)
    case Permission => arg != "" && Free(arg, '\'') && !CallStarts(arg) && !OpensRole(arg)
    case Authenticated => arg == ""
  }

  /** No name is empty or holds a quote; no name in a list holds a closing parenthesis; no earlier call starts in the others. */
  ghost predicate WellNamed(e: Expr) {
    match e
    case HasAnyRole(names) =>
      names != [] && forall i :: 0 <= i < |names| ==> names[i] != "" && Free(names[i], '\'') && Free(names[i], ')')
    case HasRole(name) => ArgumentFits(Role, name)
    case HasPermission(name) => ArgumentFits(Permission, name)
    case IsAuthenticated => true
    case Neg(operand) => WellNamed(operand)
    case And(left, right) => WellNamed(left) && WellNamed(right)
    case Or(left, right) => WellNamed(left) && WellNamed(right)
    case Group(inner) => WellNamed(inner)
  }

  // ---- The text as a sequence of lexemes ----

  datatype Lexeme = Atom(rule: Rule, arg: string) | Plain(token: Token)

  function TextOf(l: Lexeme): string {
    match l
    case Atom(rule, arg) => Opening(rule) + arg + Closing(rule)
    case Plain(Const(value)) => Shown(value)
    case Plain(Op(conjunction)) => if conjunction then " and " else " or "
    case Plain(Negation) => "not "
    case Plain(Open) => "("
    case Plain(Close) => ")"
  }

  function Text(ls: seq<Lexeme>): string {
    if ls == [] then "" else TextOf(ls[0]) + Text(ls[1..])
  }

  lemma TextCons(l: Lexeme, ls: seq<Lexeme>)
    ensures Text([l] + ls) == TextOf(l) + Text(ls) && Text([]) == ""
  {
  }

  lemma {:induction false} TextConcat(a: seq<Lexeme>, b: seq<Lexeme>)
    ensures Text(a + b) == Text(a) + Text(b)
  {
    hide Text, TextOf;
    if a == [] {
      TextCons(Plain(Open), []);
      assert a + b == b;
    } else {
      TextConcat(a[1..], b);
      TextCons(a[0], a[1..]);
      TextCons(a[0], a[1..] + b);
      assert [a[0]] + a[1..] == a;
      assert [a[0]] + (a[1..] + b) == a + b;
    }
  }

  lemma TextOne(l: Lexeme)
    ensures Text([l]) == TextOf(l)
  {
  }

  function Lexemes(e: Expr, level: nat): seq<Lexeme>
    decreases e, 1
  {
    if Precedence(e) < level then [Plain(Open)] + LexemesBare(e) + [Plain(Close)] else LexemesBare(e)
  }

  function LexemesBare(e: Expr): seq<Lexeme>
    decreases e, 0
  {
    match e
    case HasAnyRole(names) => [Atom(AnyRole, Arguments(names))]
    case HasRole(name) => [Atom(Role, name)]
    case HasPermission(name) => [Atom(Permission, name)]
    case IsAuthenticated => [Atom(Authenticated, "")]
    case Neg(operand) => [Plain(Negation)] + Lexemes(operand, 2)
    case And(left, right) => Lexemes(left, 1) + [Plain(Op(true))] + Lexemes(right, 2)
    case Or(left, right) => Lexemes(left, 0) + [Plain(Op(false))] + Lexemes(right, 1)
    case Group(inner) => [Plain(Open)] + Lexemes(inner, 0) + [Plain(Close)]
  }

  lemma TextJoined(a: seq<Lexeme>, l: Lexeme, b: seq<Lexeme>)
    ensures Text(a + [l] + b) == Text(a) + TextOf(l) + Text(b)
  {
    TextConcat(a + [l], b);
    TextConcat(a, [l]);
    TextOne(l);
  }

  lemma TextBracketed(l: Lexeme, a: seq<Lexeme>, r: Lexeme)
    ensures Text([l] + a + [r]) == TextOf(l) + Text(a) + TextOf(r)
  {
    TextConcat([l] + a, [r]);
    TextConcat([l], a);
    TextOne(l);
    TextOne(r);
  }

  lemma {:induction false} RenderText(e: Expr, level: nat)
    ensures Render(e, level) == Text(Lexemes(e, level))
    decreases e, 1
  {
    hide Text, RenderBare, LexemesBare;
    RenderBareText(e);
    TextBracketed(Plain(Open), LexemesBare(e), Plain(Close));
  }

  lemma {:induction false} RenderBareText(e: Expr)
    ensures RenderBare(e) == Text(LexemesBare(e))
    decreases e, 0
  {
    hide Text, Render, Lexemes;
    match e
    case HasAnyRole(names) => TextOne(Atom(AnyRole, Arguments(names)));
    case HasRole(name) => TextOne(Atom(Role, name));
    case HasPermission(name) => TextOne(Atom(Permission, name));
    case IsAuthenticated => TextOne(Atom(Authenticated, ""));
    case Neg(operand) =>
      RenderText(operand, 2);
      TextOne(Plain(Negation));
      TextConcat([Plain(Negation)], Lexemes(operand, 2));
    case And(left, right) =>
      RenderText(left, 1);
      RenderText(right, 2);
      TextJoined(Lexemes(left, 1), Plain(Op(true)), Lexemes(right, 2));
    case Or(left, right) =>
      RenderText(left, 0);
      RenderText(right, 1);
      TextJoined(Lexemes(left, 0), Plain(Op(false)), Lexemes(right, 1));
    case Group(inner) =>
      RenderText(inner, 0);
      TextBracketed(Plain(Open), Lexemes(inner, 0), Plain(Close));
  }

  // ---- One substitution acts on the atoms of its rule and on nothing else ----

  lemma {:induction false} RewriteSkips(p: string, rest: string, rule: Rule, ctx: Context)
    requires forall k :: 0 <= k < |p| ==> !StartsIn(p, rest, k, rule)
    ensures Rewrite(p + rest, rule, ctx) == p + Rewrite(rest, rule, ctx)
  {
    hide At, Opening, Rewrite, StartsIn;
    if p == "" {
      assert p + rest == rest;
    } else {
      var q := p[1..];
      forall k | 0 <= k < |q| ensures !StartsIn(q, rest, k, rule) {
        StartsLater(p, rest, k, rule);
      }
      RewriteSkips(q, rest, rule, ctx);
      RewriteSkipsOne(p, rest, rule, ctx);
      assert [p[0]] + (q + Rewrite(rest, rule, ctx)) == p + Rewrite(rest, rule, ctx);
    }
  }

  lemma StartsLater(p: string, rest: string, k: nat, rule: Rule)
    requires k + 1 < |p|
    ensures StartsIn(p[1..], rest, k, rule) == StartsIn(p, rest, k + 1, rule)
  {
    hide At;
    assert (p + rest)[k + 1..] == (p[1..] + rest)[k..];
  }

  lemma RewriteSkipsOne(p: string, rest: string, rule: Rule, ctx: Context)
    requires p != "" && !StartsIn(p, rest, 0, rule)
    ensures Rewrite(p + rest, rule, ctx) == [p[0]] + Rewrite(p[1..] + rest, rule, ctx)
  {
    hide At;
    assert (p + rest)[0..] == p + rest;
    assert (p + rest)[1..] == p[1..] + rest;
    SameHits(p + rest, rule, ctx);
  }

  const NOBODY := Context([], [], false)

  /** A match of the rule starts at index `k` of `p`, whatever the context. */
  ghost predicate StartsIn(p: string, rest: string, k: nat, rule: Rule)
    requires k < |p|
  {
    At((p + rest)[k..], rule, NOBODY).Some?
  }

  lemma SameHits(s: string, rule: Rule, ctx: Context)
    ensures At(s, rule, ctx).Some? == At(s, rule, NOBODY).Some?
    ensures At(s, rule, ctx).Some? ==> At(s, rule, ctx).value.length == At(s, rule, NOBODY).value.length
  {
    hide Answer;
  }

  /** A mismatch inside `p` rules out a match, whatever follows. */
  lemma Mismatch(p: string, rest: string, k: nat, rule: Rule, j: nat)
    requires k < |p| && j < |Opening(rule)| && k + j < |p| && p[k + j] != Opening(rule)[j]
    ensures !StartsIn(p, rest, k, rule)
  {
    hide Opening, Run, Answer;
    assert (p + rest)[k..][j] == p[k + j];
  }

  lemma PlainSkipped(t: Token, rest: string, rule: Rule)
    ensures var p := TextOf(Plain(t)); forall k :: 0 <= k < |p| ==> !StartsIn(p, rest, k, rule)
  {
    var p := TextOf(Plain(t));
    forall k | 0 <= k < |p| ensures !StartsIn(p, rest, k, rule) {
      Mismatch(p, rest, k, rule, 0);
    }
  }

  /** A later call is untouched when no earlier call starts in its name, or in its name and closing quote. */
  lemma CallSkipped(later: Rule, name: string, rest: string, rule: Rule)
    requires (later.Role? && rule.AnyRole?) || (later.Permission? && (rule.AnyRole? || rule.Role?))
    requires Free(name, '\'') && !CallStarts(name) && (rule.Role? ==> !OpensRole(name))
    ensures var p := TextOf(Atom(later, name)); forall k :: 0 <= k < |p| ==> !StartsIn(p, rest, k, rule)
  {
    hide StartsIn, OpensRole, CallStartsAt;
    var p := TextOf(Atom(later, name));
    var n := |Opening(later)|;
    forall k | 0 <= k < |p| ensures !StartsIn(p, rest, k, rule) {
      if k == 0 {
        Mismatch(p, rest, k, rule, 3);
      } else if k < n {
        assert p[k] == Opening(later)[k] != 'h';
        Mismatch(p, rest, k, rule, 0);
      } else if k < n + |name| {
        if rule.AnyRole? {
          AnyRoleSkipped(p, n, name, rest, k);
        } else {
          RoleSkipped(p, n, name, rest, k);
        }
      } else {
        Mismatch(p, rest, k, rule, 0);
      }
    }
  }

  /** The named part of a quoted argument. */
  ghost predicate Holds(p: string, n: nat, name: string) {
    n + |name| < |p| && p[n..n + |name|] == name && p[n + |name|] == '\'' && Free(name, '\'')
  }

  lemma HeldSlice(p: string, n: nat, name: string, a: nat, b: nat)
    requires Holds(p, n, name) && a <= b <= |name|
    ensures p[n + a..n + b] == name[a..b]
  {
    forall i | a <= i < b ensures p[n + i] == name[i] {
      assert p[n..n + |name|][i] == name[i];
    }
  }

  lemma Differs(s: string, t: string) returns (j: nat)
    requires |s| == |t| && s != t
    ensures j < |s| && s[j] != t[j]
  {
    j :| 0 <= j < |s| && s[j] != t[j];
  }

  lemma AnyRoleSkipped(p: string, n: nat, name: string, rest: string, k: nat)
    requires Holds(p, n, name) && n <= k < n + |name| && !CallStartsAt(name, k - n)
    ensures !StartsIn(p, rest, k, AnyRole)
  {
    hide Answer, Run, StartsIn;
    var quote := n + |name| - k;
    if quote <= 10 {
      Mismatch(p, rest, k, AnyRole, quote);
    } else {
      HeldSlice(p, n, name, k - n, k - n + 11);
      if p[k..k + 11] != Opening(AnyRole) {
        var j := Differs(p[k..k + 11], Opening(AnyRole));
        Mismatch(p, rest, k, AnyRole, j);
      } else {
        HeldSlice(p, n, name, k - n + 11, k - n + 12);
        assert p[k + 11] == p[k + 11..k + 12][0] == name[k - n + 11] == ')';
        EmptyCall(p, rest, k);
      }
    }
  }

  lemma EmptyCall(p: string, rest: string, k: nat)
    requires k + 11 < |p| && p[k + 11] == ')'
    ensures !StartsIn(p, rest, k, AnyRole)
  {
    hide Answer;
    var s := (p + rest)[k..];
    assert s[11..][0] == p[k + 11];
    EmptyRun(s[11..], ')');
  }

  lemma EmptyRun(s: string, stop: char)
    requires s != "" && s[0] == stop
    ensures Run(s, stop) == 0
  {
  }

  lemma RoleSkipped(p: string, n: nat, name: string, rest: string, k: nat)
    requires Holds(p, n, name) && n <= k < n + |name| && !OpensRole(name)
    ensures !StartsIn(p, rest, k, Role)
  {
    hide StartsIn;
    var quote := n + |name| - k;
    if quote < 8 {
      Mismatch(p, rest, k, Role, quote);
    } else if quote > 8 {
      HeldSlice(p, n, name, k - n + 8, k - n + 9);
      assert p[k + 8] == p[k + 8..k + 9][0] == name[k - n + 8];
      Mismatch(p, rest, k, Role, 8);
    } else {
      HeldSlice(p, n, name, k - n, |name|);
      var j := Differs(p[k..k + 8], "hasRole(");
      Mismatch(p, rest, k, Role, j);
    }
  }

  function Order(rule: Rule): nat {
    match rule
    case AnyRole => 0
    case Role => 1
    case Permission => 2
    case Authenticated => 3
  }

  /** The rule finds nothing to replace here but its own calls. */
  ghost predicate Settled(l: Lexeme, rule: Rule) {
    l.Atom? ==>
      && Order(l.rule) >= Order(rule)
      && (ArgumentFits(l.rule, l.arg) || (l.rule.Permission? && rule.AnyRole? && ArgumentFits(Role, l.arg)))
  }

  ghost predicate AllFit(ls: seq<Lexeme>) {
    forall i :: 0 <= i < |ls| && ls[i].Atom? ==> ArgumentFits(ls[i].rule, ls[i].arg)
  }

  function Applied(l: Lexeme, rule: Rule, ctx: Context): Lexeme {
    if l.Atom? && l.rule == rule then Plain(Const(Answer(rule, l.arg, ctx))) else l
  }

  function AllApplied(ls: seq<Lexeme>, rule: Rule, ctx: Context): seq<Lexeme> {
    seq(|ls|, i requires 0 <= i < |ls| => Applied(ls[i], rule, ctx))
  }

  lemma RunOver(arg: string, rest: string, stop: char)
    requires Free(arg, stop) && rest != "" && rest[0] == stop
    ensures Run(arg + rest, stop) == |arg|
  {
    forall i | 0 <= i < |arg| ensures (arg + rest)[i] != stop {}
    assert (arg + rest)[|arg|] == stop;
  }

  lemma CallAt(rule: Rule, arg: string, after: string, ctx: Context)
    requires !rule.Authenticated? && arg != "" && Free(arg, Stop(rule))
    requires after != "" && after[0] == Stop(rule) && Closing(rule) <= after
    ensures At(Opening(rule) + (arg + after), rule, ctx) ==
      Some(Hit(|Opening(rule)| + |arg| + |Closing(rule)|, Shown(Answer(rule, arg, ctx))))
  {
    hide Answer, Run, Shown, Opening, Closing, Stop;
    RunOver(arg, after, Stop(rule));
  }

  /** A call matches its own rule, to its own end. */
  lemma AtomHit(rule: Rule, arg: string, rest: string, ctx: Context)
    requires if rule.Authenticated? then arg == "" else arg != "" && Free(arg, Stop(rule))
    ensures var p := TextOf(Atom(rule, arg));
      At(p + rest, rule, ctx) == Some(Hit(|p|, Shown(Answer(rule, arg, ctx))))
  {
    hide At, Answer, Run, Shown, Opening, Closing, Stop;
    if rule.Authenticated? {
      AuthenticatedAt(rest, ctx);
    } else {
      Regrouped(Opening(rule), arg, Closing(rule), rest);
      ClosingStops(rule);
      CallAt(rule, arg, Closing(rule) + rest, ctx);
    }
  }

  lemma Regrouped(a: string, b: string, c: string, d: string)
    ensures a + b + c + d == a + (b + (c + d))
  {
  }

  lemma ClosingStops(rule: Rule)
    requires !rule.Authenticated?
    ensures Closing(rule) != "" && Closing(rule)[0] == Stop(rule)
  {
  }

  lemma AuthenticatedAt(rest: string, ctx: Context)
    ensures var p := TextOf(Atom(Authenticated, ""));
      At(p + rest, Authenticated, ctx) == Some(Hit(|p|, Shown(Answer(Authenticated, "", ctx))))
  {
    hide Run, Shown;
    var p := TextOf(Atom(Authenticated, ""));
    assert p == Opening(Authenticated);
  }

  lemma RewriteHits(p: string, rest: string, rule: Rule, text: string, ctx: Context)
    requires p != "" && At(p + rest, rule, ctx) == Some(Hit(|p|, text))
    ensures Rewrite(p + rest, rule, ctx) == text + Rewrite(rest, rule, ctx)
  {
  }

  lemma LexemeRewritten(l: Lexeme, rest: string, rule: Rule, ctx: Context)
    requires Settled(l, rule)
    ensures Rewrite(TextOf(l) + rest, rule, ctx) == TextOf(Applied(l, rule, ctx)) + Rewrite(rest, rule, ctx)
  {
    hide Rewrite, At, Answer, Opening, Closing, Shown, CallStarts, OpensRole;
    if l.Plain? {
      PlainSkipped(l.token, rest, rule);
      RewriteSkips(TextOf(l), rest, rule, ctx);
    } else if l.rule == rule {
      AtomHit(rule, l.arg, rest, ctx);
      RewriteHits(TextOf(l), rest, rule, Shown(Answer(rule, l.arg, ctx)), ctx);
    } else {
      LaterSkipped(l.rule, l.arg, rest, rule);
      RewriteSkips(TextOf(l), rest, rule, ctx);
    }
  }

  lemma LaterSkipped(later: Rule, arg: string, rest: string, rule: Rule)
    requires Settled(Atom(later, arg), rule) && Order(later) > Order(rule)
    ensures var p := TextOf(Atom(later, arg)); forall k :: 0 <= k < |p| ==> !StartsIn(p, rest, k, rule)
  {
    if later.Authenticated? {
      var p := TextOf(Atom(later, arg));
      assert p == Opening(Authenticated);
      forall k | 0 <= k < |p| ensures !StartsIn(p, rest, k, rule) {
        Mismatch(p, rest, k, rule, if k == 5 then 1 else 0);
      }
    } else {
      CallSkipped(later, arg, rest, rule);
    }
  }

  /** A substitution replaces exactly the atoms of its rule, all of them, wherever they stand. */
  lemma {:induction false} RewriteText(ls: seq<Lexeme>, rule: Rule, ctx: Context)
    requires forall i :: 0 <= i < |ls| ==> Settled(ls[i], rule)
    ensures Rewrite(Text(ls), rule, ctx) == Text(AllApplied(ls, rule, ctx))
  {
    hide TextOf, Applied, Settled, At, Answer;
    var all := AllApplied(ls, rule, ctx);
    if ls != [] {
      RewriteText(ls[1..], rule, ctx);
      assert all[1..] == AllApplied(ls[1..], rule, ctx);
      LexemeRewritten(ls[0], Text(ls[1..]), rule, ctx);
    }
  }

  // ---- After all four, only constants and operators are left ----

  function Final(l: Lexeme, ctx: Context): Token {
    match l
    case Atom(rule, arg) => Const(Answer(rule, arg, ctx))
    case Plain(token) => token
  }

  function Spelled(ls: seq<Lexeme>, ctx: Context): seq<Token> {
    seq(|ls|, i requires 0 <= i < |ls| => Final(ls[i], ctx))
  }

  function Plains(ts: seq<Token>): seq<Lexeme> {
    seq(|ts|, i requires 0 <= i < |ts| => Plain(ts[i]))
  }

  lemma SubstituteText(ls: seq<Lexeme>, ctx: Context)
    requires AllFit(ls)
    ensures Substitute(Text(ls), ctx) == Text(Plains(Spelled(ls, ctx)))
  {
    hide Text, Rewrite, Answer, ArgumentFits;
    var a := AllApplied(ls, AnyRole, ctx);
    var b := AllApplied(a, Role, ctx);
    var c := AllApplied(b, Permission, ctx);
    RewriteText(ls, AnyRole, ctx);
    RewriteText(a, Role, ctx);
    RewriteText(b, Permission, ctx);
    RewriteText(c, Authenticated, ctx);
    assert AllApplied(c, Authenticated, ctx) == Plains(Spelled(ls, ctx));
  }

  // ---- Tokens of a spelled expression ----

  /** The text of a token once parentheses are spaced. */
  function CleanOf(t: Token): string {
    match t
    case Open => " ( "
    case Close => " ) "
    case _ => TextOf(Plain(t))
  }

  function Clean(ts: seq<Token>): string {
    if ts == [] then "" else CleanOf(ts[0]) + Clean(ts[1..])
  }

  lemma SpaceCons(c: char, s: string)
    ensures SpaceParentheses([c] + s) == SpaceParenthesis(c) + SpaceParentheses(s)
    ensures SpaceParentheses("") == ""
  {
  }

  lemma {:induction false} SpaceConcat(a: string, b: string)
    ensures SpaceParentheses(a + b) == SpaceParentheses(a) + SpaceParentheses(b)
  {
    hide SpaceParentheses, SpaceParenthesis;
    if a == "" {
      SpaceCons(' ', "");
      assert a + b == b;
    } else {
      SpaceConcat(a[1..], b);
      SpaceCons(a[0], a[1..]);
      SpaceCons(a[0], a[1..] + b);
      assert [a[0]] + a[1..] == a;
      assert [a[0]] + (a[1..] + b) == a + b;
    }
  }

  lemma {:induction false} SpaceNothing(s: string)
    requires Free(s, '(') && Free(s, ')')
    ensures SpaceParentheses(s) == s
  {
    if s != "" {
      SpaceNothing(s[1..]);
    }
  }

  lemma SpaceToken(t: Token)
    ensures SpaceParentheses(TextOf(Plain(t))) == CleanOf(t)
  {
    var s := TextOf(Plain(t));
    if t.Open? || t.Close? {
      assert s[1..] == "";
    } else {
      SpaceNothing(s);
    }
  }

  lemma {:induction false} SpaceText(ts: seq<Token>)
    ensures SpaceParentheses(Text(Plains(ts))) == Clean(ts)
  {
    hide CleanOf, TextOf;
    if ts == [] {
      SpaceNothing("");
    } else {
      assert Plains(ts)[1..] == Plains(ts[1..]);
      SpaceText(ts[1..]);
      SpaceToken(ts[0]);
      SpaceConcat(TextOf(Plain(ts[0])), Text(Plains(ts[1..])));
    }
  }

  lemma {:induction false} WordsWord(w: string, rest: string)
    requires w != "" && (forall i :: 0 <= i < |w| ==> !IsSpace(w[i])) && (rest == "" || IsSpace(rest[0]))
    ensures Words(w + rest) == [w] + Words(rest)
  {
    hide IsSpace;
    WholeWord(w, rest);
    assert (w + rest)[..|w|] == w && (w + rest)[|w|..] == rest;
  }

  lemma {:induction false} WholeWord(w: string, rest: string)
    requires (forall i :: 0 <= i < |w| ==> !IsSpace(w[i])) && (rest == "" || IsSpace(rest[0]))
    ensures WordLength(w + rest) == |w|
  {
    hide IsSpace;
    if w == "" {
      assert w + rest == rest;
    } else {
      WholeWord(w[1..], rest);
      assert (w + rest)[1..] == w[1..] + rest;
    }
  }

  lemma WordsSpace(rest: string)
    ensures Words(" " + rest) == Words(rest)
  {
  }

  function WordOf(t: Token): string {
    match t
    case Const(value) => Shown(value)
    case Op(conjunction) => if conjunction then "and" else "or"
    case Negation => "not"
    case Open => "("
    case Close => ")"
  }

  lemma WordReads(t: Token)
    ensures TokenOf(WordOf(t)) == Some(t) && WordOf(t) != ""
    ensures forall i :: 0 <= i < |WordOf(t)| ==> !IsSpace(WordOf(t)[i])
  {
  }

  /** No word runs into the next one. */
  predicate Spaced(ts: seq<Token>) {
    forall i :: 0 <= i < |ts| - 1 && ts[i].Const? ==> !ts[i + 1].Const? && !ts[i + 1].Negation?
  }

  lemma TokenWord(t: Token, rest: string)
    requires t.Const? ==> rest == "" || IsSpace(rest[0])
    ensures Words(CleanOf(t) + rest) == [WordOf(t)] + Words(rest)
  {
    hide Words, IsSpace, TokenOf;
    WordReads(t);
    var w := WordOf(t);
    if t.Const? {
      WordsWord(w, rest);
    } else {
      SpaceIsSpace();
      WordsWord(w, " " + rest);
      WordsSpace(rest);
      if !t.Negation? {
        WordsSpace(w + (" " + rest));
        assert CleanOf(t) + rest == " " + (w + (" " + rest));
      } else {
        assert CleanOf(t) + rest == w + (" " + rest);
      }
    }
  }

  lemma SpaceIsSpace()
    ensures IsSpace(' ')
  {
  }

  lemma {:induction false} CleanReads(ts: seq<Token>)
    requires Spaced(ts)
    ensures Tokens(Words(Clean(ts))) == Some(ts)
  {
    hide CleanOf, WordOf, IsSpace, TokenOf;
    if ts == [] {
    } else {
      CleanReads(ts[1..]);
      if ts[0].Const? && |ts| > 1 {
        StartsSpaced(ts[1..]);
      }
      TokenWord(ts[0], Clean(ts[1..]));
      WordReads(ts[0]);
      var words := Words(Clean(ts));
      assert words[1..] == Words(Clean(ts[1..]));
      assert ts == [ts[0]] + ts[1..];
    }
  }

  lemma StartsSpaced(ts: seq<Token>)
    requires ts != [] && !ts[0].Const? && !ts[0].Negation?
    ensures Clean(ts) != "" && IsSpace(Clean(ts)[0])
  {
  }

  lemma {:induction false} CleanBlanks(ts: seq<Token>)
    ensures forall i :: 0 <= i < |Clean(ts)| && IsSpace(Clean(ts)[i]) ==> Clean(ts)[i] == ' '
  {
    if ts != [] {
      CleanBlanks(ts[1..]);
    }
  }

  lemma {:induction false} BlanksReadable(s: string, depth: int)
    requires forall i :: 0 <= i < |s| && IsSpace(s[i]) ==> s[i] == ' '
    ensures Readable(s, depth)
  {
    if s != "" {
      BlanksReadable(s[1..], depth);
      BlanksReadable(s[1..], depth + 1);
      BlanksReadable(s[1..], depth - 1);
    }
  }

  lemma {:induction false} StripBlanks(s: string)
    requires forall i :: 0 <= i < |s| && IsSpace(s[i]) ==> s[i] == ' '
    ensures forall i :: 0 <= i < |Strip(s)| && IsSpace(Strip(s)[i]) ==> Strip(s)[i] == ' '
    decreases |s|
  {
    hide IsSpace;
    if s == "" {
    } else if IsSpace(s[0]) {
      StripBlanks(s[1..]);
    } else if IsSpace(s[|s| - 1]) {
      StripBlanks(s[..|s| - 1]);
    }
  }

  // ---- Rendered expressions are ready for all of this ----

  lemma {:induction false} ArgumentsFit(names: seq<string>)
    requires names != [] && forall i :: 0 <= i < |names| ==> Free(names[i], ')')
    ensures ArgumentFits(AnyRole, Arguments(names))
  {
    if |names| > 1 {
      ArgumentsFit(names[1..]);
    }
  }

  lemma QuotedName(name: string, rest: string)
    requires name != "" && Free(name, '\'')
    ensures Quoted("'" + name + "'" + rest) == [name] + Quoted(rest)
  {
    hide Quoted;
    var s := "'" + name + "'" + rest;
    assert s[1..] == name + "'" + rest;
    assert s[1..][|name|] == '\'';
    assert Run(s[1..], '\'') == |name|;
    QuotedUnfolds(s);
    assert s[1..|name| + 1] == name && s[|name| + 2..] == rest;
  }

  lemma QuotedUnfolds(s: string)
    requires s != "" && s[0] == '\'' && 0 < Run(s[1..], '\'') < |s| - 1
    ensures var n := Run(s[1..], '\''); Quoted(s) == [s[1..n + 1]] + Quoted(s[n + 2..])
  {
  }

  lemma QuotedSkips(c: char, s: string)
    requires c != '\''
    ensures Quoted([c] + s) == Quoted(s)
  {
  }

  /** The names read back are the names written. */
  lemma {:induction false} QuotedArguments(names: seq<string>)
    requires forall i :: 0 <= i < |names| ==> names[i] != "" && Free(names[i], '\'')
    ensures Quoted(Arguments(names)) == names
  {
    hide Quoted, Free;
    if names == [] {
      QuotedNothing();
    } else if |names| == 1 {
      QuotedName(names[0], "");
      QuotedNothing();
      assert "'" + names[0] + "'" + "" == Arguments(names);
    } else {
      var rest := Arguments(names[1..]);
      QuotedArguments(names[1..]);
      QuotedSkips(' ', rest);
      QuotedSkips(',', [' '] + rest);
      QuotedName(names[0], [','] + ([' '] + rest));
      assert Arguments(names) == "'" + names[0] + "'" + ([','] + ([' '] + rest));
    }
  }

  lemma QuotedNothing()
    ensures Quoted("") == []
  {
  }

  lemma {:induction false} RenderedFits(e: Expr, level: nat)
    requires WellNamed(e)
    ensures AllFit(Lexemes(e, level))
    decreases e, 1
  {
    hide ArgumentFits;
    RenderedBareFits(e);
  }

  lemma {:induction false} RenderedBareFits(e: Expr)
    requires WellNamed(e)
    ensures AllFit(LexemesBare(e))
    decreases e, 0
  {
    hide Lexemes, Arguments;
    match e
    case HasAnyRole(names) => ArgumentsFit(names);
    case HasRole(_) =>
    case HasPermission(_) =>
    case IsAuthenticated =>
    case Neg(operand) => RenderedFits(operand, 2);
    case And(left, right) => RenderedFits(left, 1); RenderedFits(right, 2);
    case Or(left, right) => RenderedFits(left, 0); RenderedFits(right, 1);
    case Group(inner) => RenderedFits(inner, 0);
  }

  /** The tokens of an expression where `level` is wanted. */
  function Spell(e: Expr, level: nat, ctx: Context): seq<Token> {
    Spelled(Lexemes(e, level), ctx)
  }

  function SpellBare(e: Expr, ctx: Context): seq<Token> {
    Spelled(LexemesBare(e), ctx)
  }

  lemma SpellUnfolds(e: Expr, level: nat, ctx: Context)
    ensures Spell(e, level, ctx) == if Precedence(e) < level then [Open] + SpellBare(e, ctx) + [Close] else SpellBare(e, ctx)
  {
  }

  /** The tokens of an expression without outer brackets, operand by operand. */
  function SpellParts(e: Expr, ctx: Context): seq<Token> {
    match e
    case Neg(operand) => [Negation] + Spell(operand, 2, ctx)
    case And(left, right) => Spell(left, 1, ctx) + [Op(true)] + Spell(right, 2, ctx)
    case Or(left, right) => Spell(left, 0, ctx) + [Op(false)] + Spell(right, 1, ctx)
    case Group(inner) => [Open] + Spell(inner, 0, ctx) + [Close]
    case _ => [Const(Truth(e, ctx))]
  }

  lemma SpellBareUnfolds(e: Expr, ctx: Context)
    requires WellNamed(e)
    ensures SpellBare(e, ctx) == SpellParts(e, ctx)
  {
    hide Lexemes, Arguments, HasAny;
    match e
    case HasAnyRole(names) => QuotedArguments(names);
    case HasRole(_) =>
    case HasPermission(_) =>
    case IsAuthenticated =>
    case Neg(operand) =>
    case And(left, right) =>
    case Or(left, right) =>
    case Group(inner) =>
  }

  lemma {:induction false} SpellSpaced(e: Expr, level: nat, ctx: Context)
    requires WellNamed(e)
    ensures Spaced(Spell(e, level, ctx))
    decreases e, 1
  {
    hide Spell, SpellBare;
    SpellUnfolds(e, level, ctx);
    SpellBareSpaced(e, ctx);
  }

  lemma {:induction false} SpellBareSpaced(e: Expr, ctx: Context)
    requires WellNamed(e)
    ensures Spaced(SpellBare(e, ctx))
    decreases e, 0
  {
    hide Spell, SpellBare;
    SpellBareUnfolds(e, ctx);
    match e
    case HasAnyRole(names) =>
    case HasRole(_) =>
    case HasPermission(_) =>
    case IsAuthenticated =>
    case Neg(operand) => SpellSpaced(operand, 2, ctx);
    case And(left, right) => SpellSpaced(left, 1, ctx); SpellSpaced(right, 2, ctx);
    case Or(left, right) => SpellSpaced(left, 0, ctx); SpellSpaced(right, 1, ctx);
    case Group(inner) => SpellSpaced(inner, 0, ctx);
  }

  // ---- Parsing a spelled expression ----

  /** What follows does not continue an expression of this level. */
  predicate Follows(rest: seq<Token>, level: nat) {
    (level <= 1 ==> !Begins(rest, 1)) && (level == 0 ==> !Begins(rest, 0))
  }

  predicate Fold(level: nat, values: seq<Tree>) {
    if level == 1 then forall i :: 0 <= i < |values| ==> EvalNode(values[i])
    else exists i :: 0 <= i < |values| && EvalNode(values[i])
  }

  lemma NodeFolds(level: nat, values: seq<Tree>)
    requires level < 2 && values != []
    ensures EvalNode(Node(level, values)) == Fold(level, values)
  {
  }

  lemma FoldExtends(level: nat, values: seq<Tree>, t: Tree)
    requires level < 2
    ensures Fold(level, values + [t]) ==
      if level == 1 then Fold(level, values) && EvalNode(t) else Fold(level, values) || EvalNode(t)
    ensures Fold(level, [t]) == EvalNode(t)
  {
    hide EvalNode;
    var all := values + [t];
    assert all[|values|] == t;
    assert [t][0] == t;
    if i :| 0 <= i < |values| && EvalNode(values[i]) {
      assert all[i] == values[i];
    }
    if i :| 0 <= i < |values| && !EvalNode(values[i]) {
      assert all[i] == values[i];
    }
  }

  /** Brackets around a same-size expression, then falling levels. */
  function Rank(e: Expr, level: nat): nat
    requires level <= 2
  {
    (if Precedence(e) < level then 10 else 0) + 2 * (2 - level)
  }

  lemma {:induction false} ParseSpelled(e: Expr, level: nat, rest: seq<Token>, ctx: Context) returns (t: Tree)
    requires level <= 2 && WellNamed(e) && Follows(rest, level)
    ensures Parse(level, Spell(e, level, ctx) + rest) == Some((t, rest)) && EvalNode(t) == Truth(e, ctx)
    decreases e, Rank(e, level), 1
  {
    hide Spell, SpellBare, ParseChain, Fold;
    if level < 2 {
      var values := ChainSpelled(e, level, [], rest, ctx);
      t := Node(level, values);
      NodeFolds(level, values);
      assert [] + values == values;
    } else {
      t := AtomSpelled(e, rest, ctx);
    }
  }

  lemma ParseOpened(ts: seq<Token>, t: Tree, rest: seq<Token>)
    requires Parse(0, ts) == Some((t, [Close] + rest))
    ensures Parse(2, [Open] + ts) == Some((t, rest))
  {
    hide ParseChain;
    assert ([Open] + ts)[1..] == ts && ([Close] + rest)[1..] == rest;
  }

  lemma ParseNegated(ts: seq<Token>, t: Tree, rest: seq<Token>)
    requires Parse(2, ts) == Some((t, rest))
    ensures Parse(2, [Negation] + ts) == Some((Not(t), rest))
  {
    hide ParseChain;
    assert ([Negation] + ts)[1..] == ts;
  }

  lemma ParseConstant(value: bool, rest: seq<Token>)
    ensures Parse(2, [Const(value)] + rest) == Some((Constant(value), rest))
  {
    hide ParseChain;
    assert ([Const(value)] + rest)[1..] == rest;
  }

  lemma SpellAtom(e: Expr, ctx: Context)
    requires WellNamed(e)
    ensures Spell(e, 2, ctx) ==
      if Precedence(e) < 2 then [Open] + Spell(e, 0, ctx) + [Close] else SpellParts(e, ctx)
  {
    hide Spell, SpellBare, SpellParts, WellNamed;
    SpellUnfolds(e, 2, ctx);
    SpellUnfolds(e, 0, ctx);
    SpellBareUnfolds(e, ctx);
  }

  lemma {:induction false} BracketSpelled(e: Expr, rest: seq<Token>, ctx: Context) returns (t: Tree)
    requires WellNamed(e)
    ensures Parse(2, [Open] + Spell(e, 0, ctx) + [Close] + rest) == Some((t, rest)) && EvalNode(t) == Truth(e, ctx)
    decreases e, Rank(e, 0), 2
  {
    hide Spell, Parse, EvalNode, Truth, WellNamed;
    t := ParseSpelled(e, 0, [Close] + rest, ctx);
    ParseOpened(Spell(e, 0, ctx) + ([Close] + rest), t, rest);
    assert [Open] + Spell(e, 0, ctx) + [Close] + rest == [Open] + (Spell(e, 0, ctx) + ([Close] + rest));
  }

  lemma {:induction false} AtomSpelled(e: Expr, rest: seq<Token>, ctx: Context) returns (t: Tree)
    requires WellNamed(e)
    ensures Parse(2, Spell(e, 2, ctx) + rest) == Some((t, rest)) && EvalNode(t) == Truth(e, ctx)
    decreases e, Rank(e, 2), 0
  {
    hide Spell, Parse, HasAny, ArgumentFits;
    SpellAtom(e, ctx);
    if Precedence(e) < 2 {
      t := BracketSpelled(e, rest, ctx);
    } else if e.Group? {
      t := BracketSpelled(e.inner, rest, ctx);
    } else if e.Neg? {
      var operand := ParseSpelled(e.operand, 2, rest, ctx);
      ParseNegated(Spell(e.operand, 2, ctx) + rest, operand, rest);
      assert [Negation] + Spell(e.operand, 2, ctx) + rest == [Negation] + (Spell(e.operand, 2, ctx) + rest);
      t := Not(operand);
    } else {
      t := Constant(Truth(e, ctx));
      ParseConstant(Truth(e, ctx), rest);
    }
  }

  lemma ChainStep(level: nat, before: seq<Tree>, ts: seq<Token>, t: Tree, rest: seq<Token>)
    requires level < 2 && Parse(level + 1, ts) == Some((t, rest))
    ensures ParseChain(level, before, ts) ==
      if Begins(rest, level) then ParseChain(level, before + [t], rest[1..]) else Some((Node(level, before + [t]), rest))
  {
  }

  lemma ChainParts(e: Expr, level: nat, ctx: Context)
    requires level < 2 && WellNamed(e) && Precedence(e) == level
    ensures WellNamed(e.left) && WellNamed(e.right)
    ensures Truth(e, ctx) == if level == 1 then Truth(e.left, ctx) && Truth(e.right, ctx) else Truth(e.left, ctx) || Truth(e.right, ctx)
  {
  }

  /** The operands of a chain are collected from left to right. */
  lemma {:induction false} ChainSpelled(e: Expr, level: nat, before: seq<Tree>, rest: seq<Token>, ctx: Context) returns (values: seq<Tree>)
    requires level < 2 && WellNamed(e) && Follows(rest, level + 1)
    ensures values != [] && Fold(level, values) == Truth(e, ctx)
    ensures ParseChain(level, before, Spell(e, level, ctx) + rest) ==
      if Begins(rest, level) then ParseChain(level, before + values, rest[1..])
      else Some((Node(level, before + values), rest))
    decreases e, Rank(e, level), 0
  {
    hide Spell, Fold, EvalNode, Parse, ParseChain, Node, Truth, WellNamed;
    if Precedence(e) == level {
      ChainParts(e, level, ctx);
      ChainText(e, level, rest, ctx);
      var tail := Spell(e.right, level + 1, ctx) + rest;
      var first := ChainSpelled(e.left, level, before, [Op(level == 1)] + tail, ctx);
      var last := ParseSpelled(e.right, level + 1, rest, ctx);
      values := first + [last];
      FoldExtends(level, first, last);
      ChainStep(level, before + first, tail, last, rest);
      assert before + first + [last] == before + values;
    } else {
      SpellUnfolds(e, level, ctx);
      SpellUnfolds(e, level + 1, ctx);
      var only := ParseSpelled(e, level + 1, rest, ctx);
      values := [only];
      ChainStep(level, before, Spell(e, level, ctx) + rest, only, rest);
      FoldExtends(level, [], only);
    }
  }

  lemma ChainText(e: Expr, level: nat, rest: seq<Token>, ctx: Context)
    requires level < 2 && WellNamed(e) && Precedence(e) == level
    ensures var tail := Spell(e.right, level + 1, ctx) + rest;
      && Spell(e, level, ctx) + rest == Spell(e.left, level, ctx) + ([Op(level == 1)] + tail)
      && ([Op(level == 1)] + tail)[1..] == tail
  {
    hide Spell, SpellBare;
    SpellUnfolds(e, level, ctx);
    SpellBareUnfolds(e, ctx);
    assert ([Op(level == 1)] + (Spell(e.right, level + 1, ctx) + rest))[1..] == Spell(e.right, level + 1, ctx) + rest;
  }

  /** Every expression, rendered to text and evaluated as text, has its truth value. */
  lemma EvaluateRendered(e: Expr, ctx: Context)
    requires WellNamed(e)
    ensures EvaluateExpression(Render(e, 0), ctx) == Ok(Truth(e, ctx))
  {
    hide Render, Lexemes, Truth, Substitute, SpaceParentheses, Parse, Words, Tokens, Clean, Text, EvalNode, Readable, Strip, Spelled, Spaced, AllFit, WellNamed;
    var ts := Spell(e, 0, ctx);
    RenderText(e, 0);
    RenderedFits(e, 0);
    SubstituteText(Lexemes(e, 0), ctx);
    SpaceText(ts);
    SpellSpaced(e, 0, ctx);
    CleanReads(ts);
    CleanBlanks(ts);
    StripBlanks(Clean(ts));
    BlanksReadable(Strip(Clean(ts)), 0);
    var t := ParseSpelled(e, 0, [], ctx);
    assert ts + [] == ts;
  }

  // ---- Exactly which names are read as themselves ----

  lemma {:induction false} QuotedParts(s: string, i: nat)
    requires i < |Quoted(s)|
    ensures var part := Quoted(s)[i]; part != "" && Free(part, '\'') && |part| + 2 <= |s|
    ensures Free(s, ')') ==> Free(Quoted(s)[i], ')')
    decreases |s|
  {
    var n := Run(s[1..], '\'');
    if s[0] == '\'' && 0 < n < |s| - 1 {
      if i > 0 { QuotedParts(s[n + 2..], i - 1); }
    } else {
      QuotedParts(s[1..], i);
    }
  }

  /** No answer of the rule on a text can be about `name` itself: it is empty or quoted, or the text is too short. */
  ghost predicate Blind(s: string, rule: Rule, name: string) {
    || name == "" || !Free(name, '\'')
    || (match rule
        case AnyRole => |s| <= |name| + 11 || !Free(name, ')')
        case Role => |s| < |name| + 11
        case Permission => |s| < |name| + 17
        case Authenticated => true)
  }

  /** Two contexts that differ at most in whether `name` is held. */
  ghost predicate Apart(a: Context, b: Context, name: string) {
    && a.authenticated == b.authenticated
    && (forall x :: x != name ==> (x in a.roles <==> x in b.roles) && (x in a.permissions <==> x in b.permissions))
  }

  lemma SameAt(s: string, rule: Rule, name: string, a: Context, b: Context)
    requires Blind(s, rule, name) && Apart(a, b, name)
    ensures At(s, rule, a) == At(s, rule, b)
  {
    hide Quoted, Shown;
    if Opening(rule) <= s && !rule.Authenticated? {
      var rest := s[|Opening(rule)|..];
      var arg := rest[..Run(rest, Stop(rule))];
      forall i | 0 <= i < |Quoted(arg)| ensures var part := Quoted(arg)[i];
        part != "" && Free(part, '\'') && |part| + 2 <= |arg| && (rule.AnyRole? ==> Free(part, ')'))
      {
        QuotedParts(arg, i);
      }
    }
  }

  lemma {:induction false} SameRewrite(s: string, rule: Rule, name: string, a: Context, b: Context)
    requires Blind(s, rule, name) && Apart(a, b, name)
    ensures Rewrite(s, rule, a) == Rewrite(s, rule, b)
    decreases |s|
  {
    hide At, Apart, Opening;
    if s != "" {
      SameAt(s, rule, name, a, b);
      var hit := At(s, rule, a);
      SameRewrite(if hit.Some? then s[hit.value.length..] else s[1..], rule, name, a, b);
    }
  }

  lemma HitShrinks(s: string, rule: Rule, ctx: Context)
    requires At(s, rule, ctx).Some?
    ensures |At(s, rule, ctx).value.text| < At(s, rule, ctx).value.length
  {
    hide Answer;
  }

  lemma {:induction false} RewriteShrinks(s: string, rule: Rule, ctx: Context)
    ensures |Rewrite(s, rule, ctx)| <= |s|
    ensures forall k :: 0 <= k < |s| && StartsIn(s, "", k, rule) ==> |Rewrite(s, rule, ctx)| < |s|
    decreases |s|
  {
    hide At, Opening;
    if s != "" {
      SameHits(s, rule, ctx);
      var hit := At(s, rule, ctx);
      if hit.Some? {
        HitShrinks(s, rule, ctx);
        RewriteShrinks(s[hit.value.length..], rule, ctx);
      } else {
        RewriteShrinks(s[1..], rule, ctx);
        forall k | 0 <= k < |s| && StartsIn(s, "", k, rule) ensures k > 0 && StartsIn(s[1..], "", k - 1, rule) {
          assert (s + "")[k..] == s[k..];
          assert s + "" == s;
          assert k > 0 ==> (s[1..] + "")[k - 1..] == s[k..];
        }
      }
    }
  }

  lemma MatchHere(s: string)
    requires |s| > 11 && s[..11] == "hasAnyRole(" && s[11] != ')' && s[|s| - 1] == ')'
    ensures At(s, AnyRole, NOBODY).Some?
  {
    hide Answer, Run;
    var rest := s[11..];
    assert Opening(AnyRole) <= s;
    assert rest[0] == s[11] && rest[|rest| - 1] == ')';
    assert rest[Run(rest, ')')..][0] == ')';
  }

  /** An earlier call that starts in a quoted name matches there. */
  lemma CallStartsMatches(p: string, n: nat, name: string, k: nat)
    requires Holds(p, n, name) && k < |name| && CallStartsAt(name, k) && p[|p| - 1] == ')'
    requires n + |name| < |p| - 1
    ensures StartsIn(p, "", n + k, AnyRole)
  {
    hide At, Free;
    assert (p + "")[n + k..] == p[n + k..];
    var s := p[n + k..];
    HeldSlice(p, n, name, k, k + 11);
    assert s[..11] == p[n + k..n + k + 11];
    if k + 11 < |name| {
      HeldSlice(p, n, name, k + 11, k + 12);
      assert p[n + (k + 11)] == p[n + (k + 11)..n + (k + 12)][0] == name[k + 11..k + 12][0] == name[k + 11];
    }
    assert s[11] == p[n + k + 11] && s[|s| - 1] == p[|p| - 1];
    MatchHere(s);
  }

  /** The expression is read as what it says in every context. */
  ghost predicate Reads(e: Expr) {
    forall ctx :: EvaluateExpression(Render(e, 0), ctx) == Ok(Truth(e, ctx))
  }

  /** Evaluation looks at the context through the substitutions alone. */
  lemma Unreadable(e: Expr, a: Context, b: Context)
    requires Substitute(Render(e, 0), a) == Substitute(Render(e, 0), b) && Truth(e, a) != Truth(e, b)
    ensures !Reads(e)
  {
    hide Substitute, Render, Truth, Parse, Words, Tokens;
    assert EvaluateExpression(Render(e, 0), a) == EvaluateExpression(Render(e, 0), b);
  }

  lemma WellNamedReads(e: Expr)
    requires WellNamed(e)
    ensures Reads(e)
  {
    forall ctx ensures EvaluateExpression(Render(e, 0), ctx) == Ok(Truth(e, ctx)) {
      EvaluateRendered(e, ctx);
    }
  }

  /** A role check is read as itself exactly when its name is not empty, holds no quote, and no earlier call starts in it. */
  lemma RoleReadsIff(name: string)
    ensures Reads(HasRole(name)) <==> ArgumentFits(Role, name)
  {
    hide Reads, Rewrite, EvaluateExpression, StartsIn, CallStartsAt;
    if ArgumentFits(Role, name) {
      WellNamedReads(HasRole(name));
    } else {
      var a, b := Context([name], [], false), NOBODY;
      var t := Render(HasRole(name), 0);
      assert t == "hasRole('" + name + "')";
      SameRewrite(t, AnyRole, name, a, b);
      var t1 := Rewrite(t, AnyRole, b);
      if name != "" && Free(name, '\'') {
        var k :| 0 <= k < |name| && CallStartsAt(name, k);
        CallStartsMatches(t, 9, name, k);
        RewriteShrinks(t, AnyRole, b);
      }
      SameRewrite(t1, Role, name, a, b);
      var t2 := Rewrite(t1, Role, b);
      SameElsewhere(t2, name, a, b);
      Unreadable(HasRole(name), a, b);
    }
  }

  /** The last two substitutions do not look at roles. */
  lemma SameElsewhere(s: string, name: string, a: Context, b: Context)
    requires Apart(a, b, name) && a.permissions == b.permissions
    ensures Rewrite(Rewrite(s, Permission, a), Authenticated, a) == Rewrite(Rewrite(s, Permission, b), Authenticated, b)
  {
    AnswersAlike(s, Permission, a, b);
    SameRewrite(Rewrite(s, Permission, b), Authenticated, name, a, b);
  }

  /** A rule that answers alike rewrites alike. */
  lemma {:induction false} AnswersAlike(s: string, rule: Rule, a: Context, b: Context)
    requires forall arg :: Answer(rule, arg, a) == Answer(rule, arg, b)
    ensures Rewrite(s, rule, a) == Rewrite(s, rule, b)
    decreases |s|
  {
    hide At, Answer, Opening;
    if s != "" {
      AtAlike(s, rule, a, b);
      var hit := At(s, rule, a);
      AnswersAlike(if hit.Some? then s[hit.value.length..] else s[1..], rule, a, b);
    }
  }

  lemma AtAlike(s: string, rule: Rule, a: Context, b: Context)
    requires forall arg :: Answer(rule, arg, a) == Answer(rule, arg, b)
    ensures At(s, rule, a) == At(s, rule, b)
  {
    hide Answer, Shown, Opening, Run;
  }

  /** For instance this role is not: its text is cut to `hasRole('False`. */
  lemma MisreadRole()
    ensures !Reads(HasRole("hasAnyRole(x"))
  {
    assert CallStartsAt("hasAnyRole(x", 0);
    assert CallStarts("hasAnyRole(x");
    RoleReadsIff("hasAnyRole(x");
  }

  /** When the third substitution cannot answer about `name`, neither can the evaluation. */
  lemma SameSubstitute(t: string, name: string, a: Context, b: Context)
    requires a.roles == b.roles && Apart(a, b, name)
    requires Blind(Rewrite(Rewrite(t, AnyRole, b), Role, b), Permission, name)
    ensures Substitute(t, a) == Substitute(t, b)
  {
    hide Rewrite;
    AnswersAlike(t, AnyRole, a, b);
    AnswersAlike(Rewrite(t, AnyRole, b), Role, a, b);
    var t2 := Rewrite(Rewrite(t, AnyRole, b), Role, b);
    SameRewrite(t2, Permission, name, a, b);
    SameRewrite(Rewrite(t2, Permission, b), Authenticated, name, a, b);
  }

  /** A permission check is read as itself, alone and before any other expression. */
  ghost predicate ReadsInCompany(name: string) {
    Reads(HasPermission(name)) && forall other :: WellNamed(other) ==> Reads(And(HasPermission(name), other))
  }

  lemma UnreadablePermission(name: string)
    requires name == "" || !Free(name, '\'') || CallStarts(name)
    ensures !Reads(HasPermission(name))
  {
    hide Reads, Rewrite, EvaluateExpression, StartsIn, CallStartsAt;
    var a, b := Context([], [name], false), NOBODY;
    var t := Render(HasPermission(name), 0);
    assert t == "hasPermission('" + name + "')";
    if name != "" && Free(name, '\'') {
      var k :| 0 <= k < |name| && CallStartsAt(name, k);
      CallStartsMatches(t, 15, name, k);
      RewriteShrinks(t, AnyRole, b);
      RewriteShrinks(Rewrite(t, AnyRole, b), Role, b);
    }
    SameSubstitute(t, name, a, b);
    Unreadable(HasPermission(name), a, b);
  }

  lemma RoleInside(name: string) returns (u: string)
    requires Free(name, '\'') && OpensRole(name)
    ensures Free(u, '\'') && |name| == |u| + 8
    ensures "hasPermission('" + name + "') and hasPermission(')x')" ==
      ("hasPermission('" + u) + (TextOf(Atom(Role, ") and hasPermission(")) + "x')")
  {
    u := name[..|name| - 8];
    assert name == u + "hasRole(";
    RoleText();
  }

  lemma RoleText()
    ensures "hasRole(" + "') and hasPermission(')x')" == TextOf(Atom(Role, ") and hasPermission(")) + "x')"
  {
  }

  /** The closing quote of a name that ends in `hasRole(` opens a role call, which the next quoted name may close. */
  lemma RoleOpened(name: string, ctx: Context)
    requires Free(name, '\'') && OpensRole(name)
    ensures |Rewrite("hasPermission('" + name + "') and hasPermission(')x')", Role, ctx)| < |name| + 17
  {
    hide Rewrite, Shown, Answer, Run, OpensRole, StartsIn;
    var u := RoleInside(name);
    var p, hit, rest := "hasPermission('" + u, TextOf(Atom(Role, ") and hasPermission(")), "x')";
    PermissionPrefix(u, hit + rest);
    RewriteSkips(p, hit + rest, Role, ctx);
    AtomHit(Role, ") and hasPermission(", rest, ctx);
    RewriteHits(hit, rest, Role, Shown(Answer(Role, ") and hasPermission(", ctx)), ctx);
    RewriteShrinks(rest, Role, ctx);
    ShownLength(Answer(Role, ") and hasPermission(", ctx));
  }

  lemma ShownLength(b: bool)
    ensures |Shown(b)| <= 5
  {
  }

  lemma PermissionPrefix(u: string, rest: string)
    requires Free(u, '\'') && rest != "" && rest[0] == 'h' && |rest| > 8 && rest[..9] == "hasRole('"
    ensures var p := "hasPermission('" + u; forall k :: 0 <= k < |p| ==> !StartsIn(p, rest, k, Role)
  {
    hide StartsIn;
    var p := "hasPermission('" + u;
    forall k | 0 <= k < |p| ensures !StartsIn(p, rest, k, Role) {
      if k == 0 {
        Mismatch(p, rest, k, Role, 3);
      } else if k < 15 {
        Mismatch(p, rest, k, Role, 0);
      } else {
        QuoteTooFar(p, rest, k);
      }
    }
  }

  /** Eight characters on there is no quote. */
  lemma QuoteTooFar(p: string, rest: string, k: nat)
    requires k < |p| && Free(p[k..], '\'') && |rest| > 8 && rest[..9] == "hasRole('"
    ensures !StartsIn(p, rest, k, Role)
  {
    hide Answer, Run;
    var s := (p + rest)[k..];
    if |p| - k <= 8 {
      assert s[8] == rest[8 - (|p| - k)];
      assert rest[8 - (|p| - k)] == rest[..9][8 - (|p| - k)] != '\'';
    } else {
      assert s[8] == p[k..][8];
    }
  }

  lemma NoEarlierCall(name: string, ctx: Context)
    requires ArgumentFits(Role, name)
    ensures var t := "hasPermission('" + name + "') and hasPermission(')x')"; Rewrite(t, AnyRole, ctx) == t
  {
    hide Rewrite, Text, CallStarts, OpensRole;
    var t := "hasPermission('" + name + "') and hasPermission(')x')";
    var ls := [Atom(Permission, name), Plain(Op(true)), Atom(Permission, ")x")];
    NoCallInShort(")x");
    RewriteText(ls, AnyRole, ctx);
    assert AllApplied(ls, AnyRole, ctx) == ls;
    PairText(name);
  }

  lemma PairText(name: string)
    ensures Text([Atom(Permission, name), Plain(Op(true)), Atom(Permission, ")x")]) ==
      "hasPermission('" + name + "') and hasPermission(')x')"
  {
    hide Text;
    TextJoined([Atom(Permission, name)], Plain(Op(true)), [Atom(Permission, ")x")]);
    TextOne(Atom(Permission, name));
    TextOne(Atom(Permission, ")x"));
    assert [Atom(Permission, name)] + [Plain(Op(true))] + [Atom(Permission, ")x")] ==
      [Atom(Permission, name), Plain(Op(true)), Atom(Permission, ")x")];
  }

  lemma NoCallInShort(name: string)
    requires |name| < 8
    ensures !CallStarts(name) && !OpensRole(name)
  {
  }

  /** Permission names need one thing more: their end must not open a role call. */
  lemma PermissionReadsIff(name: string)
    ensures ReadsInCompany(name) <==> ArgumentFits(Permission, name)
  {
    hide Reads, Rewrite, EvaluateExpression, StartsIn, CallStarts, OpensRole;
    if ArgumentFits(Permission, name) {
      WellNamedReads(HasPermission(name));
      forall other | WellNamed(other) ensures Reads(And(HasPermission(name), other)) {
        WellNamedReads(And(HasPermission(name), other));
      }
    } else if name == "" || !Free(name, '\'') || CallStarts(name) {
      UnreadablePermission(name);
    } else {
      var other := HasPermission(")x");
      var e := And(HasPermission(name), other);
      var a, b := Context([], [name, ")x"], false), Context([], [")x"], false);
      var t := Render(e, 0);
      assert t == "hasPermission('" + name + "') and hasPermission(')x')" by { RenderedPair(name, ")x"); }
      NoEarlierCall(name, b);
      RoleOpened(name, b);
      SameSubstitute(t, name, a, b);
      NotShort(name);
      Unreadable(e, a, b);
      NoCallInShort(")x");
      assert WellNamed(other) && !Reads(And(HasPermission(name), other));
    }
  }

  lemma NotShort(name: string)
    requires OpensRole(name)
    ensures name != ")x"
  {
  }

  lemma RenderedPair(name: string, other: string)
    ensures Render(And(HasPermission(name), HasPermission(other)), 0) ==
      "hasPermission('" + name + "')" + " and " + ("hasPermission('" + other + "')")
  {
    assert Render(HasPermission(name), 1) == "hasPermission('" + name + "')";
    assert Render(HasPermission(other), 2) == "hasPermission('" + other + "')";
  }

  // ---- Lists of names ----

  /** What may follow a quote that `hasRole(` precedes: such a call can only be about `, `. */
  ghost predicate Harmless(s: string) {
    s == ")" || ", '" <= s || Free(s, '\'')
  }

  ghost predicate Tame(s: string)
    decreases |s|
  {
    s == "" || ((Opening(Role) <= s ==> Harmless(s[9..])) && Tame(s[1..]))
  }

  lemma {:induction false} TameSuffix(s: string, k: nat)
    requires Tame(s) && k <= |s|
    ensures Tame(s[k..])
    decreases k
  {
    hide Harmless;
    if k > 0 {
      TameSuffix(s[1..], k - 1);
      assert s[1..][k - 1..] == s[k..];
    } else {
      assert s[k..] == s;
    }
  }

  lemma TameNext(c: char, s: string)
    requires Tame(s) && (Opening(Role) <= [c] + s ==> Harmless(([c] + s)[9..]))
    ensures Tame([c] + s)
  {
    hide Harmless;
    assert ([c] + s)[1..] == s;
  }

  lemma TameShown(b: bool, s: string)
    requires Tame(s)
    ensures Tame(Shown(b) + s)
  {
    hide Tame;
    TameOther('e', s);
    if b {
      TameOther('u', ['e'] + s);
      TameOther('r', ['u'] + (['e'] + s));
      TameOther('T', ['r'] + (['u'] + (['e'] + s)));
      assert ['T'] + (['r'] + (['u'] + (['e'] + s))) == "True" + s;
    } else {
      TameOther('s', ['e'] + s);
      TameOther('l', ['s'] + (['e'] + s));
      TameOther('a', ['l'] + (['s'] + (['e'] + s)));
      TameOther('F', ['a'] + (['l'] + (['s'] + (['e'] + s))));
      assert ['F'] + (['a'] + (['l'] + (['s'] + (['e'] + s)))) == "False" + s;
    }
  }

  lemma TameOther(c: char, s: string)
    requires Tame(s) && c != 'h'
    ensures Tame([c] + s)
  {
    hide Tame, Harmless;
    assert ([c] + s)[0] != Opening(Role)[0];
    TameNext(c, s);
  }

  /** What no replacement puts there was there before, unchanged. */
  lemma {:induction false} RewriteCopies(s: string, p: string, rule: Rule, ctx: Context)
    requires p <= Rewrite(s, rule, ctx) && Free(p, 'T') && Free(p, 'F')
    ensures p <= s && Rewrite(s, rule, ctx)[|p|..] == Rewrite(s[|p|..], rule, ctx)
    decreases |p|
  {
    hide Answer, Opening;
    if p == "" {
      assert s[0..] == s && Rewrite(s, rule, ctx)[0..] == Rewrite(s, rule, ctx);
    } else {
      assert p[0] == Rewrite(s, rule, ctx)[0];
      RewriteStarts(s, rule, ctx);
      var u := Rewrite(s[1..], rule, ctx);
      assert Rewrite(s, rule, ctx)[1..] == u;
      assert p[1..] <= u;
      RewriteCopies(s[1..], p[1..], rule, ctx);
      assert s[1..][|p| - 1..] == s[|p|..];
    }
  }

  lemma RewriteStarts(s: string, rule: Rule, ctx: Context)
    requires var u := Rewrite(s, rule, ctx); u != "" && u[0] != 'T' && u[0] != 'F'
    ensures s != "" && s[0] == Rewrite(s, rule, ctx)[0] && Rewrite(s, rule, ctx) == [s[0]] + Rewrite(s[1..], rule, ctx)
  {
    hide Answer, Opening, Run;
  }

  lemma {:induction false} RewriteFree(s: string, rule: Rule, ctx: Context)
    requires Free(s, '\'')
    ensures Free(Rewrite(s, rule, ctx), '\'')
    decreases |s|
  {
    hide Answer, Opening, Run;
    if s != "" {
      var hit := At(s, rule, ctx);
      RewriteFree(if hit.Some? then s[hit.value.length..] else s[1..], rule, ctx);
    }
  }

  lemma HarmlessRewrite(s: string, ctx: Context)
    requires Harmless(s)
    ensures Harmless(Rewrite(s, AnyRole, ctx))
  {
    hide At;
    if Free(s, '\'') {
      RewriteFree(s, AnyRole, ctx);
    } else {
      var p := ", '";
      assert s == p + s[3..];
      forall k | 0 <= k < |p| ensures !StartsIn(p, s[3..], k, AnyRole) {
        Mismatch(p, s[3..], k, AnyRole, 0);
      }
      RewriteSkips(p, s[3..], AnyRole, ctx);
    }
  }

  /** The first substitution forms no new role calls. */
  lemma {:induction false} TameRewrite(s: string, ctx: Context)
    requires Tame(s)
    ensures Tame(Rewrite(s, AnyRole, ctx))
    decreases |s|
  {
    hide At, Harmless, Shown;
    if s != "" {
      var hit := At(s, AnyRole, ctx);
      if hit.Some? {
        TameSuffix(s, hit.value.length);
        TameRewrite(s[hit.value.length..], ctx);
        var b := HitShows(s, AnyRole, ctx);
        TameShown(b, Rewrite(s[hit.value.length..], AnyRole, ctx));
      } else {
        TameRewrite(s[1..], ctx);
        var u := Rewrite(s, AnyRole, ctx);
        if Opening(Role) <= u {
          RewriteCopies(s, Opening(Role), AnyRole, ctx);
          HarmlessRewrite(s[9..], ctx);
        }
        TameNext(s[0], Rewrite(s[1..], AnyRole, ctx));
      }
    }
  }

  lemma HitShows(s: string, rule: Rule, ctx: Context) returns (b: bool)
    requires At(s, rule, ctx).Some?
    ensures At(s, rule, ctx).value.text == Shown(b)
  {
    hide Shown, Answer, Opening;
    var rest := s[|Opening(rule)|..];
    b := Answer(rule, if rule.Authenticated? then "" else rest[..Run(rest, Stop(rule))], ctx);
  }

  lemma RunIs(s: string, n: nat, stop: char)
    requires n < |s| && s[n] == stop && forall i :: 0 <= i < n ==> s[i] != stop
    ensures Run(s, stop) == n
  {
  }

  lemma TameAt(s: string, name: string, a: Context, b: Context)
    requires Tame(s) && name != ", " && Apart(a, b, name)
    ensures At(s, Role, a) == At(s, Role, b)
  {
    hide Shown, Tame;
    if At(s, Role, a).Some? {
      var rest := s[9..];
      assert Harmless(rest) by { assert Opening(Role) <= s; TameHere(s); }
      if ", '" <= rest {
        RunIs(rest, 2, '\'');
        assert rest[..2] == ", ";
      }
    }
  }

  lemma TameHere(s: string)
    requires Tame(s) && Opening(Role) <= s
    ensures Harmless(s[9..])
  {
  }

  lemma {:induction false} TameSame(s: string, name: string, a: Context, b: Context)
    requires Tame(s) && name != ", " && Apart(a, b, name)
    ensures Rewrite(s, Role, a) == Rewrite(s, Role, b)
    decreases |s|
  {
    hide At, Apart, Harmless;
    if s != "" {
      TameAt(s, name, a, b);
      var hit := At(s, Role, a);
      var n := if hit.Some? then hit.value.length else 1;
      TameSuffix(s, n);
      TameSame(s[n..], name, a, b);
    }
  }

  lemma {:induction false} TameJoined(x: string, z: string)
    requires Free(x, '\'') && Tame(z) && (OpensRole(x) ==> Harmless(z))
    ensures Tame(x + "'" + z)
  {
    hide Harmless;
    var s := x + "'" + z;
    if x == "" {
      assert s == ['\''] + z;
      TameOther('\'', z);
    } else {
      assert |x| > 8 ==> x[|x| - 8..] == x[1..][|x| - 9..];
      TameJoined(x[1..], z);
      assert s == [x[0]] + (x[1..] + "'" + z);
      if Opening(Role) <= s {
        OpeningEnds(x, z);
      }
      TameNext(x[0], x[1..] + "'" + z);
    }
  }

  lemma OpeningEnds(x: string, z: string)
    requires Free(x, '\'') && Opening(Role) <= x + "'" + z
    ensures OpensRole(x) && (x + "'" + z)[9..] == z
  {
    var s := x + "'" + z;
    assert forall j :: 0 <= j < 9 ==> s[j] == Opening(Role)[j];
    assert s[|x|] == '\'' && s[8] == '\'';
    assert forall j :: 0 <= j < |x| ==> s[j] == x[j];
    assert |x| == 8;
    assert x == s[..8];
  }

  /** The list after its first quote. */
  function Body(names: seq<string>): string
    requires names != []
  {
    names[0] + "'" + (if |names| == 1 then ")" else ", " + "'" + Body(names[1..]))
  }

  lemma {:induction false} ListText(names: seq<string>)
    requires names != []
    ensures Arguments(names) + ")" == "'" + Body(names)
  {
    var name, quote, comma, close := names[0], "'", ", ", ")";
    if |names| == 1 {
      Regrouped(quote, name, quote, close);
    } else {
      var others := Arguments(names[1..]);
      ListText(names[1..]);
      assert "', " == quote + comma;
      Relisted(quote, name, comma, others, close);
    }
  }

  lemma Relisted(quote: string, name: string, comma: string, others: string, close: string)
    ensures quote + name + (quote + comma) + others + close == quote + (name + quote + (comma + (others + close)))
    ensures comma + (quote + others) == comma + quote + others
  {
  }

  lemma {:induction false} TameBody(names: seq<string>)
    requires names != [] && forall i :: 0 <= i < |names| ==> Free(names[i], '\'')
    ensures Tame(Body(names))
  {
    hide Tame;
    if |names| == 1 {
      TameNext(')', "") by { TameNothing(); }
      assert [')'] + "" == ")";
      TameJoined(names[0], ")");
    } else {
      TameBody(names[1..]);
      TameJoined(", ", Body(names[1..]));
      assert ", '" <= ", " + "'" + Body(names[1..]);
      TameJoined(names[0], ", " + "'" + Body(names[1..]));
    }
  }

  lemma TameNothing()
    ensures Tame("")
  {
  }

  /** In a list of names without quotes no role call is about a name. */
  lemma TameList(names: seq<string>)
    requires names != [] && forall i :: 0 <= i < |names| ==> Free(names[i], '\'')
    ensures Tame(Render(HasAnyRole(names), 0))
  {
    hide Tame, Body;
    ListText(names);
    TameBody(names);
    TameJoined("hasAnyRole(", Body(names));
    assert "hasAnyRole(" + Arguments(names) + ")" == "hasAnyRole(" + (Arguments(names) + ")") == "hasAnyRole(" + "'" + Body(names);
  }

  lemma NoCallLeft(rule: Rule, ctx: Context)
    ensures Rewrite("hasAnyRole()", rule, ctx) == "hasAnyRole()"
  {
    hide Rewrite, StartsIn;
    var p := "hasAnyRole()";
    forall k | 0 <= k < |p| ensures !StartsIn(p, "", k, rule) {
      if k > 0 || rule.Authenticated? {
        Mismatch(p, "", k, rule, 0);
      } else if rule.AnyRole? {
        EmptyCall(p, "", 0);
      } else {
        Mismatch(p, "", 0, rule, 3);
      }
    }
    RewriteSkips(p, "", rule, ctx);
    RewriteNothing(rule, ctx);
  }

  lemma RewriteNothing(rule: Rule, ctx: Context)
    ensures Rewrite("", rule, ctx) == "" && "hasAnyRole()" + "" == "hasAnyRole()"
  {
  }

  lemma EmptyListText()
    ensures Tokens(Words(SpaceParentheses("hasAnyRole()"))) == None
  {
    hide SpaceParentheses, Words;
    var rest := SpaceParentheses("()");
    assert "hasAnyRole()" == "hasAnyRole" + "()" && "()" == ['('] + ")";
    SpaceConcat("hasAnyRole", "()");
    SpaceNothing("hasAnyRole");
    SpaceCons('(', ")");
    assert rest[0] == ' ';
    WordsWord("hasAnyRole", rest);
  }

  lemma EmptyListUnread()
    ensures !Reads(HasAnyRole([]))
  {
    hide Rewrite, SpaceParentheses, Words, Tokens, SafeBoolEval;
    assert Render(HasAnyRole([]), 0) == "hasAnyRole()";
    forall rule ensures Rewrite("hasAnyRole()", rule, NOBODY) == "hasAnyRole()" { NoCallLeft(rule, NOBODY); }
    EmptyListText();
    assert EvaluateExpression("hasAnyRole()", NOBODY) == Err(Invalid);
  }

  /** A list is read as itself exactly when there are names and none is empty or holds a quote or a closing parenthesis. */
  lemma ListedRoleReadsIff(names: seq<string>)
    ensures Reads(HasAnyRole(names)) <==>
      names != [] && forall i :: 0 <= i < |names| ==> names[i] != "" && Free(names[i], '\'') && Free(names[i], ')')
  {
    hide Reads, Rewrite, EvaluateExpression, Quoted, At, Tame, Render, Free;
    var e := HasAnyRole(names);
    if names == [] {
      EmptyListUnread();
    } else if i :| 0 <= i < |names| && (names[i] == "" || !Free(names[i], '\'')) {
      UnreadableInList(names, i);
    } else if i :| 0 <= i < |names| && !Free(names[i], ')') {
      UnreadableInList(names, i);
    } else {
      WellNamedReads(e);
    }
  }

  lemma UnreadableInList(names: seq<string>, i: nat)
    requires i < |names|
    requires
      || names[i] == "" || !Free(names[i], '\'')
      || (!Free(names[i], ')') && forall j :: 0 <= j < |names| ==> Free(names[j], '\''))
    ensures !Reads(HasAnyRole(names))
  {
    hide Reads, Rewrite, EvaluateExpression, Quoted, At, Tame, Render;
    var e, name := HasAnyRole(names), names[i];
    var a, b := Context([name], [], false), NOBODY;
    var t := Render(e, 0);
    SameRewrite(t, AnyRole, name, a, b);
    var t1 := Rewrite(t, AnyRole, b);
    if name == "" || !Free(name, '\'') {
      SameRewrite(t1, Role, name, a, b);
    } else {
      TameList(names);
      TameRewrite(t, b);
      TameSame(t1, name, a, b);
    }
    SameElsewhere(Rewrite(t1, Role, b), name, a, b);
    assert names[i] in a.roles;
    Unreadable(e, a, b);
  }
}
