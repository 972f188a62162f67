/** Resolution of `${...}` placeholders with a recursion bound. */
module Placeholders {
  import opened Wrappers
  import opened Strings
  import ConfigTree

  /** The environment, the configuration tree, and how a mapping prints. */
  datatype World = World(
    env: map<string, string>, data: ConfigTree.Tree, show: map<string, ConfigTree.Tree> -> string)

  /** The ValueErrors: too many hops, or a reference found nowhere. */
  datatype Failure = TooDeep | Unresolved(inner: string)

  type Res = Result<string, Failure>

  const MAX_DEPTH := 10

  // ---- The placeholder pattern `\$\{([^}]+)\}` ----

  datatype Piece = Text(c: char) | Ref(inner: string)

  /** Up to the first closing brace, if there is one. */
  function UpToBrace(s: string): Option<string> {
    if s == "" then None
    else if s[0] == '}' then Some("")
    else match UpToBrace(s[1..])
      case None => None
      case Some(t) => Some([s[0]] + t)
  }

  lemma {:induction false} UpToBraceFits(s: string)
    ensures UpToBrace(s).Some? ==> |UpToBrace(s).value| < |s|
  {
    if s != "" { UpToBraceFits(s[1..]); }
  }

  /** The reference that starts here, if the pattern matches here. */
  function RefHere(s: string): (r: Option<string>)
    ensures r.Some? ==> r.value != "" && |r.value| + 3 <= |s|
  {
    if |s| >= 2 && s[0] == '$' && s[1] == '{' then
      UpToBraceFits(s[2..]);
      var inner := UpToBrace(s[2..]);
      if inner.Some? && inner.value != "" then inner else None
    else None
  }

  /** The non-overlapping matches, left to right, with the text between them. */
  function Pieces(s: string): seq<Piece>
    decreases |s|
  {
    if s == "" then []
    else match RefHere(s)
      case Some(inner) => [Ref(inner)] + Pieces(s[|inner| + 3..])
      case None => [Text(s[0])] + Pieces(s[1..])
  }

  /** `"${" in s` */
  predicate HasMarker(s: string) {
    exists i :: 0 <= i < |s| - 1 && s[i] == '$' && s[i + 1] == '{'
  }

  /** `inner.split(":", 1)`, when there is a colon. */
  function SplitDefault(inner: string): (string, Option<string>) {
    if inner == "" then ("", None)
    else if inner[0] == ':' then ("", Some(inner[1..]))
    else
      var (key, default) := SplitDefault(inner[1..]);
      ([inner[0]] + key, default)
  }

  /** `str()` of the configuration value a reference names; None when it is missing. */
  function ConfigText(w: World, key: string): Option<string> {
    match ConfigTree.Lookup(w.data, Split(key, '.'))
    case None => None
    case Some(Null) => None
    case Some(Scalar(text)) => Some(text)
    case Some(Node(children)) => Some(w.show(children))
  }

  /** Where a reference leads, the environment first. */
  datatype Target =
    | Plain(text: string)
    | Nested(text: string)
    | Missing

  function Follow(w: World, inner: string): Target {
    var (key, default) := SplitDefault(inner);
    if key in w.env then Plain(w.env[key])
    else match ConfigText(w, key)
      case Some(text) => if HasMarker(text) then Nested(text) else Plain(text)
      case None => if default.Some? then Plain(default.value) else Missing
  }

  /** `_resolve_placeholders` */
  function Resolve(w: World, value: string, depth: nat): Res
    decreases MAX_DEPTH + 1 - depth, 1, 0
  {
    if depth > MAX_DEPTH then Err(TooDeep) else ReplaceAll(w, Pieces(value), depth)
  }

  /** `re.sub`: replace the matches from left to right; the first failure wins. */
  function ReplaceAll(w: World, pieces: seq<Piece>, depth: nat): Res
    requires depth <= MAX_DEPTH
    decreases MAX_DEPTH + 1 - depth, 0, |pieces|
  {
    if pieces == [] then Ok("")
    else
      match Replace(w, pieces[0], depth)
      case Err(e) => Err(e)
      case Ok(t) =>
        match ReplaceAll(w, pieces[1..], depth)
        case Err(e) => Err(e)
        case Ok(rest) => Ok(t + rest)
  }

  function Replace(w: World, piece: Piece, depth: nat): Res
    requires depth <= MAX_DEPTH
    decreases MAX_DEPTH + 1 - depth, 0, 0
  {
    match piece
    case Text(c) => Ok([c])
    case Ref(inner) =>
      match Follow(w, inner)
      case Plain(text) => Ok(text)
      case Nested(text) => Resolve(w, text, depth + 1)
      case Missing => Err(Unresolved(inner))
  }

  // ---- Substitution without a bound ----

  /** A finished substitution: what every piece of a value was replaced by. */
  datatype Expansion = Expansion(parts: seq<Part>)
  datatype Part = Direct(text: string) | Deeper(expansion: Expansion)

  /** `e` replaces every reference of `value`, to whatever depth that takes. */
  predicate Expands(w: World, value: string, e: Expansion)
    decreases e, 1
  {
    ExpandsAll(w, Pieces(value), e.parts)
  }

  predicate ExpandsAll(w: World, pieces: seq<Piece>, parts: seq<Part>)
    decreases parts, 0
  {
    |pieces| == |parts| && (pieces != [] ==> ExpandsPiece(w, pieces[0], parts[0]) && ExpandsAll(w, pieces[1..], parts[1..]))
  }

  predicate ExpandsPiece(w: World, piece: Piece, part: Part)
    decreases part, 0
  {
    match piece
    case Text(c) => part == Direct([c])
    case Ref(inner) =>
      match Follow(w, inner)
      case Plain(text) => part == Direct(text)
      case Nested(text) => part.Deeper? && Expands(w, text, part.expansion)
      case Missing => false
  }

  function Result(e: Expansion): string
    decreases e, 1
  {
    ResultAll(e.parts)
  }

  function ResultAll(parts: seq<Part>): string
    decreases parts, 0
  {
    if parts == [] then ""
    else ResultPart(parts[0]) + ResultAll(parts[1..])
  }

  function ResultPart(part: Part): string
    decreases part, 0
  {
    if part.Direct? then part.text else Result(part.expansion)
  }

  /** How many values deep the substitution goes. */
  function Levels(e: Expansion): nat
    decreases e, 1
  {
    1 + LevelsAll(e.parts)
  }

  function LevelsAll(parts: seq<Part>): nat
    decreases parts, 0
  {
    if parts == [] then 0
    else Max(LevelsPart(parts[0]), LevelsAll(parts[1..]))
  }

  function LevelsPart(part: Part): nat
    decreases part, 0
  {
    if part.Direct? then 0 else Levels(part.expansion)
  }

  /** A value has at most one substitution. */
  lemma {:induction false} ExpansionUnique(w: World, value: string, e: Expansion, f: Expansion)
    requires Expands(w, value, e) && Expands(w, value, f)
    ensures e == f
    decreases e, 1
  {
    ExpansionAllUnique(w, Pieces(value), e.parts, f.parts);
  }

  lemma {:induction false} ExpansionAllUnique(w: World, pieces: seq<Piece>, p: seq<Part>, q: seq<Part>)
    requires ExpandsAll(w, pieces, p) && ExpandsAll(w, pieces, q)
    ensures p == q
    decreases p, 0
  {
    hide Follow, Pieces;
    if pieces != [] {
      ExpansionAllUnique(w, pieces[1..], p[1..], q[1..]);
      ExpansionPieceUnique(w, pieces[0], p[0], q[0]);
      assert p == [p[0]] + p[1..] && q == [q[0]] + q[1..];
    }
  }

  lemma {:induction false} ExpansionPieceUnique(w: World, piece: Piece, p: Part, q: Part)
    requires ExpandsPiece(w, piece, p) && ExpandsPiece(w, piece, q)
    ensures p == q
    decreases p, 0
  {
    hide Follow;
    if p.Deeper? {
      ExpansionUnique(w, Follow(w, piece.inner).text, p.expansion, q.expansion);
    }
  }

  /** What resolution returns is the substitution, and it fits the remaining depth. */
  lemma {:induction false} ResolveSound(w: World, value: string, depth: nat) returns (e: Expansion)
    requires Resolve(w, value, depth).Ok?
    ensures Expands(w, value, e) && Result(e) == Resolve(w, value, depth).value
    ensures Levels(e) <= MAX_DEPTH + 1 - depth
    decreases MAX_DEPTH + 1 - depth, 1, 0
  {
    hide Follow, Pieces;
    var parts := ReplaceAllSound(w, Pieces(value), depth);
    e := Expansion(parts);
  }

  lemma {:induction false} ReplaceAllSound(w: World, pieces: seq<Piece>, depth: nat) returns (parts: seq<Part>)
    requires depth <= MAX_DEPTH && ReplaceAll(w, pieces, depth).Ok?
    ensures ExpandsAll(w, pieces, parts) && ResultAll(parts) == ReplaceAll(w, pieces, depth).value
    ensures LevelsAll(parts) <= MAX_DEPTH - depth
    decreases MAX_DEPTH + 1 - depth, 0, |pieces|
  {
    hide Follow, Pieces;
    if pieces == [] {
      parts := [];
    } else {
      var rest := ReplaceAllSound(w, pieces[1..], depth);
      var first := Direct(Replace(w, pieces[0], depth).value);
      if pieces[0].Ref? && Follow(w, pieces[0].inner).Nested? {
        var e := ResolveSound(w, Follow(w, pieces[0].inner).text, depth + 1);
        first := Deeper(e);
      }
      parts := [first] + rest;
      assert parts[1..] == rest;
    }
  }

  /** Every substitution that fits the remaining depth is found. */
  lemma {:induction false} ResolveComplete(w: World, value: string, depth: nat, e: Expansion)
    requires Expands(w, value, e) && Levels(e) + depth <= MAX_DEPTH + 1
    ensures Resolve(w, value, depth) == Ok(Result(e))
    decreases e, 1
  {
    ReplaceAllComplete(w, Pieces(value), depth, e.parts);
  }

  lemma {:induction false} ReplaceAllComplete(w: World, pieces: seq<Piece>, depth: nat, parts: seq<Part>)
    requires depth <= MAX_DEPTH && ExpandsAll(w, pieces, parts) && LevelsAll(parts) + depth <= MAX_DEPTH
    ensures ReplaceAll(w, pieces, depth) == Ok(ResultAll(parts))
    decreases parts, 0
  {
    hide Follow, Pieces;
    if pieces != [] {
      ReplaceAllComplete(w, pieces[1..], depth, parts[1..]);
      ReplaceComplete(w, pieces[0], depth, parts[0]);
    }
  }

  lemma {:induction false} ReplaceComplete(w: World, piece: Piece, depth: nat, part: Part)
    requires depth <= MAX_DEPTH && ExpandsPiece(w, piece, part) && LevelsPart(part) + depth <= MAX_DEPTH
    ensures Replace(w, piece, depth) == Ok(ResultPart(part))
    decreases part, 0
  {
    hide Follow;
    if part.Deeper? {
      ResolveComplete(w, Follow(w, piece.inner).text, depth + 1, part.expansion);
    }
  }

  /** Resolution returns `s` exactly when the unbounded substitution is `s` and fits the bound. */
  lemma ResolveIsSubstitution(w: World, value: string, depth: nat, s: string)
    ensures Resolve(w, value, depth) == Ok(s) <==>
            exists e :: Expands(w, value, e) && Result(e) == s && Levels(e) + depth <= MAX_DEPTH + 1
  {
    hide Resolve, Expands, Result, Levels;
    if Resolve(w, value, depth) == Ok(s) {
      var e := ResolveSound(w, value, depth);
    }
    if e :| Expands(w, value, e) && Result(e) == s && Levels(e) + depth <= MAX_DEPTH + 1 {
      ResolveComplete(w, value, depth, e);
    }
  }

  /** So the depth it starts at decides whether it returns, never what it returns. */
  lemma DepthIrrelevant(w: World, value: string, d1: nat, d2: nat)
    requires Resolve(w, value, d1).Ok? && Resolve(w, value, d2).Ok?
    ensures Resolve(w, value, d1) == Resolve(w, value, d2)
  {
    hide Resolve, Expands, Result, Levels;
    var e := ResolveSound(w, value, d1);
    var f := ResolveSound(w, value, d2);
    ExpansionUnique(w, value, e, f);
  }

  // ---- Which values resolve, read off the references alone ----

  /** One hop: some reference of `value`, not overridden by the environment, leads to `next`. */
  ghost predicate Hop(w: World, value: string, next: string) {
    exists i :: 0 <= i < |Pieces(value)| && Pieces(value)[i].Ref? && Follow(w, Pieces(value)[i].inner) == Nested(next)
  }

  /** Every reference of `value` leads somewhere. */
  ghost predicate Defined(w: World, value: string) {
    forall i :: 0 <= i < |Pieces(value)| && Pieces(value)[i].Ref? ==> !Follow(w, Pieces(value)[i].inner).Missing?
  }

  ghost predicate HopPath(w: World, path: seq<string>) {
    forall i :: 0 <= i < |path| - 1 ==> Hop(w, path[i], path[i + 1])
  }

  /** A chain of hops from `value` that is too long, or that ends in an undefined reference. */
  ghost predicate Defect(w: World, value: string, levels: nat, path: seq<string>) {
    && path != [] && path[0] == value && HopPath(w, path)
    && (|path| == levels + 1 || (|path| <= levels && !Defined(w, path[|path| - 1])))
  }

  /** Either the value has a substitution within `levels`, or some chain of hops shows why not. */
  lemma {:induction false} ExpandsOrDefect(w: World, value: string, levels: nat) returns (e: Expansion, path: seq<string>)
    ensures (Expands(w, value, e) && Levels(e) <= levels) || Defect(w, value, levels, path)
    decreases levels, 1, 0
  {
    e, path := Expansion([]), [value];
    if levels > 0 && Defined(w, value) {
      var parts, bad, next := ExpandsAllOrDefect(w, value, 0, levels - 1);
      if bad == [] {
        assert Pieces(value)[0..] == Pieces(value);
        e := Expansion(parts);
      } else {
        path := [value] + bad;
      }
    }
  }

  lemma {:induction false} ExpandsAllOrDefect(w: World, value: string, i: nat, levels: nat)
    returns (parts: seq<Part>, path: seq<string>, next: string)
    requires Defined(w, value) && i <= |Pieces(value)|
    ensures path == [] ==> ExpandsAll(w, Pieces(value)[i..], parts) && LevelsAll(parts) <= levels
    ensures path != [] ==> Hop(w, value, next) && Defect(w, next, levels, path)
    decreases levels, 2, |Pieces(value)| - i
  {
    hide Follow, Pieces;
    parts, path, next := [], [], "";
    if i < |Pieces(value)| {
      var piece := Pieces(value)[i];
      var rest;
      rest, path, next := ExpandsAllOrDefect(w, value, i + 1, levels);
      if path != [] { return; }
      var first := Direct("");
      if piece.Text? {
        first := Direct([piece.c]);
      } else if Follow(w, piece.inner).Plain? {
        first := Direct(Follow(w, piece.inner).text);
      } else {
        next := Follow(w, piece.inner).text;
        assert Hop(w, value, next);
        var e, bad := ExpandsOrDefect(w, next, levels);
        if !(Expands(w, next, e) && Levels(e) <= levels) {
          path := bad;
          return;
        }
        first := Deeper(e);
      }
      parts := [first] + rest;
      assert parts[1..] == rest && Pieces(value)[i..][1..] == Pieces(value)[i + 1..];
    }
  }

  lemma {:induction false} PieceLevels(w: World, pieces: seq<Piece>, parts: seq<Part>, i: nat)
    requires ExpandsAll(w, pieces, parts) && i < |pieces|
    ensures ExpandsPiece(w, pieces[i], parts[i]) && LevelsPart(parts[i]) <= LevelsAll(parts)
  {
    hide ExpandsPiece, LevelsPart;
    if i > 0 { PieceLevels(w, pieces[1..], parts[1..], i - 1); }
  }

  /** A hop leads to a value with a strictly shallower substitution. */
  lemma HopDescends(w: World, value: string, next: string, e: Expansion) returns (f: Expansion)
    requires Expands(w, value, e) && Hop(w, value, next)
    ensures Expands(w, next, f) && Levels(f) < Levels(e)
  {
    hide Follow, Pieces;
    var i :| 0 <= i < |Pieces(value)| && Pieces(value)[i].Ref? && Follow(w, Pieces(value)[i].inner) == Nested(next);
    PieceLevels(w, Pieces(value), e.parts, i);
    f := e.parts[i].expansion;
  }

  lemma {:induction false} PathDescends(w: World, path: seq<string>, e: Expansion) returns (f: Expansion)
    requires path != [] && HopPath(w, path) && Expands(w, path[0], e)
    ensures Expands(w, path[|path| - 1], f) && Levels(f) + |path| <= Levels(e) + 1
  {
    hide Hop, Expands, Levels;
    f := e;
    if |path| > 1 {
      assert Hop(w, path[0], path[0 + 1]);
      var g := HopDescends(w, path[0], path[1], e);
      forall i | 0 <= i < |path[1..]| - 1 ensures Hop(w, path[1..][i], path[1..][i + 1]) {
        assert Hop(w, path[i + 1], path[i + 1 + 1]);
      }
      f := PathDescends(w, path[1..], g);
    }
  }

  lemma ExpandsDefined(w: World, value: string, e: Expansion)
    requires Expands(w, value, e)
    ensures Defined(w, value)
  {
    hide Follow, Pieces;
    forall i | 0 <= i < |Pieces(value)| && Pieces(value)[i].Ref? ensures !Follow(w, Pieces(value)[i].inner).Missing? {
      PieceLevels(w, Pieces(value), e.parts, i);
    }
  }

  lemma LevelsPositive(e: Expansion)
    ensures Levels(e) >= 1
  {
  }

  /**
   Resolution fails exactly when some chain of hops from the value is longer than the
   bound or ends in an undefined reference.
   */
  lemma FailsIffDefect(w: World, value: string, depth: nat, levels: nat)
    requires depth + levels == MAX_DEPTH + 1
    ensures Resolve(w, value, depth).Err? <==> exists path :: Defect(w, value, levels, path)
  {
    hide Resolve, Expands, Result, Levels, HopPath, Defined;
    if Resolve(w, value, depth).Err? {
      var e, path := ExpandsOrDefect(w, value, levels);
      if Expands(w, value, e) && Levels(e) <= levels {
        ResolveComplete(w, value, depth, e);
      }
    } else if path :| Defect(w, value, levels, path) {
      var e := ResolveSound(w, value, depth);
      var f := PathDescends(w, path, e);
      ExpandsDefined(w, path[|path| - 1], f);
      LevelsPositive(f);
    }
  }

  /** A value from which hops lead into a cycle never resolves, at any depth. */
  lemma CycleNeverResolves(w: World, path: seq<string>, i: nat, depth: nat)
    requires i < |path| - 1 && HopPath(w, path) && path[i] == path[|path| - 1]
    ensures Resolve(w, path[0], depth).Err?
  {
    hide Resolve, Expands, Result, Levels, Hop;
    if Resolve(w, path[0], depth).Ok? {
      var e := ResolveSound(w, path[0], depth);
      var f := PathDescends(w, path[..i + 1], e);
      var g := PathDescends(w, path[i..], f);
      ExpansionUnique(w, path[i], f, g);
    }
  }
}
