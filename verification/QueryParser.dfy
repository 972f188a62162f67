/** Derived query method names, parsed and printed back. */
module QueryParser {
  import opened Wrappers
  import opened Strings

  datatype Prefix = FindBy | CountBy | ExistsBy | DeleteBy
  datatype Connector = And | Or
  datatype Direction = Asc | Desc
  datatype Operator =
    | Eq | Gte | Lte | Gt | Lt | IsNotNull | IsNull | Containing | Between | Not | Like | In

  datatype FieldPredicate = FieldPredicate(field: string, operator: Operator)
  datatype OrderClause = OrderClause(field: string, direction: Direction)
  datatype Body = Body(predicates: seq<FieldPredicate>, connectors: seq<Connector>)
  datatype ParsedQuery = ParsedQuery(prefix: Prefix, body: Body, order: seq<OrderClause>)

  function PrefixText(p: Prefix): string {
    match p
    case FindBy => "find_by_"
    case CountBy => "count_by_"
    case ExistsBy => "exists_by_"
    case DeleteBy => "delete_by_"
  }

  function ConnectorText(c: Connector): (text: string)
    ensures |text| >= 4
  {
    if c.And? then "_and_" else "_or_"
  }

  function DirectionText(d: Direction): string {
    if d.Asc? then "asc" else "desc"
  }

  function Suffix(op: Operator): string {
    match op
    case Eq => ""
    case Gte => "_greater_than_equal"
    case Lte => "_less_than_equal"
    case Gt => "_greater_than"
    case Lt => "_less_than"
    case IsNotNull => "_is_not_null"
    case IsNull => "_is_null"
    case Containing => "_containing"
    case Between => "_between"
    case Not => "_not"
    case Like => "_like"
    case In => "_in"
  }

  /** The operator table, in the order it is tried. */
  const OPERATORS: seq<Operator> :=
    [Gte, Lte, Gt, Lt, IsNotNull, IsNull, Containing, Between, Not, Like, In]

  const PREFIXES: seq<Prefix> := [FindBy, CountBy, ExistsBy, DeleteBy]

  const MARKER := "_order_by_"

  predicate EndsWith(s: string, suffix: string) {
    |suffix| <= |s| && s[|s| - |suffix|..] == suffix
  }

  /** `text` occurs in `s` at `i`. */
  predicate At(s: string, i: nat, text: string) {
    i + |text| <= |s| && forall k :: 0 <= k < |text| ==> s[i + k] == text[k]
  }

  lemma AtSlice(s: string, i: nat, text: string)
    ensures At(s, i, text) <==> i + |text| <= |s| && s[i..i + |text|] == text
  {
  }

  lemma AtPrefix(s: string, n: nat, j: nat, text: string)
    requires n <= |s|
    ensures At(s[..n], j, text) <==> At(s, j, text) && j + |text| <= n
  {
  }

  // ---- One predicate: field and operator suffix ----

  lemma SuffixBack(s: string, suffix: string, k: nat)
    requires EndsWith(s, suffix) && 1 <= k <= |suffix|
    ensures s[|s| - k] == suffix[|suffix| - k]
  {
  }

  function Back(s: string, k: nat): char {
    if 1 <= k <= |s| then s[|s| - k] else ' '
  }

  /** The only operator whose suffix `s` can end with, told by a few of its last characters. */
  function OnlyOperator(s: string): Operator {
    if Back(s, 1) == 'g' then Containing
    else if Back(s, 1) == 't' then Not
    else if Back(s, 1) == 'e' then Like
    else if Back(s, 1) == 'n' then
      if Back(s, 3) == 'e' then Between
      else if Back(s, 3) == '_' then In
      else if Back(s, 6) == 'r' then Gt else Lt
    else if Back(s, 2) == 'a' then
      if Back(s, 12) == 'r' then Gte else Lte
    else if Back(s, 6) == 't' then IsNotNull else IsNull
  }

  lemma SuffixDecides(s: string, op: Operator)
    requires op != Eq && EndsWith(s, Suffix(op))
    ensures OnlyOperator(s) == op
  {
    hide EndsWith;
    var suffix := Suffix(op);
    SuffixBack(s, suffix, 1);
    SuffixBack(s, suffix, 2);
    SuffixBack(s, suffix, 3);
    if |suffix| >= 6 { SuffixBack(s, suffix, 6); }
    if |suffix| >= 12 { SuffixBack(s, suffix, 12); }
    SuffixLength(s, suffix);
  }

  lemma SuffixLength(s: string, suffix: string)
    requires EndsWith(s, suffix)
    ensures |suffix| <= |s|
  {
  }

  /** No operator suffix ends in another one, so the order of the table does not matter. */
  lemma SuffixUnique(s: string, a: Operator, b: Operator)
    requires a != Eq && EndsWith(s, Suffix(a))
    requires b != Eq && EndsWith(s, Suffix(b))
    ensures a == b
  {
    SuffixDecides(s, a);
    SuffixDecides(s, b);
  }

  function Strip(s: string, op: Operator): FieldPredicate
    requires EndsWith(s, Suffix(op))
  {
    FieldPredicate(s[..|s| - |Suffix(op)|], op)
  }

  /** `field[_operator]`, read. */
  function Single(s: string): FieldPredicate {
    var op := OnlyOperator(s);
    if EndsWith(s, Suffix(op)) then Strip(s, op) else FieldPredicate(s, Eq)
  }

  function PrintPredicate(p: FieldPredicate): string {
    p.field + Suffix(p.operator)
  }

  /** Whether the segment carries an operator suffix. */
  predicate HasSuffix(s: string) {
    exists op :: op in OPERATORS && EndsWith(s, Suffix(op))
  }

  lemma SingleIsStrip(s: string, op: Operator)
    requires op != Eq && EndsWith(s, Suffix(op))
    ensures Single(s) == Strip(s, op)
  {
    hide EndsWith, Suffix, OnlyOperator;
    SuffixDecides(s, op);
  }

  lemma OperatorsListed(op: Operator)
    ensures op != Eq ==> op in OPERATORS
    ensures Eq !in OPERATORS
    ensures forall s :: OnlyOperator(s) != Eq
  {
  }

  method ParseSinglePredicate(segment: string) returns (p: FieldPredicate)
    ensures p == Single(segment)
  {
    hide EndsWith, Suffix, OnlyOperator;
    for i := 0 to |OPERATORS|
      invariant forall k :: 0 <= k < i ==> !EndsWith(segment, Suffix(OPERATORS[k]))
    {
      var op := OPERATORS[i];
      if EndsWith(segment, Suffix(op)) {
        OperatorsListed(op);
        SingleIsStrip(segment, op);
        return Strip(segment, op);
      }
    }
    OperatorsListed(OnlyOperator(segment));
    return FieldPredicate(segment, Eq);
  }

  lemma SinglePrints(s: string)
    ensures PrintPredicate(Single(s)) == s
  {
  }

  lemma EqHasNoSuffix()
    ensures Suffix(Eq) == ""
  {
  }

  /** A printed predicate reads back as itself, unless a plain field looks like it has an operator. */
  lemma PrintedSingle(p: FieldPredicate)
    ensures Single(PrintPredicate(p)) == p <==> (p.operator == Eq ==> !HasSuffix(p.field))
  {
    hide OnlyOperator, Suffix;
    var s := PrintPredicate(p);
    EqHasNoSuffix();
    if p.operator == Eq {
      assert s == p.field;
      if HasSuffix(s) {
        var op :| op in OPERATORS && EndsWith(s, Suffix(op));
        OperatorsListed(op);
        SingleIsStrip(s, op);
      } else {
        OperatorsListed(OnlyOperator(s));
      }
    } else {
      assert s[|s| - |Suffix(p.operator)|..] == Suffix(p.operator);
      SingleIsStrip(s, p.operator);
    }
  }

  // ---- The body: predicates between connectors ----

  /** The connector that starts at `i`; no two can. */
  function ConnectorAt(s: string, i: nat): Option<Connector> {
    if At(s, i, "_and_") then Some(And) else if At(s, i, "_or_") then Some(Or) else None
  }

  /** The position of the first connector at or after `i`, or the end. */
  function FirstConnector(s: string, i: nat): (r: nat)
    requires i <= |s|
    ensures i <= r <= |s|
    decreases |s| - i
  {
    if i == |s| || ConnectorAt(s, i).Some? then i else FirstConnector(s, i + 1)
  }

  lemma {:induction false} FirstConnectorIs(s: string, i: nat, r: nat)
    requires i <= r <= |s|
    requires forall j :: i <= j < r ==> ConnectorAt(s, j).None?
    requires r == |s| || ConnectorAt(s, r).Some?
    ensures FirstConnector(s, i) == r
    decreases |s| - i
  {
    hide ConnectorAt;
    if i < r {
      FirstConnectorIs(s, i + 1, r);
    }
  }

  lemma {:induction false} FirstConnectorFirst(s: string, i: nat)
    requires i <= |s|
    ensures forall j :: i <= j < FirstConnector(s, i) ==> ConnectorAt(s, j).None?
    ensures FirstConnector(s, i) < |s| ==> ConnectorAt(s, FirstConnector(s, i)).Some?
    decreases |s| - i
  {
    hide ConnectorAt;
    if i < |s| && ConnectorAt(s, i).None? {
      FirstConnectorFirst(s, i + 1);
    }
  }

  lemma ConnectorFits(s: string, i: nat)
    ensures ConnectorAt(s, i).Some? ==> At(s, i, ConnectorText(ConnectorAt(s, i).value))
    ensures ConnectorAt(s, i).Some? ==> i + |ConnectorText(ConnectorAt(s, i).value)| <= |s|
  {
  }

  /** `re.split(r"(_and_|_or_)", s)`: segments with the connector texts between them. */
  function SplitKeep(s: string): (parts: seq<string>)
    decreases |s|
  {
    var i := FirstConnector(s, 0);
    if i == |s| then [s]
    else
      FirstConnectorFirst(s, 0);
      ConnectorFits(s, i);
      var text := ConnectorText(ConnectorAt(s, i).value);
      [s[..i], text] + SplitKeep(s[i + |text|..])
  }

  /** What the split body means. */
  function ReadParts(s: string): (b: Body)
    ensures |b.predicates| == |b.connectors| + 1
    decreases |s|
  {
    var i := FirstConnector(s, 0);
    if i == |s| then Body([Single(s)], [])
    else
      FirstConnectorFirst(s, 0);
      ConnectorFits(s, i);
      var c := ConnectorAt(s, i).value;
      var rest := ReadParts(s[i + |ConnectorText(c)|..]);
      Body([Single(s[..i])] + rest.predicates, [c] + rest.connectors)
  }

  function ReadBody(s: string): (b: Body)
    ensures |b.predicates| == |b.connectors| + 1 || b == Body([], [])
  {
    if s == "" then Body([], []) else ReadParts(s)
  }

  /** The classification loop: connector texts are connectors, everything else is a predicate. */
  function Classify(parts: seq<string>): Body {
    if parts == [] then Body([], [])
    else
      var rest := Classify(parts[1..]);
      if parts[0] == "_and_" then Body(rest.predicates, [And] + rest.connectors)
      else if parts[0] == "_or_" then Body(rest.predicates, [Or] + rest.connectors)
      else Body([Single(parts[0])] + rest.predicates, rest.connectors)
  }

  lemma ClassifyCons(part: string, parts: seq<string>)
    ensures Classify([]) == Body([], [])
    ensures Classify([part] + parts) ==
            var rest := Classify(parts);
            if part == "_and_" then Body(rest.predicates, [And] + rest.connectors)
            else if part == "_or_" then Body(rest.predicates, [Or] + rest.connectors)
            else Body([Single(part)] + rest.predicates, rest.connectors)
  {
  }

  lemma {:induction false} ClassifySplit(s: string)
    ensures Classify(SplitKeep(s)) == ReadParts(s)
    decreases |s|
  {
    hide Single, Classify, ConnectorAt, FirstConnector, At, Clean;
    var i := FirstConnector(s, 0);
    FirstConnectorFirst(s, 0);
    if i == |s| {
      NotAToken(s);
      ClassifyCons(s, []);
      assert [s] == [s] + [];
    } else {
      ConnectorFits(s, i);
      var text := ConnectorText(ConnectorAt(s, i).value);
      ClassifySplit(s[i + |text|..]);
      SegmentClean(s, i);
      NotAToken(s[..i]);
      var tail := SplitKeep(s[i + |text|..]);
      ClassifyCons(s[..i], [text] + tail);
      ClassifyCons(text, tail);
      assert [s[..i], text] + tail == [s[..i]] + ([text] + tail);
    }
  }

  /** No connector starts anywhere in `s`. */
  ghost predicate Clean(s: string) {
    forall j :: 0 <= j < |s| ==> ConnectorAt(s, j).None?
  }

  lemma NotAToken(s: string)
    requires Clean(s)
    ensures s != "_and_" && s != "_or_"
  {
    assert s == "_and_" || s == "_or_" ==> ConnectorAt(s, 0).Some?;
  }

  /** Characters of a connector: underscores exactly at its ends. */
  lemma ConnectorChars(s: string, i: nat)
    requires ConnectorAt(s, i).Some?
    ensures var n := |ConnectorText(ConnectorAt(s, i).value)|;
            && 4 <= n && i + n <= |s| && s[i] == '_' && s[i + n - 1] == '_'
            && forall k :: i < k < i + n - 1 ==> s[k] != '_'
  {
    var text := ConnectorText(ConnectorAt(s, i).value);
    assert s[i + 0] == text[0] && s[i + 1] == text[1] && s[i + 2] == text[2] && s[i + 3] == text[3];
    assert |text| == 5 ==> s[i + 4] == text[4];
  }

  lemma NotBoth(s: string, i: nat)
    ensures At(s, i, "_or_") ==> !At(s, i, "_and_")
  {
    assert At(s, i, "_or_") ==> s[i + 1] == "_or_"[1];
    assert At(s, i, "_and_") ==> s[i + 1] == "_and_"[1];
  }

  /** A connector inside a prefix is one of the whole string that ends within the prefix. */
  lemma PrefixConnector(s: string, n: nat, j: nat)
    requires n <= |s|
    ensures ConnectorAt(s[..n], j).Some? ==> ConnectorAt(s, j) == ConnectorAt(s[..n], j) && j + 4 <= n
  {
    hide At;
    AtPrefix(s, n, j, "_and_");
    AtPrefix(s, n, j, "_or_");
    NotBoth(s, j);
  }

  lemma SegmentClean(s: string, i: nat)
    requires i < |s| && forall j :: 0 <= j < i ==> ConnectorAt(s, j).None?
    requires ConnectorAt(s, i).Some?
    ensures Clean(s[..i]) && Clean(s[..i] + "_")
  {
    hide ConnectorAt;
    ConnectorChars(s, i);
    var seg := s[..i + 1];
    assert s[..i] + "_" == seg;
    forall j | 0 <= j < i + 1 ensures ConnectorAt(seg, j).None? {
      PrefixConnector(s, i + 1, j);
    }
    forall j | 0 <= j < i ensures ConnectorAt(s[..i], j).None? {
      PrefixConnector(s, i, j);
    }
  }

  method ParsePredicates(body: string) returns (b: Body)
    ensures b == ReadBody(body)
  {
    hide Single, FirstConnector, ConnectorAt, ReadParts, SplitKeep;
    if body == "" {
      return Body([], []);
    }
    var parts := SplitKeep(body);
    var predicates: seq<FieldPredicate> := [];
    var connectors: seq<Connector> := [];
    for i := 0 to |parts|
      invariant Body(predicates + Classify(parts[i..]).predicates, connectors + Classify(parts[i..]).connectors) ==
                Classify(parts)
    {
      var part := parts[i];
      assert parts[i..][1..] == parts[i + 1..];
      if part == "_and_" {
        connectors := connectors + [And];
      } else if part == "_or_" {
        connectors := connectors + [Or];
      } else {
        var p := ParseSinglePredicate(part);
        predicates := predicates + [p];
      }
    }
    ClassifySplit(body);
    b := Body(predicates, connectors);
  }

  function PrintBody(b: Body): string
    requires |b.predicates| == |b.connectors| + 1 || b == Body([], [])
    decreases |b.predicates|
  {
    if b.predicates == [] then ""
    else if |b.predicates| == 1 then PrintPredicate(b.predicates[0])
    else
      PrintPredicate(b.predicates[0]) + ConnectorText(b.connectors[0]) +
      PrintBody(Body(b.predicates[1..], b.connectors[1..]))
  }

  lemma PrintBodyCons(p: FieldPredicate, c: Connector, rest: Body)
    requires |rest.predicates| == |rest.connectors| + 1
    ensures PrintBody(Body([p] + rest.predicates, [c] + rest.connectors)) ==
            PrintPredicate(p) + ConnectorText(c) + PrintBody(rest)
  {
  }

  /** Reading a body loses nothing: printing it gives the same characters back. */
  lemma {:induction false} BodyLossless(s: string)
    ensures PrintBody(ReadParts(s)) == s
    decreases |s|
  {
    hide Single, PrintPredicate, ConnectorAt, At, ConnectorText, PrintBody;
    var i := FirstConnector(s, 0);
    FirstConnectorFirst(s, 0);
    SinglePrints(s[..i]);
    PrintOne(Single(s[..i]));
    if i == |s| {
      assert s[..i] == s;
    } else {
      ConnectorFits(s, i);
      var c := ConnectorAt(s, i).value;
      var tail := s[i + |ConnectorText(c)|..];
      BodyLossless(tail);
      AtSlice(s, i, ConnectorText(c));
      PrintBodyCons(Single(s[..i]), c, ReadParts(tail));
      assert s == s[..i] + ConnectorText(c) + tail;
    }
  }

  lemma PrintOne(p: FieldPredicate)
    ensures PrintBody(Body([p], [])) == PrintPredicate(p)
  {
  }

  /** A plain field that does not look like it carries an operator. */
  ghost predicate Readable(p: FieldPredicate) {
    p.operator == Eq ==> !HasSuffix(p.field)
  }

  /** The bodies that print unambiguously: no connector inside a segment, nor across its end. */
  ghost predicate WellFormedParts(b: Body)
    decreases |b.predicates|
  {
    && |b.predicates| == |b.connectors| + 1
    && Readable(b.predicates[0])
    && (if b.connectors == [] then Clean(PrintPredicate(b.predicates[0]))
        else && Clean(PrintPredicate(b.predicates[0]) + "_")
             && WellFormedParts(Body(b.predicates[1..], b.connectors[1..])))
  }

  ghost predicate WellFormedBody(b: Body) {
    b == Body([], []) || (WellFormedParts(b) && PrintBody(b) != "")
  }

  lemma ConnectorHere(seg: string, c: Connector, rest: string)
    ensures ConnectorAt(seg + ConnectorText(c) + rest, |seg|) == Some(c)
  {
    var s, text := seg + ConnectorText(c) + rest, ConnectorText(c);
    assert At(s, |seg|, text);
    NotBoth(s, |seg|);
  }

  /** After a clean segment the first connector is the one that follows it. */
  lemma SegmentFirst(seg: string, c: Connector, rest: string)
    requires Clean(seg + "_")
    ensures FirstConnector(seg + ConnectorText(c) + rest, 0) == |seg| < |seg + ConnectorText(c) + rest|
    ensures ConnectorAt(seg + ConnectorText(c) + rest, |seg|) == Some(c)
  {
    hide ConnectorAt;
    var s := seg + ConnectorText(c) + rest;
    ConnectorHere(seg, c, rest);
    ConnectorChars(s, |seg|);
    assert s[..|seg| + 1] == seg + "_";
    forall j | 0 <= j < |seg| ensures ConnectorAt(s, j).None? {
      assert ConnectorAt(seg + "_", j).None?;
      if ConnectorAt(s, j).Some? {
        ConnectorChars(s, j);
        InsidePrefix(s, |seg| + 1, j);
      }
    }
    FirstConnectorIs(s, 0, |seg|);
  }

  lemma InsidePrefix(s: string, n: nat, j: nat)
    requires n <= |s| && ConnectorAt(s, j).Some?
    ensures j + |ConnectorText(ConnectorAt(s, j).value)| <= n ==> ConnectorAt(s[..n], j) == ConnectorAt(s, j)
  {
  }

  lemma CleanToTheEnd(s: string)
    requires Clean(s)
    ensures FirstConnector(s, 0) == |s|
  {
    FirstConnectorIs(s, 0, |s|);
  }

  lemma {:induction false} PartsRoundTrip(b: Body)
    requires WellFormedParts(b)
    ensures ReadParts(PrintBody(b)) == b
    decreases |b.predicates|
  {
    hide Single, PrintPredicate, ConnectorAt, HasSuffix, Clean, ConnectorText;
    var first := PrintPredicate(b.predicates[0]);
    PrintedSingle(b.predicates[0]);
    var s := PrintBody(b);
    if b.connectors == [] {
      CleanToTheEnd(s);
    } else {
      var c, tail := b.connectors[0], Body(b.predicates[1..], b.connectors[1..]);
      PartsRoundTrip(tail);
      SegmentFirst(first, c, PrintBody(tail));
      assert s[..|first|] == first && s[|first| + |ConnectorText(c)|..] == PrintBody(tail);
      assert b.predicates == [b.predicates[0]] + tail.predicates && b.connectors == [c] + tail.connectors;
    }
  }

  lemma {:induction false} ReadPartsWellFormed(s: string)
    ensures WellFormedParts(ReadParts(s))
    decreases |s|
  {
    hide Single, PrintPredicate, ConnectorAt, HasSuffix;
    var i := FirstConnector(s, 0);
    FirstConnectorFirst(s, 0);
    SinglePrints(s[..i]);
    PrintedSingle(Single(s[..i]));
    if i == |s| {
      assert s[..i] == s;
    } else {
      ConnectorFits(s, i);
      SegmentClean(s, i);
      var rest, b := ReadParts(s[i + |ConnectorText(ConnectorAt(s, i).value)|..]), ReadParts(s);
      ReadPartsWellFormed(s[i + |ConnectorText(ConnectorAt(s, i).value)|..]);
      assert b.predicates[1..] == rest.predicates && b.connectors[1..] == rest.connectors;
    }
  }

  /** A body reads back from its own printing exactly when it is well formed. */
  lemma BodyRoundTrip(b: Body)
    requires |b.predicates| == |b.connectors| + 1 || b == Body([], [])
    ensures ReadBody(PrintBody(b)) == b <==> WellFormedBody(b)
  {
    hide WellFormedParts, ReadParts;
    var s := PrintBody(b);
    if s != "" {
      if ReadParts(s) == b { ReadPartsWellFormed(s); }
      if WellFormedParts(b) { PartsRoundTrip(b); }
    }
  }

  // ---- The ordering suffix ----

  predicate IsDirection(word: string) {
    word == "asc" || word == "desc"
  }

  function DirectionOf(word: string): Direction {
    if word == "desc" then Desc else Asc
  }

  /** How many words the next field takes. */
  function FieldLength(words: seq<string>): (n: nat)
    ensures n <= |words|
    ensures forall k :: 0 <= k < n ==> !IsDirection(words[k])
    ensures n < |words| ==> IsDirection(words[n])
  {
    if words == [] || IsDirection(words[0]) then 0 else 1 + FieldLength(words[1..])
  }

  function ReadClauses(words: seq<string>): seq<OrderClause>
    decreases |words|
  {
    if words == [] then []
    else
      var n := FieldLength(words);
      var field := Join(words[..n], '_');
      var direction := if n < |words| then DirectionOf(words[n]) else Asc;
      var rest := ReadClauses(if n < |words| then words[n + 1..] else []);
      if field == "" then rest else [OrderClause(field, direction)] + rest
  }

  function ReadOrder(text: string): seq<OrderClause> {
    ReadClauses(Split(text, '_'))
  }

  /** The inner loop: gather words up to the next direction. */
  method TakeField(parts: seq<string>, start: nat) returns (fieldParts: seq<string>, i: nat)
    requires start <= |parts|
    ensures i == start + FieldLength(parts[start..]) <= |parts| && fieldParts == parts[start..i]
    ensures i < |parts| ==> IsDirection(parts[i])
  {
    hide IsDirection;
    fieldParts, i := [], start;
    while i < |parts| && !IsDirection(parts[i])
      invariant start <= i <= |parts|
      invariant fieldParts == parts[start..i]
      invariant FieldLength(parts[start..]) == i - start + FieldLength(parts[i..])
    {
      assert parts[i..][1..] == parts[i + 1..];
      fieldParts := fieldParts + [parts[i]];
      i := i + 1;
    }
  }

  lemma ReadClausesAt(parts: seq<string>, i: nat, n: nat)
    requires i < |parts| && n == FieldLength(parts[i..])
    ensures var next, field := i + n, Join(parts[i..i + n], '_');
            var direction := if next < |parts| then DirectionOf(parts[next]) else Asc;
            ReadClauses(parts[i..]) ==
            (if field == "" then [] else [OrderClause(field, direction)]) +
            ReadClauses(parts[if next < |parts| then next + 1 else next..])
  {
    hide Join, IsDirection, DirectionOf;
    var words := parts[i..];
    assert words[..n] == parts[i..i + n];
    assert n < |words| ==> words[n + 1..] == parts[i + n + 1..];
  }

  method ParseOrder(orderBody: string) returns (clauses: seq<OrderClause>)
    ensures clauses == ReadOrder(orderBody)
  {
    hide Join, Split, IsDirection, FieldLength, DirectionOf, ReadClauses;
    clauses := [];
    var parts := Split(orderBody, '_');
    assert parts[0..] == parts;
    var i := 0;
    while i < |parts|
      invariant 0 <= i <= |parts|
      invariant clauses + ReadClauses(parts[i..]) == ReadOrder(orderBody)
    {
      var fieldParts, next := TakeField(parts, i);
      ReadClausesAt(parts, i, next - i);
      var field := Join(fieldParts, '_');
      var direction := Asc;
      i := next;
      if i < |parts| && IsDirection(parts[i]) {
        direction := DirectionOf(parts[i]);
        i := i + 1;
      }
      if field != "" {
        clauses := clauses + [OrderClause(field, direction)];
      }
    }
    assert parts[i..] == [];
    NoClauses();
  }

  function PrintClauses(order: seq<OrderClause>): string {
    if order == [] then ""
    else
      order[0].field + "_" + DirectionText(order[0].direction) +
      if |order| == 1 then "" else "_" + PrintClauses(order[1..])
  }

  /** A named field none of whose words is a direction. */
  ghost predicate WellFormedClause(c: OrderClause) {
    c.field != "" && forall k :: 0 <= k < |Split(c.field, '_')| ==> !IsDirection(Split(c.field, '_')[k])
  }

  function Words(order: seq<OrderClause>): seq<string> {
    if order == [] then []
    else Split(order[0].field, '_') + [DirectionText(order[0].direction)] + Words(order[1..])
  }

  lemma DirectionWord(d: Direction)
    ensures Split(DirectionText(d), '_') == [DirectionText(d)] && Free(DirectionText(d), '\n')
    ensures IsDirection(DirectionText(d)) && DirectionOf(DirectionText(d)) == d
  {
    SplitFree(DirectionText(d), '_');
  }

  lemma {:induction false} PrintedWords(order: seq<OrderClause>)
    requires order != []
    ensures Split(PrintClauses(order), '_') == Words(order)
  {
    hide Split, IsDirection, DirectionText;
    var field, dir := order[0].field, DirectionText(order[0].direction);
    DirectionWord(order[0].direction);
    if |order| == 1 {
      SplitAt(field, '_', dir);
      assert field + "_" + dir + "" == field + "_" + dir;
      assert Words(order[1..]) == [];
    } else {
      PrintedWords(order[1..]);
      SplitAt(dir, '_', PrintClauses(order[1..]));
      SplitAt(field, '_', dir + "_" + PrintClauses(order[1..]));
      assert field + "_" + dir + ("_" + PrintClauses(order[1..])) == field + "_" + (dir + "_" + PrintClauses(order[1..]));
      assert Split(field, '_') + ([dir] + Words(order[1..])) == Split(field, '_') + [dir] + Words(order[1..]);
    }
  }

  lemma {:induction false} FieldLengthIs(words: seq<string>, n: nat)
    requires n <= |words| && forall k :: 0 <= k < n ==> !IsDirection(words[k])
    requires n < |words| ==> IsDirection(words[n])
    ensures FieldLength(words) == n
  {
  }

  lemma ReadClausesStep(field: seq<string>, word: string, rest: seq<string>)
    requires IsDirection(word) && forall k :: 0 <= k < |field| ==> !IsDirection(field[k])
    ensures ReadClauses(field + [word] + rest) ==
            (if Join(field, '_') == "" then [] else [OrderClause(Join(field, '_'), DirectionOf(word))]) + ReadClauses(rest)
  {
    hide Join, IsDirection, DirectionOf;
    var words, n := field + [word] + rest, |field|;
    FieldLengthIs(words, n);
    assert words[..n] == field && words[n + 1..] == rest;
  }

  lemma {:induction false} ClausesRoundTrip(order: seq<OrderClause>)
    requires forall i :: 0 <= i < |order| ==> WellFormedClause(order[i])
    ensures ReadClauses(Words(order)) == order
  {
    hide Split, Join, IsDirection, DirectionText, DirectionOf, ReadClauses;
    if order == [] {
      NoClauses();
    } else {
      ClausesRoundTrip(order[1..]);
      var c := order[0];
      assert WellFormedClause(c);
      DirectionWord(c.direction);
      ReadClausesStep(Split(c.field, '_'), DirectionText(c.direction), Words(order[1..]));
      JoinSplit(c.field, '_');
      assert order == [c] + order[1..];
    }
  }

  lemma NoClauses()
    ensures ReadClauses([]) == []
  {
  }

  lemma {:induction false} JoinKeepsFree(parts: seq<string>, sep: char, c: char)
    requires AllFree(parts, c) && sep != c
    ensures Free(Join(parts, sep), c)
  {
    if |parts| > 1 { JoinKeepsFree(parts[1..], sep, c); }
  }

  lemma {:induction false} SplitKeepsFree(s: string, sep: char, c: char)
    requires Free(s, c)
    ensures AllFree(Split(s, sep), c)
  {
    if s != "" { SplitKeepsFree(s[1..], sep, c); }
  }

  lemma FieldWellFormed(words: seq<string>, d: Direction)
    requires AllFree(words, '_') && forall k :: 0 <= k < |words| ==> !IsDirection(words[k])
    requires Join(words, '_') != ""
    ensures WellFormedClause(OrderClause(Join(words, '_'), d))
  {
    hide Split, Join, IsDirection;
    JoinNothing();
    SplitJoin(words, '_');
  }

  ghost predicate WellFormedOrder(order: seq<OrderClause>) {
    forall i :: 0 <= i < |order| ==> WellFormedClause(order[i]) && Free(order[i].field, '\n')
  }

  lemma {:induction false} ReadClausesWellFormed(words: seq<string>)
    requires AllFree(words, '_') && AllFree(words, '\n')
    ensures WellFormedOrder(ReadClauses(words))
    decreases |words|
  {
    hide Split, Join, IsDirection, Free, WellFormedClause, DirectionOf, ReadClauses, FieldLength;
    if words == [] {
      NoClauses();
    } else {
      var n := FieldLength(words);
      var d := if n < |words| then DirectionOf(words[n]) else Asc;
      assert words[0..] == words && words[0..0 + n] == words[..n];
      ReadClausesAt(words, 0, n);
      ReadClausesWellFormed(words[if n < |words| then n + 1 else n..]);
      JoinKeepsFree(words[..n], '_', '\n');
      if Join(words[..n], '_') != "" {
        FieldWellFormed(words[..n], d);
      }
    }
  }

  lemma JoinNothing()
    ensures Join([], '_') == ""
  {
  }

  // ---- Whole names ----

  /** What `(.+)$` captures of the text after the marker. */
  function OrderTail(t: string): Option<string> {
    if t != "" && '\n' !in t then Some(t)
    else if |t| > 1 && t[|t| - 1] == '\n' && '\n' !in t[..|t| - 1] then Some(t[..|t| - 1])
    else None
  }

  predicate MarkerMatches(s: string, i: nat) {
    At(s, i, MARKER) && OrderTail(s[i + |MARKER|..]).Some?
  }

  /** The leftmost match of the order-by pattern, or the end. */
  function FindOrder(s: string, i: nat): (r: nat)
    requires i <= |s|
    ensures i <= r <= |s|
    ensures r < |s| ==> MarkerMatches(s, r)
    ensures forall j :: i <= j < r ==> !MarkerMatches(s, j)
    decreases |s| - i
  {
    if i == |s| || MarkerMatches(s, i) then i else FindOrder(s, i + 1)
  }

  function FindPrefix(name: string, prefixes: seq<Prefix>): Option<Prefix> {
    if prefixes == [] then None
    else if PrefixText(prefixes[0]) <= name then Some(prefixes[0])
    else FindPrefix(name, prefixes[1..])
  }

  lemma {:induction false} FoundPrefix(name: string, prefixes: seq<Prefix>)
    ensures FindPrefix(name, prefixes).Some? ==> PrefixText(FindPrefix(name, prefixes).value) <= name
  {
    if prefixes != [] { FoundPrefix(name, prefixes[1..]); }
  }

  function ReadRest(prefix: Prefix, rest: string): ParsedQuery {
    var i := FindOrder(rest, 0);
    if i == |rest| then ParsedQuery(prefix, ReadBody(rest), [])
    else ParsedQuery(prefix, ReadBody(rest[..i]), ReadOrder(OrderTail(rest[i + |MARKER|..]).value))
  }

  /** None is the ValueError for an unknown prefix. */
  function ReadName(name: string): Option<ParsedQuery> {
    match FindPrefix(name, PREFIXES)
    case None => None
    case Some(p) =>
      FoundPrefix(name, PREFIXES);
      Some(ReadRest(p, name[|PrefixText(p)|..]))
  }

  method Parse(name: string) returns (q: Option<ParsedQuery>)
    ensures q == ReadName(name)
  {
    hide ReadBody, ReadOrder, PrefixText, OrderTail;
    var prefix: Option<Prefix> := None;
    var body := name;
    for i := 0 to |PREFIXES|
      invariant prefix == None && body == name
      invariant FindPrefix(name, PREFIXES) == FindPrefix(name, PREFIXES[i..])
    {
      assert PREFIXES[i..][1..] == PREFIXES[i + 1..];
      var p := PREFIXES[i];
      if PrefixText(p) <= name {
        prefix, body := Some(p), name[|PrefixText(p)|..];
        break;
      }
    }
    if prefix.None? {
      return None;
    }
    var order: seq<OrderClause> := [];
    var i := FindOrder(body, 0);
    if i < |body| {
      order := ParseOrder(OrderTail(body[i + |MARKER|..]).value);
      body := body[..i];
    }
    var b := ParsePredicates(body);
    q := Some(ParsedQuery(prefix.value, b, order));
  }

  function PrintOrder(order: seq<OrderClause>): string {
    if order == [] then "" else MARKER + PrintClauses(order)
  }

  function Print(q: ParsedQuery): string
    requires |q.body.predicates| == |q.body.connectors| + 1 || q.body == Body([], [])
  {
    PrefixText(q.prefix) + PrintBody(q.body) + PrintOrder(q.order)
  }

  /** No order marker where the reader would take it for the one that was printed. */
  ghost predicate MarkerSafe(body: string, ordered: bool) {
    if ordered then forall j :: 0 <= j <= |body| ==> !At(body + "_order_by", j, MARKER)
    else forall j :: 0 <= j <= |body| ==> !MarkerMatches(body, j)
  }

  ghost predicate WellFormed(q: ParsedQuery) {
    && (|q.body.predicates| == |q.body.connectors| + 1 || q.body == Body([], []))
    && WellFormedBody(q.body) && Free(PrintBody(q.body), '\n')
    && WellFormedOrder(q.order)
    && MarkerSafe(PrintBody(q.body), q.order != [])
  }

  lemma PrefixFound(p: Prefix, rest: string)
    ensures FindPrefix(PrefixText(p) + rest, PREFIXES) == Some(p)
  {
    var name := PrefixText(p) + rest;
    assert PrefixText(p) <= name;
    assert name[0] == PrefixText(p)[0];
    assert PREFIXES[1..] == [CountBy, ExistsBy, DeleteBy] && PREFIXES[1..][1..] == [ExistsBy, DeleteBy];
    assert PREFIXES[1..][1..][1..] == [DeleteBy];
    forall q: Prefix | PrefixText(q) <= name ensures q == p {
      assert name[0] == PrefixText(q)[0];
    }
    FoundWhenOnly(name, PREFIXES, p);
  }

  lemma {:induction false} FoundWhenOnly(name: string, prefixes: seq<Prefix>, p: Prefix)
    requires p in prefixes && PrefixText(p) <= name && forall q: Prefix :: PrefixText(q) <= name ==> q == p
    ensures FindPrefix(name, prefixes) == Some(p)
  {
    hide PrefixText;
    if prefixes[0] != p { FoundWhenOnly(name, prefixes[1..], p); }
  }

  lemma FindOrderIs(s: string, r: nat)
    requires r <= |s| && (r < |s| ==> MarkerMatches(s, r))
    requires forall j :: 0 <= j < r ==> !MarkerMatches(s, j)
    ensures FindOrder(s, 0) == r
  {
  }

  lemma FreeIsNotIn(s: string, c: char)
    ensures Free(s, c) <==> c !in s
  {
  }

  lemma {:induction false} PrintedClausesFree(order: seq<OrderClause>)
    requires forall i :: 0 <= i < |order| ==> Free(order[i].field, '\n')
    ensures Free(PrintClauses(order), '\n')
  {
    hide DirectionText;
    if order != [] {
      DirectionWord(order[0].direction);
      PrintedClausesFree(order[1..]);
    }
  }

  /** In the printed name the reader finds the printed marker, and no earlier one. */
  lemma PrintedMarker(body: string, clauses: string)
    requires clauses != "" && Free(clauses, '\n') && Free(body, '\n') && MarkerSafe(body, true)
    ensures FindOrder(body + MARKER + clauses, 0) == |body|
    ensures OrderTail((body + MARKER + clauses)[|body| + |MARKER|..]) == Some(clauses)
  {
    var s := body + MARKER + clauses;
    FreeIsNotIn(clauses, '\n');
    assert s[|body| + |MARKER|..] == clauses;
    assert At(s, |body|, MARKER);
    forall j | 0 <= j < |body| ensures !MarkerMatches(s, j) {
      var n := |body| + 9;
      assert s[..n] == body + "_order_by";
      AtPrefix(s, n, j, MARKER);
      assert !At(body + "_order_by", j, MARKER);
    }
    FindOrderIs(s, |body|);
  }

  /** Well-formed queries survive printing and parsing. */
  lemma PrintParses(q: ParsedQuery)
    requires WellFormed(q)
    ensures ReadName(Print(q)) == Some(q)
  {
    hide ReadBody, PrintBody, PrefixText, WellFormedClause, Free, At, MarkerMatches, Clean, Readable;
    var body := PrintBody(q.body);
    BodyRoundTrip(q.body);
    PrefixFound(q.prefix, body + PrintOrder(q.order));
    var rest := body + PrintOrder(q.order);
    assert Print(q) == PrefixText(q.prefix) + rest;
    assert Print(q)[|PrefixText(q.prefix)|..] == rest;
    if q.order == [] {
      assert rest == body;
      FindOrderIs(rest, |rest|);
    } else {
      var clauses := PrintClauses(q.order);
      PrintedClausesFree(q.order);
      assert rest == body + MARKER + clauses;
      PrintedMarker(body, clauses);
      assert rest[..|body|] == body;
      PrintedWords(q.order);
      ClausesRoundTrip(q.order);
    }
  }

  lemma CutBodySafe(rest: string, i: nat, ordered: bool)
    requires Free(rest, '\n') && i + |MARKER| < |rest| && At(rest, i, MARKER)
    requires forall j :: 0 <= j < i ==> !MarkerMatches(rest, j)
    ensures MarkerSafe(rest[..i], ordered)
  {
    forall j | 0 <= j < i ensures !At(rest, j, MARKER) {
      FreeIsNotIn(rest[j + |MARKER|..], '\n');
      assert !MarkerMatches(rest, j);
    }
    var body := rest[..i];
    var marked := body + "_order_by";
    assert marked == rest[..i + 9] by { AtSlice(rest, i, MARKER); }
    forall j | 0 <= j <= |body| ensures !At(marked, j, MARKER) && !At(body, j, MARKER) {
      AtPrefix(rest, i + 9, j, MARKER);
      AtPrefix(rest, i, j, MARKER);
    }
  }

  lemma UnmarkedSafe(rest: string)
    requires FindOrder(rest, 0) == |rest|
    ensures MarkerSafe(rest, false)
  {
  }

  lemma FreeSlices(s: string, c: char, i: nat, j: nat)
    requires Free(s, c) && i <= j <= |s|
    ensures Free(s[..i], c) && Free(s[j..], c)
  {
  }

  lemma ReadRestWellFormed(prefix: Prefix, rest: string)
    requires Free(rest, '\n')
    ensures WellFormed(ReadRest(prefix, rest))
  {
    hide ReadBody, PrintBody, WellFormedBody, WellFormedClause, Split, OrderTail, Free, At, MarkerMatches, MarkerSafe, ReadClauses;
    var i := FindOrder(rest, 0);
    var body := rest[..i];
    BodyPrints(body);
    FreeSlices(rest, '\n', i, i);
    if i == |rest| {
      assert body == rest;
      UnmarkedSafe(rest);
    } else {
      TailIsRest(rest, i);
      CutBodySafe(rest, i, true);
      CutBodySafe(rest, i, false);
      var text := rest[i + |MARKER|..];
      FreeSlices(rest, '\n', i, i + |MARKER|);
      SplitParts(text, '_');
      SplitKeepsFree(text, '_', '\n');
      ReadClausesWellFormed(Split(text, '_'));
    }
  }

  lemma TailIsRest(rest: string, i: nat)
    requires Free(rest, '\n') && i < |rest| && MarkerMatches(rest, i)
    ensures i + |MARKER| < |rest| && At(rest, i, MARKER)
    ensures OrderTail(rest[i + |MARKER|..]) == Some(rest[i + |MARKER|..])
  {
  }

  lemma BodyPrints(s: string)
    ensures WellFormedBody(ReadBody(s)) && PrintBody(ReadBody(s)) == s
  {
    hide ReadParts, WellFormedParts;
    if s != "" {
      ReadPartsWellFormed(s);
      BodyLossless(s);
    }
  }

  /** Whatever the parser accepts (without newlines) is well formed, so parsing is a normal form. */
  lemma ParseNormalises(name: string)
    requires Free(name, '\n') && ReadName(name).Some?
    ensures WellFormed(ReadName(name).value)
    ensures ReadName(Print(ReadName(name).value)) == ReadName(name)
  {
    hide ReadRest, PrefixText, WellFormedBody, WellFormedClause, MarkerSafe;
    FoundPrefix(name, PREFIXES);
    var p := FindPrefix(name, PREFIXES).value;
    ReadRestWellFormed(p, name[|PrefixText(p)|..]);
    PrintParses(ReadName(name).value);
  }

  /** The exact queries a name can express. */
  lemma RoundTripIffWellFormed(q: ParsedQuery)
    requires |q.body.predicates| == |q.body.connectors| + 1 || q.body == Body([], [])
    requires Free(Print(q), '\n')
    ensures ReadName(Print(q)) == Some(q) <==> WellFormed(q)
  {
    hide ReadName, Print, WellFormed;
    if ReadName(Print(q)) == Some(q) { ParseNormalises(Print(q)); }
    if WellFormed(q) { PrintParses(q); }
  }
}
