/** Pointcut patterns compiled to regular expressions. */
module Pointcut {
  import opened Strings

  /** The regular expressions the compiler emits. */
  datatype Regex =
    | Empty
    | Literal(c: char)
    | NotDot
    | Concat(first: Regex, second: Regex)
    | Star(body: Regex)

  /** `r+` */
  function Plus(r: Regex): Regex {
    Concat(r, Star(r))
  }

  /** Language membership: what `fullmatch` decides. */
  predicate Matches(r: Regex, s: string)
    decreases r, |s|
  {
    match r
    case Empty => s == ""
    case Literal(c) => s == [c]
    case NotDot => |s| == 1 && s[0] != '.'
    case Concat(a, b) => exists i :: 0 <= i <= |s| && Matches(a, s[..i]) && Matches(b, s[i..])
    case Star(a) => s == "" || exists i :: 0 < i <= |s| && Matches(a, s[..i]) && Matches(r, s[i..])
  }

  /** `(?:[^.]+\.)*[^.]+` */
  const MANY_SEGMENTS := Concat(Star(Concat(Plus(NotDot), Literal('.'))), Plus(NotDot))

  function GlobPart(ch: char): Regex {
    if ch == '*' then Star(NotDot) else if ch == '?' then NotDot else Literal(ch)
  }

  function ConcatAll(parts: seq<Regex>): Regex {
    if parts == [] then Empty
    else Concat(parts[0], ConcatAll(parts[1..]))
  }

  function GlobParts(seg: string): seq<Regex> {
    seq(|seg|, i requires 0 <= i < |seg| => GlobPart(seg[i]))
  }

  function SegmentRegex(seg: string): Regex {
    if seg == "**" then MANY_SEGMENTS
    else if seg == "*" then Plus(NotDot)
    else ConcatAll(GlobParts(seg))
  }

  method CompileSegment(seg: string) returns (r: Regex)
    ensures r == SegmentRegex(seg)
  {
    if seg == "**" {
      return MANY_SEGMENTS;
    }
    if seg == "*" {
      return Plus(NotDot);
    }
    var parts: seq<Regex> := [];
    var i := 0;
    while i < |seg|
      invariant 0 <= i <= |seg|
      invariant parts == GlobParts(seg[..i])
    {
      var ch := seg[i];
      if ch == '*' {
        parts := parts + [Star(NotDot)];
      } else if ch == '?' {
        parts := parts + [NotDot];
      } else {
        parts := parts + [Literal(ch)];
      }
      i := i + 1;
    }
    assert seg[..|seg|] == seg;
    r := ConcatAll(parts);
  }

  function JoinRegex(segments: seq<string>): Regex
    requires segments != []
  {
    if |segments| == 1 then SegmentRegex(segments[0])
    else Concat(SegmentRegex(segments[0]), Concat(Literal('.'), JoinRegex(segments[1..])))
  }

  function Compile(pattern: string): Regex {
    JoinRegex(Split(pattern, '.'))
  }

  /** Whether `qualifiedName` matches the pointcut `pattern`. */
  predicate MatchesPointcut(pattern: string, qualifiedName: string) {
    Matches(Compile(pattern), qualifiedName)
  }

  // ---- What patterns mean, without regular expressions ----

  /** File-name globbing within one segment. */
  predicate Glob(p: string, s: string) {
    if p == "" then s == ""
    else if p[0] == '*' then exists i :: 0 <= i <= |s| && Glob(p[1..], s[i..])
    else s != "" && (p[0] == '?' || p[0] == s[0]) && Glob(p[1..], s[1..])
  }

  predicate NonEmpty(segments: seq<string>) {
    forall i :: 0 <= i < |segments| ==> segments[i] != ""
  }

  /** Dividing the segments of a name among the segments of a pattern. */
  predicate Divides(patterns: seq<string>, names: seq<string>) {
    if patterns == [] then names == []
    else if patterns[0] == "**" then
      exists k :: 1 <= k <= |names| && NonEmpty(names[..k]) && Divides(patterns[1..], names[k..])
    else
      names != [] && Divides(patterns[1..], names[1..]) &&
      if patterns[0] == "*" then names[0] != "" else Glob(patterns[0], names[0])
  }

  // ---- Introduction and elimination rules of the regular expressions ----

  lemma Atoms(c: char, s: string)
    ensures Matches(Empty, s) <==> s == ""
    ensures Matches(Literal(c), s) <==> s == [c]
    ensures Matches(NotDot, s) <==> |s| == 1 && s[0] != '.'
  {
  }

  lemma ConcatIntro(a: Regex, b: Regex, x: string, y: string)
    requires Matches(a, x) && Matches(b, y)
    ensures Matches(Concat(a, b), x + y)
  {
    assert (x + y)[..|x|] == x && (x + y)[|x|..] == y;
  }

  lemma ConcatElim(a: Regex, b: Regex, s: string) returns (x: string, y: string)
    requires Matches(Concat(a, b), s)
    ensures s == x + y && Matches(a, x) && Matches(b, y)
  {
    var i :| 0 <= i <= |s| && Matches(a, s[..i]) && Matches(b, s[i..]);
    x, y := s[..i], s[i..];
  }

  lemma StarIntro(a: Regex, x: string, y: string)
    requires Matches(a, x) && Matches(Star(a), y)
    ensures Matches(Star(a), x + y)
  {
    if x == "" {
      assert x + y == y;
    } else {
      assert (x + y)[..|x|] == x && (x + y)[|x|..] == y;
    }
  }

  lemma StarElim(a: Regex, s: string) returns (x: string, y: string)
    requires Matches(Star(a), s) && s != ""
    ensures s == x + y && x != "" && Matches(a, x) && Matches(Star(a), y)
  {
    var i :| 0 < i <= |s| && Matches(a, s[..i]) && Matches(Star(a), s[i..]);
    x, y := s[..i], s[i..];
  }

  lemma StarNothing(a: Regex)
    ensures Matches(Star(a), "")
  {
  }

  lemma {:induction false} StarNotDot(s: string)
    ensures Matches(Star(NotDot), s) <==> Free(s, '.')
  {
    hide Matches;
    if s == "" {
      StarNothing(NotDot);
    } else {
      StarNotDot(s[1..]);
      assert s == s[..1] + s[1..];
      if Matches(Star(NotDot), s) {
        var x, y := StarElim(NotDot, s);
        Atoms('.', x);
        assert y == s[1..];
      }
      if Free(s, '.') {
        Atoms('.', s[..1]);
        StarIntro(NotDot, s[..1], s[1..]);
      }
    }
  }

  lemma PlusNotDot(s: string)
    ensures Matches(Plus(NotDot), s) <==> s != "" && Free(s, '.')
  {
    hide Matches;
    if Matches(Plus(NotDot), s) {
      var x, y := ConcatElim(NotDot, Star(NotDot), s);
      Atoms('.', x);
      StarNotDot(y);
    }
    if s != "" && Free(s, '.') {
      StarNotDot(s[1..]);
      Atoms('.', s[..1]);
      ConcatIntro(NotDot, Star(NotDot), s[..1], s[1..]);
      assert s == s[..1] + s[1..];
    }
  }

  lemma GlobStar(rest: Regex, p: string, s: string)
    requires forall i :: 0 <= i <= |s| ==> (Matches(rest, s[i..]) <==> Free(s[i..], '.') && Glob(p, s[i..]))
    ensures Matches(Concat(Star(NotDot), rest), s) <==> Free(s, '.') && exists i :: 0 <= i <= |s| && Glob(p, s[i..])
  {
    hide Glob, Matches;
    if Free(s, '.') && exists i :: 0 <= i <= |s| && Glob(p, s[i..]) {
      var i :| 0 <= i <= |s| && Glob(p, s[i..]);
      StarNotDot(s[..i]);
      ConcatIntro(Star(NotDot), rest, s[..i], s[i..]);
      assert s == s[..i] + s[i..];
    }
    if Matches(Concat(Star(NotDot), rest), s) {
      var x, y := ConcatElim(Star(NotDot), rest, s);
      StarNotDot(x);
      assert y == s[|x|..];
    }
  }

  lemma GlobOne(first: Regex, rest: Regex, p: string, s: string)
    requires first.NotDot? || (first.Literal? && first.c != '.')
    requires s != "" ==> (Matches(rest, s[1..]) <==> Free(s[1..], '.') && Glob(p, s[1..]))
    ensures Matches(Concat(first, rest), s) <==>
            s != "" && Free(s, '.') && (first.NotDot? || s[0] == first.c) && Glob(p, s[1..])
  {
  }

  /** A translated glob matches the dot-free strings that globbing accepts. */
  lemma {:induction false} GlobRegex(seg: string, s: string)
    requires Free(seg, '.')
    ensures Matches(ConcatAll(GlobParts(seg)), s) <==> Free(s, '.') && Glob(seg, s)
  {
    hide Matches;
    Atoms('.', s);
    if seg != "" {
      var rest := ConcatAll(GlobParts(seg[1..]));
      assert GlobParts(seg)[1..] == GlobParts(seg[1..]);
      assert ConcatAll(GlobParts(seg)) == Concat(GlobPart(seg[0]), rest);
      forall i | 0 <= i <= |s| ensures Matches(rest, s[i..]) <==> Free(s[i..], '.') && Glob(seg[1..], s[i..]) {
        GlobRegex(seg[1..], s[i..]);
      }
      if seg[0] == '*' {
        GlobStar(rest, seg[1..], s);
      } else {
        GlobOne(GlobPart(seg[0]), rest, seg[1..], s);
      }
    }
  }

  const DOTTED := Concat(Plus(NotDot), Literal('.'))

  lemma DottedSegment(u: string) returns (w: string)
    requires Matches(DOTTED, u)
    ensures u == w + "." && w != "" && Free(w, '.')
  {
    hide Matches;
    var x, y := ConcatElim(Plus(NotDot), Literal('.'), u);
    PlusNotDot(x);
    Atoms('.', y);
    w := x;
  }

  lemma {:induction false} ManySound(u: string, v: string)
    requires Matches(Star(DOTTED), u) && Matches(Plus(NotDot), v)
    ensures NonEmpty(Split(u + v, '.'))
    decreases |u|
  {
    hide Matches, Split;
    PlusNotDot(v);
    if u == "" {
      SplitFree(v, '.');
      assert u + v == v;
    } else {
      var x, y := StarElim(DOTTED, u);
      var w := DottedSegment(x);
      ManySound(y, v);
      SplitFree(w, '.');
      SplitAt(w, '.', y + v);
      assert u + v == w + "." + (y + v);
    }
  }

  lemma {:induction false} ManyComplete(s: string) returns (u: string, v: string)
    requires NonEmpty(Split(s, '.'))
    ensures s == u + v && Matches(Star(DOTTED), u) && Matches(Plus(NotDot), v)
    decreases |s|
  {
    hide Matches, Split;
    var parts := Split(s, '.');
    JoinSplit(s, '.');
    SplitParts(s, '.');
    if |parts| == 1 {
      PlusNotDot(s);
      StarNothing(DOTTED);
      u, v := "", s;
    } else {
      var w, t := CutBetween(s, '.', 1);
      u, v := ManyComplete(t);
      JoinSplit(w, '.');
      SplitParts(w, '.');
      PlusNotDot(w);
      Atoms('.', ".");
      ConcatIntro(Plus(NotDot), Literal('.'), w, ".");
      StarIntro(DOTTED, w + ".", u);
      u := w + "." + u;
    }
  }

  /** `**` matches one or more non-empty segments. */
  lemma ManySegments(s: string)
    ensures Matches(MANY_SEGMENTS, s) <==> NonEmpty(Split(s, '.'))
  {
    hide Matches, Split;
    if Matches(MANY_SEGMENTS, s) {
      var u, v := ConcatElim(Star(DOTTED), Plus(NotDot), s);
      ManySound(u, v);
    }
    if NonEmpty(Split(s, '.')) {
      var u, v := ManyComplete(s);
      ConcatIntro(Star(DOTTED), Plus(NotDot), u, v);
    }
  }

  /** Any other pattern segment matches one segment, by its own rule. */
  lemma OneSegment(p: string, s: string)
    requires Free(p, '.') && p != "**"
    ensures Matches(SegmentRegex(p), s) <==>
            Free(s, '.') && if p == "*" then s != "" else Glob(p, s)
  {
    hide Matches, Glob;
    PlusNotDot(s);
    if p != "*" { GlobRegex(p, s); }
  }

  lemma LastDivides(p: string, s: string)
    requires Free(p, '.')
    ensures Matches(SegmentRegex(p), s) <==> Divides([p], Split(s, '.'))
  {
    hide Matches, Glob, Split;
    var names := Split(s, '.');
    if p == "**" {
      ManySegments(s);
      assert names[..|names|] == names && names[|names|..] == [];
    } else {
      OneSegment(p, s);
      SplitParts(s, '.');
      JoinSplit(s, '.');
      if Free(s, '.') { SplitFree(s, '.'); }
    }
  }

  /** The compiled regular expression divides the name's segments among the pattern's. */
  lemma {:induction false} JoinRegexDivides(patterns: seq<string>, s: string)
    requires patterns != [] && AllFree(patterns, '.')
    ensures Matches(JoinRegex(patterns), s) <==> Divides(patterns, Split(s, '.'))
    decreases |patterns|
  {
    hide Matches, Divides, Split;
    if |patterns| == 1 {
      LastDivides(patterns[0], s);
      assert patterns == [patterns[0]];
    } else {
      if Matches(JoinRegex(patterns), s) { JoinRegexSound(patterns, s); }
      if Divides(patterns, Split(s, '.')) { JoinRegexComplete(patterns, s); }
    }
  }

  lemma {:induction false} JoinRegexSound(patterns: seq<string>, s: string)
    requires |patterns| > 1 && AllFree(patterns, '.') && Matches(JoinRegex(patterns), s)
    ensures Divides(patterns, Split(s, '.'))
    decreases |patterns|, 0
  {
    hide Matches, Glob, Split;
    var p, rest := patterns[0], patterns[1..];
    var a, tail := ConcatElim(SegmentRegex(p), Concat(Literal('.'), JoinRegex(rest)), s);
    var dot, t := ConcatElim(Literal('.'), JoinRegex(rest), tail);
    Atoms('.', dot);
    assert s == a + "." + t;
    JoinRegexDivides(rest, t);
    SplitAt(a, '.', t);
    var names, k := Split(s, '.'), |Split(a, '.')|;
    assert names[..k] == Split(a, '.') && names[k..] == Split(t, '.');
    if p == "**" {
      ManySegments(a);
    } else {
      OneSegment(p, a);
      SplitFree(a, '.');
    }
  }

  /** How many segments the first pattern of a division takes. */
  lemma FirstShare(patterns: seq<string>, names: seq<string>) returns (k: nat)
    requires |patterns| > 1 && Divides(patterns, names)
    ensures 0 < k < |names| && Divides(patterns[1..], names[k..])
    ensures if patterns[0] == "**" then NonEmpty(names[..k])
            else k == 1 && if patterns[0] == "*" then names[0] != "" else Glob(patterns[0], names[0])
  {
    hide Glob;
    if patterns[0] == "**" {
      k :| 1 <= k <= |names| && NonEmpty(names[..k]) && Divides(patterns[1..], names[k..]);
    } else {
      k := 1;
    }
  }

  lemma {:induction false} JoinRegexComplete(patterns: seq<string>, s: string)
    requires |patterns| > 1 && AllFree(patterns, '.') && Divides(patterns, Split(s, '.'))
    ensures Matches(JoinRegex(patterns), s)
    decreases |patterns|, 0
  {
    hide Matches, Glob, Split, Divides;
    var p, rest, names := patterns[0], patterns[1..], Split(s, '.');
    var k := FirstShare(patterns, names);
    var a, t := CutBetween(s, '.', k);
    JoinRegexDivides(rest, t);
    if p == "**" {
      ManySegments(a);
    } else {
      JoinSplit(a, '.');
      SplitParts(a, '.');
      OneSegment(p, a);
    }
    Atoms('.', ".");
    ConcatIntro(Literal('.'), JoinRegex(rest), ".", t);
    ConcatIntro(SegmentRegex(p), Concat(Literal('.'), JoinRegex(rest)), a, "." + t);
    assert s == a + ("." + t);
  }

  /** Compilation preserves meaning. */
  lemma CompilePreservesMeaning(pattern: string, name: string)
    ensures MatchesPointcut(pattern, name) <==> Divides(Split(pattern, '.'), Split(name, '.'))
  {
    SplitParts(pattern, '.');
    JoinRegexDivides(Split(pattern, '.'), name);
  }
}
