/** Python's `str.split` and `str.join` on a one-character separator. */
module Strings {

  function Split(s: string, sep: char): (parts: seq<string>)
    ensures |parts| > 0
  {
    if s == "" then [""]
    else
      var rest := Split(s[1..], sep);
      if s[0] == sep then [""] + rest else [[s[0]] + rest[0]] + rest[1..]
  }

  function Join(parts: seq<string>, sep: char): string {
    if parts == [] then ""
    else if |parts| == 1 then parts[0]
    else parts[0] + [sep] + Join(parts[1..], sep)
  }

  ghost predicate Free(s: string, sep: char) {
    forall i :: 0 <= i < |s| ==> s[i] != sep
  }

  ghost predicate AllFree(parts: seq<string>, sep: char) {
    forall i :: 0 <= i < |parts| ==> Free(parts[i], sep)
  }

  lemma {:induction false} SplitParts(s: string, sep: char)
    ensures AllFree(Split(s, sep), sep)
  {
    if s != "" {
      SplitParts(s[1..], sep);
    }
  }

  lemma {:induction false} SplitFree(s: string, sep: char)
    requires Free(s, sep)
    ensures Split(s, sep) == [s]
  {
    if s != "" {
      SplitFree(s[1..], sep);
      assert s == [s[0]] + s[1..];
    }
  }

  lemma SplitCons(c: char, s: string, sep: char)
    ensures Split([c] + s, sep) ==
            if c == sep then [""] + Split(s, sep) else [[c] + Split(s, sep)[0]] + Split(s, sep)[1..]
  {
  }

  /** A separator cuts the string into two independent halves. */
  lemma {:induction false} SplitAt(a: string, sep: char, b: string)
    ensures Split(a + [sep] + b, sep) == Split(a, sep) + Split(b, sep)
  {
    hide Split;
    SplitFree("", sep);
    var y := Split(b, sep);
    if a == "" {
      SplitCons(sep, b, sep);
      assert a + [sep] + b == [sep] + b;
    } else {
      var x := Split(a[1..], sep);
      SplitAt(a[1..], sep, b);
      SplitCons(a[0], a[1..], sep);
      SplitCons(a[0], a[1..] + [sep] + b, sep);
      assert a == [a[0]] + a[1..];
      assert a + [sep] + b == [a[0]] + (a[1..] + [sep] + b);
      assert (x + y)[1..] == x[1..] + y;
    }
  }

  lemma {:induction false} JoinSplit(s: string, sep: char)
    ensures Join(Split(s, sep), sep) == s
  {
    if s != "" {
      JoinSplit(s[1..], sep);
      var rest := Split(s[1..], sep);
      if s[0] == sep {
        assert ([""] + rest)[1..] == rest;
      } else if |rest| > 1 {
        assert ([[s[0]] + rest[0]] + rest[1..])[1..] == rest[1..];
      }
    }
  }

  lemma {:induction false} SplitJoin(parts: seq<string>, sep: char)
    requires parts != [] && AllFree(parts, sep)
    ensures Split(Join(parts, sep), sep) == parts
  {
    if |parts| == 1 {
      SplitFree(parts[0], sep);
    } else {
      SplitJoin(parts[1..], sep);
      SplitAt(parts[0], sep, Join(parts[1..], sep));
      SplitFree(parts[0], sep);
      assert parts == [parts[0]] + parts[1..];
    }
  }

  lemma {:induction false} JoinConcat(p: seq<string>, q: seq<string>, sep: char)
    requires p != [] && q != []
    ensures Join(p + q, sep) == Join(p, sep) + [sep] + Join(q, sep)
  {
    assert (p + q)[1..] == p[1..] + q;
    if |p| > 1 {
      JoinConcat(p[1..], q, sep);
    }
  }

  /** Cutting a split string between two of its parts. */
  lemma CutBetween(s: string, sep: char, k: nat) returns (a: string, b: string)
    requires 0 < k < |Split(s, sep)|
    ensures s == a + [sep] + b && Split(a, sep) == Split(s, sep)[..k] && Split(b, sep) == Split(s, sep)[k..]
  {
    var parts := Split(s, sep);
    SplitParts(s, sep);
    JoinSplit(s, sep);
    a, b := Join(parts[..k], sep), Join(parts[k..], sep);
    assert parts == parts[..k] + parts[k..];
    JoinConcat(parts[..k], parts[k..], sep);
    SplitJoin(parts[..k], sep);
    SplitJoin(parts[k..], sep);
  }

  /** Joining is injective on separator-free parts. */
  lemma JoinInjective(p: seq<string>, q: seq<string>, sep: char)
    requires p != [] && q != [] && AllFree(p, sep) && AllFree(q, sep)
    requires Join(p, sep) == Join(q, sep)
    ensures p == q
  {
    SplitJoin(p, sep);
    SplitJoin(q, sep);
  }
}
