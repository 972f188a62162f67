/** The registry of advice bindings: global order by aspect, stable within it. */
module AspectRegistry {
  import opened Wrappers
  import Pointcut

  datatype AdviceType = Before | AfterReturning | AfterThrowing | After | Around

  datatype AdviceBinding = AdviceBinding(adviceType: AdviceType, pointcut: string, handler: int, order: int)

  /** A bound method of an aspect: an advice method carries both marks. */
  datatype AspectMethod = AspectMethod(adviceType: Option<AdviceType>, pointcut: Option<string>, handler: int)

  /** The bindings an aspect contributes, in the order of its methods. */
  function Contributed(methods: seq<AspectMethod>, order: int): seq<AdviceBinding> {
    if methods == [] then []
    else
      var rest, m := Contributed(methods[..|methods| - 1], order), methods[|methods| - 1];
      if m.adviceType.None? || m.pointcut.None? then rest
      else rest + [AdviceBinding(m.adviceType.value, m.pointcut.value, m.handler, order)]
  }

  ghost predicate SortedByOrder(bs: seq<AdviceBinding>) {
    forall i, j :: 0 <= i < j < |bs| ==> bs[i].order <= bs[j].order
  }

  /** The bindings of one order value, as they stand. */
  function OfOrder(bs: seq<AdviceBinding>, k: int): seq<AdviceBinding> {
    if bs == [] then []
    else OfOrder(bs[..|bs| - 1], k) + (if bs[|bs| - 1].order == k then [bs[|bs| - 1]] else [])
  }

  lemma {:induction false} OfOrderConcat(a: seq<AdviceBinding>, b: seq<AdviceBinding>, k: int)
    ensures OfOrder(a + b, k) == OfOrder(a, k) + OfOrder(b, k)
  {
    if b == [] {
      assert a + b == a;
    } else {
      assert (a + b)[..|a + b| - 1] == a + b[..|b| - 1];
      OfOrderConcat(a, b[..|b| - 1], k);
    }
  }

  lemma OfOrderOne(b: AdviceBinding, k: int)
    ensures OfOrder([b], k) == if b.order == k then [b] else []
  {
  }

  lemma {:induction false} OfOrderNone(bs: seq<AdviceBinding>, k: int)
    requires forall i :: 0 <= i < |bs| ==> bs[i].order != k
    ensures OfOrder(bs, k) == []
  {
    if bs != [] {
      OfOrderNone(bs[..|bs| - 1], k);
    }
  }

  lemma {:induction false} OfOrderAll(bs: seq<AdviceBinding>, k: int)
    requires forall i :: 0 <= i < |bs| ==> bs[i].order == k
    ensures OfOrder(bs, k) == bs
  {
    if bs != [] {
      OfOrderAll(bs[..|bs| - 1], k);
      assert bs == bs[..|bs| - 1] + [bs[|bs| - 1]];
    }
  }

  /** Insert behind every binding of the same or a lower order. */
  function Insert(b: AdviceBinding, bs: seq<AdviceBinding>): seq<AdviceBinding> {
    if bs == [] || bs[|bs| - 1].order <= b.order then bs + [b]
    else Insert(b, bs[..|bs| - 1]) + [bs[|bs| - 1]]
  }

  /** `list.sort(key=...)`: stable. */
  function StableSort(bs: seq<AdviceBinding>): seq<AdviceBinding> {
    if bs == [] then [] else Insert(bs[|bs| - 1], StableSort(bs[..|bs| - 1]))
  }

  lemma {:induction false} InsertSorted(b: AdviceBinding, bs: seq<AdviceBinding>)
    requires SortedByOrder(bs)
    ensures SortedByOrder(Insert(b, bs))
    ensures forall i :: 0 <= i < |Insert(b, bs)| ==> Insert(b, bs)[i] == b || Insert(b, bs)[i] in bs
  {
    if bs != [] && bs[|bs| - 1].order > b.order {
      var rest, last := bs[..|bs| - 1], bs[|bs| - 1];
      InsertSorted(b, rest);
      forall i | 0 <= i < |Insert(b, rest)| ensures Insert(b, rest)[i].order <= last.order {
        var x := Insert(b, rest)[i];
        if x in rest {
          var m :| 0 <= m < |rest| && rest[m] == x;
          assert bs[m].order <= bs[|bs| - 1].order;
        }
      }
    }
  }

  lemma {:induction false} InsertStable(b: AdviceBinding, bs: seq<AdviceBinding>, k: int)
    ensures OfOrder(Insert(b, bs), k) == OfOrder(bs, k) + OfOrder([b], k)
  {
    hide OfOrder;
    if bs == [] || bs[|bs| - 1].order <= b.order {
      OfOrderConcat(bs, [b], k);
    } else {
      var rest, last := bs[..|bs| - 1], bs[|bs| - 1];
      InsertStable(b, rest, k);
      OfOrderConcat(Insert(b, rest), [last], k);
      OfOrderConcat(rest, [last], k);
      assert bs == rest + [last];
      OfOrderOne(last, k);
      OfOrderOne(b, k);
    }
  }

  lemma {:induction false} StableSortSorts(bs: seq<AdviceBinding>)
    ensures SortedByOrder(StableSort(bs))
  {
    if bs != [] {
      StableSortSorts(bs[..|bs| - 1]);
      InsertSorted(bs[|bs| - 1], StableSort(bs[..|bs| - 1]));
    }
  }

  lemma {:induction false} StableSortStable(bs: seq<AdviceBinding>, k: int)
    ensures OfOrder(StableSort(bs), k) == OfOrder(bs, k)
  {
    hide OfOrder, Insert;
    if bs != [] {
      var rest, last := bs[..|bs| - 1], bs[|bs| - 1];
      StableSortStable(rest, k);
      InsertStable(last, StableSort(rest), k);
      OfOrderConcat(rest, [last], k);
      assert bs == rest + [last];
    }
  }

  function Matching(bs: seq<AdviceBinding>, name: string): seq<AdviceBinding> {
    if bs == [] then []
    else
      var last := bs[|bs| - 1];
      Matching(bs[..|bs| - 1], name) + (if Pointcut.MatchesPointcut(last.pointcut, name) then [last] else [])
  }

  /** Lookup selects by pointcut and keeps the registry's order. */
  lemma {:induction false} MatchingInOrder(bs: seq<AdviceBinding>, name: string)
    requires SortedByOrder(bs)
    ensures SortedByOrder(Matching(bs, name))
    ensures forall b :: b in Matching(bs, name) <==> b in bs && Pointcut.MatchesPointcut(b.pointcut, name)
  {
    hide Pointcut.MatchesPointcut;
    if bs != [] {
      MatchingInOrder(bs[..|bs| - 1], name);
      assert bs == bs[..|bs| - 1] + [bs[|bs| - 1]];
    }
  }

  lemma MatchingConcat(bs: seq<AdviceBinding>, b: AdviceBinding, name: string)
    ensures Matching(bs + [b], name) ==
            Matching(bs, name) + (if Pointcut.MatchesPointcut(b.pointcut, name) then [b] else [])
  {
  }

  lemma {:induction false} MatchingStable(bs: seq<AdviceBinding>, name: string, k: int)
    ensures OfOrder(Matching(bs, name), k) == Matching(OfOrder(bs, k), name)
  {
    hide Pointcut.MatchesPointcut;
    if bs != [] {
      var rest, last := bs[..|bs| - 1], bs[|bs| - 1];
      MatchingStable(rest, name, k);
      MatchingConcat(OfOrder(rest, k), last, name);
      OfOrderConcat(Matching(rest, name), [last], k);
      OfOrderOne(last, k);
      assert Matching(rest, name) + [] == Matching(rest, name);
      assert OfOrder(rest, k) + [] == OfOrder(rest, k);
    }
  }

  class AspectRegistry {
    var bindings: seq<AdviceBinding>

    constructor ()
      ensures bindings == []
    {
      bindings := [];
    }

    method Register(order: int, methods: seq<AspectMethod>)
      requires SortedByOrder(bindings)
      modifies this
      ensures SortedByOrder(bindings)
      ensures forall k :: OfOrder(bindings, k) ==
                          OfOrder(old(bindings), k) + (if k == order then Contributed(methods, order) else [])
    {
      ghost var before := bindings;
      for i := 0 to |methods|
        invariant bindings == before + Contributed(methods[..i], order)
      {
        assert methods[..i + 1][..i] == methods[..i];
        var m := methods[i];
        if m.adviceType.Some? && m.pointcut.Some? {
          bindings := bindings + [AdviceBinding(m.adviceType.value, m.pointcut.value, m.handler, order)];
        }
      }
      assert methods[..|methods|] == methods;
      RegisteredOrder(before, methods, order);
      bindings := StableSort(bindings);
    }

    function GetMatching(name: string): (found: seq<AdviceBinding>)
      requires SortedByOrder(bindings)
      reads this
      ensures SortedByOrder(found)
      ensures forall b :: b in found <==> b in bindings && Pointcut.MatchesPointcut(b.pointcut, name)
    {
      MatchingInOrder(bindings, name);
      Matching(bindings, name)
    }
  }

  lemma {:induction false} ContributedOrder(methods: seq<AspectMethod>, order: int)
    ensures forall i :: 0 <= i < |Contributed(methods, order)| ==> Contributed(methods, order)[i].order == order
  {
    if methods != [] {
      ContributedOrder(methods[..|methods| - 1], order);
    }
  }

  lemma RegisteredOrder(before: seq<AdviceBinding>, methods: seq<AspectMethod>, order: int)
    ensures SortedByOrder(StableSort(before + Contributed(methods, order)))
    ensures forall k :: OfOrder(StableSort(before + Contributed(methods, order)), k) ==
                        OfOrder(before, k) + (if k == order then Contributed(methods, order) else [])
  {
    var added := Contributed(methods, order);
    ContributedOrder(methods, order);
    StableSortSorts(before + added);
    forall k ensures OfOrder(StableSort(before + added), k) == OfOrder(before, k) + (if k == order then added else []) {
      StableSortStable(before + added, k);
      OfOrderConcat(before, added, k);
      if k == order { OfOrderAll(added, k); } else { OfOrderNone(added, k); }
    }
  }
}
