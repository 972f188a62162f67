/** Around advice run through the single `proceed` slot of a join point. */
module Weaver {
  import opened Wrappers
  import AspectRegistry
  import Pointcut

  datatype Outcome = Returns(value: int) | Throws(error: int)

  /** What an observer of a woven call sees, in order. */
  datatype Event =
    | Enter(link: nat)
    | Original
    | Note(note: int)

  type Trace = seq<Event>

  /**
   The body of an around handler, as far as the weaver can tell: it emits observable
   notes, awaits `jp.proceed` any number of times, and may branch and compute on the
   outcomes (values or caught exceptions) its proceeds have had so far.
   */
  datatype Handler =
    | Finish(result: seq<Outcome> -> Outcome)
    | Emit(note: seq<Outcome> -> int, rest: Handler)
    | Proceed(rest: Handler)
    | Branch(test: seq<Outcome> -> bool, yes: Handler, no: Handler)

  /** The method being wrapped: its outcome may depend on everything that happened before. */
  type Method = Trace -> Outcome

  datatype Run = Run(trace: Trace, outcome: Outcome)

  // ---- The onion: lexically nested handlers ----

  function Onion(hs: seq<Handler>, original: Method, i: nat, tr: Trace): Run
    requires i <= |hs|
    decreases |hs| - i
  {
    if i == |hs| then Run(tr + [Original], original(tr))
    else OnionBody(hs, original, i, hs[i], [], tr + [Enter(i)])
  }

  function OnionBody(hs: seq<Handler>, original: Method, i: nat, h: Handler, seen: seq<Outcome>, tr: Trace): Run
    requires i < |hs|
    decreases |hs| - i, 0, h
  {
    match h
    case Finish(result) => Run(tr, result(seen))
    case Emit(note, rest) => OnionBody(hs, original, i, rest, seen, tr + [Note(note(seen))])
    case Branch(test, yes, no) => OnionBody(hs, original, i, if test(seen) then yes else no, seen, tr)
    case Proceed(rest) =>
      var inner := Onion(hs, original, i + 1, tr);
      OnionBody(hs, original, i, rest, seen + [inner.outcome], inner.trace)
  }

  // ---- The slot: every link overwrites `jp.proceed` with the index of the next link ----

  datatype SlotRun = SlotRun(run: Run, slot: nat)

  function Slot(hs: seq<Handler>, original: Method, i: nat, slot: nat, tr: Trace): (r: SlotRun)
    requires i <= |hs| && slot <= |hs|
    ensures r.slot <= |hs| && if i < |hs| then r.slot > i else r.slot == slot
    decreases |hs| - i
  {
    if i == |hs| then SlotRun(Run(tr + [Original], original(tr)), slot)
    else SlotBody(hs, original, i, hs[i], [], i + 1, tr + [Enter(i)])
  }

  function SlotBody(hs: seq<Handler>, original: Method, i: nat, h: Handler, seen: seq<Outcome>, slot: nat, tr: Trace): (r: SlotRun)
    requires i < slot <= |hs|
    ensures slot <= r.slot <= |hs|
    decreases |hs| - i, 0, h
  {
    match h
    case Finish(result) => SlotRun(Run(tr, result(seen)), slot)
    case Emit(note, rest) => SlotBody(hs, original, i, rest, seen, slot, tr + [Note(note(seen))])
    case Branch(test, yes, no) => SlotBody(hs, original, i, if test(seen) then yes else no, seen, slot, tr)
    case Proceed(rest) =>
      var inner := Slot(hs, original, slot, slot, tr);
      SlotBody(hs, original, i, rest, seen + [inner.run.outcome], inner.slot, inner.run.trace)
  }

  // ---- When do they agree? ----

  /** In the onion, some handler other than the innermost proceeds a second time. */
  predicate Reproceeds(hs: seq<Handler>, original: Method, i: nat, tr: Trace)
    requires i <= |hs|
    decreases |hs| - i
  {
    i < |hs| && ReproceedsBody(hs, original, i, hs[i], [], tr + [Enter(i)])
  }

  predicate ReproceedsBody(hs: seq<Handler>, original: Method, i: nat, h: Handler, seen: seq<Outcome>, tr: Trace)
    requires i < |hs|
    decreases |hs| - i, 0, h
  {
    match h
    case Finish(_) => false
    case Emit(note, rest) => ReproceedsBody(hs, original, i, rest, seen, tr + [Note(note(seen))])
    case Branch(test, yes, no) => ReproceedsBody(hs, original, i, if test(seen) then yes else no, seen, tr)
    case Proceed(rest) =>
      var inner := Onion(hs, original, i + 1, tr);
      || (seen != [] && i + 1 < |hs|)
      || Reproceeds(hs, original, i + 1, tr)
      || ReproceedsBody(hs, original, i, rest, seen + [inner.outcome], inner.trace)
  }

  lemma {:induction false} SlotAgrees(hs: seq<Handler>, original: Method, i: nat, slot: nat, tr: Trace)
    requires i <= |hs| && slot <= |hs|
    requires !Reproceeds(hs, original, i, tr)
    ensures Slot(hs, original, i, slot, tr).run == Onion(hs, original, i, tr)
    decreases |hs| - i
  {
    if i < |hs| {
      SlotBodyAgrees(hs, original, i, hs[i], [], i + 1, tr + [Enter(i)]);
    }
  }

  lemma {:induction false} SlotBodyAgrees(hs: seq<Handler>, original: Method, i: nat, h: Handler, seen: seq<Outcome>,
                                          slot: nat, tr: Trace)
    requires i < slot <= |hs| && (seen == [] ==> slot == i + 1)
    requires !ReproceedsBody(hs, original, i, h, seen, tr)
    ensures SlotBody(hs, original, i, h, seen, slot, tr).run == OnionBody(hs, original, i, h, seen, tr)
    decreases |hs| - i, 0, h
  {
    match h
    case Finish(_) =>
    case Emit(note, rest) => SlotBodyAgrees(hs, original, i, rest, seen, slot, tr + [Note(note(seen))]);
    case Branch(test, yes, no) => SlotBodyAgrees(hs, original, i, if test(seen) then yes else no, seen, slot, tr);
    case Proceed(rest) =>
      SlotAgrees(hs, original, i + 1, slot, tr);
      var inner := Slot(hs, original, slot, slot, tr);
      SlotBodyAgrees(hs, original, i, rest, seen + [inner.run.outcome], inner.slot, inner.run.trace);
  }

  /** The traces part company at some position, for good. */
  ghost predicate Apart(s: Trace, t: Trace) {
    exists k :: 0 <= k < |s| && k < |t| && s[k] != t[k]
  }

  lemma {:induction false} OnionGrows(hs: seq<Handler>, original: Method, i: nat, tr: Trace)
    requires i <= |hs|
    ensures tr + [if i == |hs| then Original else Enter(i)] <= Onion(hs, original, i, tr).trace
    decreases |hs| - i
  {
    if i < |hs| {
      OnionBodyGrows(hs, original, i, hs[i], [], tr + [Enter(i)]);
    }
  }

  lemma {:induction false} OnionBodyGrows(hs: seq<Handler>, original: Method, i: nat, h: Handler, seen: seq<Outcome>, tr: Trace)
    requires i < |hs|
    ensures tr <= OnionBody(hs, original, i, h, seen, tr).trace
    decreases |hs| - i, 0, h
  {
    match h
    case Finish(_) =>
    case Emit(note, rest) => OnionBodyGrows(hs, original, i, rest, seen, tr + [Note(note(seen))]);
    case Branch(test, yes, no) => OnionBodyGrows(hs, original, i, if test(seen) then yes else no, seen, tr);
    case Proceed(rest) =>
      OnionGrows(hs, original, i + 1, tr);
      var inner := Onion(hs, original, i + 1, tr);
      OnionBodyGrows(hs, original, i, rest, seen + [inner.outcome], inner.trace);
  }

  lemma {:induction false} SlotGrows(hs: seq<Handler>, original: Method, i: nat, slot: nat, tr: Trace)
    requires i <= |hs| && slot <= |hs|
    ensures tr + [if i == |hs| then Original else Enter(i)] <= Slot(hs, original, i, slot, tr).run.trace
    decreases |hs| - i
  {
    if i < |hs| {
      SlotBodyGrows(hs, original, i, hs[i], [], i + 1, tr + [Enter(i)]);
    }
  }

  lemma {:induction false} SlotBodyGrows(hs: seq<Handler>, original: Method, i: nat, h: Handler, seen: seq<Outcome>,
                                         slot: nat, tr: Trace)
    requires i < slot <= |hs|
    ensures tr <= SlotBody(hs, original, i, h, seen, slot, tr).run.trace
    decreases |hs| - i, 0, h
  {
    match h
    case Finish(_) =>
    case Emit(note, rest) => SlotBodyGrows(hs, original, i, rest, seen, slot, tr + [Note(note(seen))]);
    case Branch(test, yes, no) => SlotBodyGrows(hs, original, i, if test(seen) then yes else no, seen, slot, tr);
    case Proceed(rest) =>
      SlotGrows(hs, original, slot, slot, tr);
      var inner := Slot(hs, original, slot, slot, tr);
      SlotBodyGrows(hs, original, i, rest, seen + [inner.run.outcome], inner.slot, inner.run.trace);
  }

  lemma {:induction false} SlotParts(hs: seq<Handler>, original: Method, i: nat, slot: nat, tr: Trace)
    requires i <= |hs| && slot <= |hs|
    requires Reproceeds(hs, original, i, tr)
    ensures Apart(Slot(hs, original, i, slot, tr).run.trace, Onion(hs, original, i, tr).trace)
    decreases |hs| - i
  {
    SlotBodyParts(hs, original, i, hs[i], [], i + 1, tr + [Enter(i)]);
  }

  /** The first second proceed enters the wrong link: the one in the slot lies further in. */
  lemma {:induction false} SlotBodyParts(hs: seq<Handler>, original: Method, i: nat, h: Handler, seen: seq<Outcome>,
                                         slot: nat, tr: Trace)
    requires i < slot <= |hs| && (if seen == [] then slot == i + 1 else i + 1 < |hs| ==> slot > i + 1)
    requires ReproceedsBody(hs, original, i, h, seen, tr)
    ensures Apart(SlotBody(hs, original, i, h, seen, slot, tr).run.trace, OnionBody(hs, original, i, h, seen, tr).trace)
    decreases |hs| - i, 0, h
  {
    match h
    case Emit(note, rest) => SlotBodyParts(hs, original, i, rest, seen, slot, tr + [Note(note(seen))]);
    case Branch(test, yes, no) => SlotBodyParts(hs, original, i, if test(seen) then yes else no, seen, slot, tr);
    case Proceed(rest) =>
      var inner, onion := Slot(hs, original, slot, slot, tr), Onion(hs, original, i + 1, tr);
      if seen != [] && i + 1 < |hs| {
        SlotGrows(hs, original, slot, slot, tr);
        OnionGrows(hs, original, i + 1, tr);
        assert inner.run.trace[|tr|] != onion.trace[|tr|];
        assert Apart(inner.run.trace, onion.trace);
      } else if Reproceeds(hs, original, i + 1, tr) {
        SlotParts(hs, original, i + 1, slot, tr);
      } else {
        SlotAgrees(hs, original, i + 1, slot, tr);
        SlotBodyParts(hs, original, i, rest, seen + [onion.outcome], inner.slot, onion.trace);
        return;
      }
      SlotBodyGrows(hs, original, i, rest, seen + [inner.run.outcome], inner.slot, inner.run.trace);
      OnionBodyGrows(hs, original, i, rest, seen + [onion.outcome], onion.trace);
  }

  /** The shared slot runs like nested handlers exactly when no handler but the innermost proceeds twice. */
  lemma SlotIsOnion(hs: seq<Handler>, original: Method, slot: nat, tr: Trace)
    requires slot <= |hs|
    ensures Slot(hs, original, 0, slot, tr).run == Onion(hs, original, 0, tr) <==> !Reproceeds(hs, original, 0, tr)
  {
    if Reproceeds(hs, original, 0, tr) {
      SlotParts(hs, original, 0, slot, tr);
    } else {
      SlotAgrees(hs, original, 0, slot, tr);
    }
  }

  /** Retrying is such a chain: the second proceed of the outer handler goes past the inner one. */
  lemma {:induction false} SecondProceedSkips(original: Method, result: seq<Outcome> -> Outcome)
    ensures var hs := [Proceed(Proceed(Finish(result))), Proceed(Finish(result))];
      && Reproceeds(hs, original, 0, [])
      && Onion(hs, original, 0, []).trace == [Enter(0), Enter(1), Original, Enter(1), Original]
      && Slot(hs, original, 0, 0, []).run.trace == [Enter(0), Enter(1), Original, Original]
  {
    var hs := [Proceed(Proceed(Finish(result))), Proceed(Finish(result))];
    var once := [Enter(0), Enter(1), Original];
    assert [Enter(0)] + [Enter(1), Original] == once;
    InnerOnce(hs, original, result, [Enter(0)]);
    InnerOnce(hs, original, result, once);
    var first, second := Onion(hs, original, 1, [Enter(0)]), Onion(hs, original, 1, once);
    assert [] + [Enter(0)] == [Enter(0)] && first.trace == once;
    assert OnionBody(hs, original, 0, Proceed(Proceed(Finish(result))), [], [Enter(0)])
      == OnionBody(hs, original, 0, Proceed(Finish(result)), [] + [first.outcome], first.trace);
    assert Onion(hs, original, 0, []) == OnionBody(hs, original, 0, Proceed(Proceed(Finish(result))), [], [Enter(0)]);
    assert Onion(hs, original, 0, []) == OnionBody(hs, original, 0, Proceed(Finish(result)), [] + [first.outcome], once);
    assert [] + [first.outcome] == [first.outcome];
    assert OnionBody(hs, original, 0, Proceed(Finish(result)), [first.outcome], once)
      == OnionBody(hs, original, 0, Finish(result), [first.outcome] + [second.outcome], second.trace);
    var again := Slot(hs, original, 2, 2, once);
    assert Slot(hs, original, 0, 0, []) == SlotBody(hs, original, 0, Proceed(Proceed(Finish(result))), [], 1, [Enter(0)]);
    assert Slot(hs, original, 0, 0, []) == SlotBody(hs, original, 0, Proceed(Finish(result)), [] + [first.outcome], 2, once);
    assert again.run.trace == [Enter(0), Enter(1), Original, Original];
    assert SlotBody(hs, original, 0, Proceed(Finish(result)), [first.outcome], 2, once)
      == SlotBody(hs, original, 0, Finish(result), [first.outcome] + [again.run.outcome], 2, again.run.trace);
  }

  lemma {:induction false} InnerOnce(hs: seq<Handler>, original: Method, result: seq<Outcome> -> Outcome, tr: Trace)
    requires |hs| == 2 && hs[1] == Proceed(Finish(result))
    ensures var o := result([original(tr + [Enter(1)])]);
      && Onion(hs, original, 1, tr) == Run(tr + [Enter(1), Original], o)
      && Slot(hs, original, 1, 1, tr) == SlotRun(Run(tr + [Enter(1), Original], o), 2)
  {
    var entered := tr + [Enter(1)];
    var called := Run(tr + [Enter(1), Original], original(entered));
    assert entered + [Original] == tr + [Enter(1), Original];
    assert [] + [original(entered)] == [original(entered)];
    assert Onion(hs, original, 2, entered) == called;
    assert Onion(hs, original, 1, tr) == OnionBody(hs, original, 1, Proceed(Finish(result)), [], entered);
    assert Onion(hs, original, 1, tr) == OnionBody(hs, original, 1, Finish(result), [] + [original(entered)], called.trace);
    assert Slot(hs, original, 2, 2, entered) == SlotRun(called, 2);
    assert Slot(hs, original, 1, 1, tr) == SlotBody(hs, original, 1, Proceed(Finish(result)), [], 2, entered);
    assert Slot(hs, original, 1, 1, tr) == SlotBody(hs, original, 1, Finish(result), [] + [original(entered)], 2, called.trace);
  }

  /** A condition on the handler alone: it proceeds at most once on every path. */
  predicate AtMostOnce(h: Handler, proceeded: bool) {
    match h
    case Finish(_) => true
    case Emit(_, rest) => AtMostOnce(rest, proceeded)
    case Branch(_, yes, no) => AtMostOnce(yes, proceeded) && AtMostOnce(no, proceeded)
    case Proceed(rest) => !proceeded && AtMostOnce(rest, true)
  }

  lemma {:induction false} AtMostOnceEnough(hs: seq<Handler>, original: Method, i: nat, tr: Trace)
    requires i <= |hs| && forall j :: 0 <= j < |hs| - 1 ==> AtMostOnce(hs[j], false)
    ensures !Reproceeds(hs, original, i, tr)
    decreases |hs| - i
  {
    if i < |hs| {
      AtMostOnceBody(hs, original, i, hs[i], [], tr + [Enter(i)]);
    }
  }

  lemma {:induction false} AtMostOnceBody(hs: seq<Handler>, original: Method, i: nat, h: Handler, seen: seq<Outcome>, tr: Trace)
    requires i < |hs| && forall j :: 0 <= j < |hs| - 1 ==> AtMostOnce(hs[j], false)
    requires i < |hs| - 1 ==> AtMostOnce(h, seen != [])
    ensures !ReproceedsBody(hs, original, i, h, seen, tr)
    decreases |hs| - i, 0, h
  {
    match h
    case Finish(_) =>
    case Emit(note, rest) => AtMostOnceBody(hs, original, i, rest, seen, tr + [Note(note(seen))]);
    case Branch(test, yes, no) => AtMostOnceBody(hs, original, i, if test(seen) then yes else no, seen, tr);
    case Proceed(rest) =>
      AtMostOnceEnough(hs, original, i + 1, tr);
      var inner := Onion(hs, original, i + 1, tr);
      AtMostOnceBody(hs, original, i, rest, seen + [inner.outcome], inner.trace);
  }

  // ---- The whole wrapper ----

  /** What advice can read off the join point. */
  datatype View = View(returnValue: Option<int>, exception: Option<int>)

  /** Before, after, after-returning and after-throwing advice: a note, and perhaps an exception, on what it sees. */
  datatype Advice = Advice(note: View -> int, throws: View -> Option<int>)

  datatype AdviceRun = AdviceRun(trace: Trace, thrown: Option<int>)

  /** A loop over advice, left at the first exception. */
  function RunAll(advice: seq<Advice>, view: View, tr: Trace): AdviceRun {
    if advice == [] then AdviceRun(tr, None)
    else
      var noted := tr + [Note(advice[0].note(view))];
      if advice[0].throws(view).Some? then AdviceRun(noted, advice[0].throws(view)) else RunAll(advice[1..], view, noted)
  }

  datatype Bindings = Bindings(
    before: seq<Advice>, around: seq<Handler>,
    afterReturning: seq<Advice>, afterThrowing: seq<Advice>, after: seq<Advice>)

  /** A run together with what it has left on the join point. */
  datatype Woven = Woven(run: Run, view: View)

  /** An exception in flight is recorded, runs the after-throwing advice and is raised again. */
  function Raised(b: Bindings, error: int, returned: Option<int>, tr: Trace): Woven {
    var view := View(returned, Some(error));
    var a := RunAll(b.afterThrowing, view, tr);
    Woven(Run(a.trace, Throws(a.thrown.GetOr(error))), view)
  }

  function Guarded(b: Bindings, chain: Run): Woven {
    match chain.outcome
    case Throws(e) => Raised(b, e, None, chain.trace)
    case Returns(v) =>
      var view := View(Some(v), None);
      var a := RunAll(b.afterReturning, view, chain.trace);
      if a.thrown.Some? then Raised(b, a.thrown.value, Some(v), a.trace) else Woven(Run(a.trace, Returns(v)), view)
  }

  function Finally(b: Bindings, w: Woven): Woven {
    var a := RunAll(b.after, w.view, w.run.trace);
    Woven(Run(a.trace, if a.thrown.Some? then Throws(a.thrown.value) else w.run.outcome), w.view)
  }

  const UNSEEN := View(None, None)

  /** The wrapper around a given way of running the around chain. */
  function Wrapped(b: Bindings, chain: Trace -> Run, tr: Trace): Woven {
    var first := RunAll(b.before, UNSEEN, tr);
    if first.thrown.Some? then Woven(Run(first.trace, Throws(first.thrown.value)), UNSEEN)
    else Finally(b, Guarded(b, chain(first.trace)))
  }

  function Notes(advice: seq<Advice>, view: View): Trace {
    seq(|advice|, i requires 0 <= i < |advice| => Note(advice[i].note(view)))
  }

  ghost predicate Quiet(advice: seq<Advice>) {
    forall i, view :: 0 <= i < |advice| ==> advice[i].throws(view).None?
  }

  lemma {:induction false} QuietRun(advice: seq<Advice>, view: View, tr: Trace)
    requires Quiet(advice)
    ensures RunAll(advice, view, tr) == AdviceRun(tr + Notes(advice, view), None)
  {
    if advice == [] {
      assert tr + Notes(advice, view) == tr;
    } else {
      QuietRun(advice[1..], view, tr + [Note(advice[0].note(view))]);
      assert tr + [Note(advice[0].note(view))] + Notes(advice[1..], view) == tr + Notes(advice, view);
    }
  }

  /** What the outcome of the chain leaves for the advice after it to see. */
  function Seen(o: Outcome): View {
    match o
    case Returns(v) => View(Some(v), None)
    case Throws(e) => View(None, Some(e))
  }

  /**
   With advice that does not throw: before, then the nested around handlers, then exactly
   one of after-returning and after-throwing, then after, the last two seeing the outcome,
   and the chain's own outcome.
   */
  lemma WrappedOrder(b: Bindings, original: Method, tr: Trace)
    requires Quiet(b.before) && Quiet(b.afterReturning) && Quiet(b.afterThrowing) && Quiet(b.after)
    requires !Reproceeds(b.around, original, 0, tr + Notes(b.before, UNSEEN))
    ensures var chain := Onion(b.around, original, 0, tr + Notes(b.before, UNSEEN));
            var view := Seen(chain.outcome);
            Wrapped(b, t => Slot(b.around, original, 0, 0, t).run, tr) ==
            Woven(Run(chain.trace + Notes(if chain.outcome.Returns? then b.afterReturning else b.afterThrowing, view)
                        + Notes(b.after, view),
                      chain.outcome),
                  view)
  {
    hide Onion, Slot, Reproceeds, Notes, Quiet, RunAll;
    SlotIsOnion(b.around, original, 0, tr + Notes(b.before, UNSEEN));
    var chain := Onion(b.around, original, 0, tr + Notes(b.before, UNSEEN));
    var view := Seen(chain.outcome);
    QuietRun(b.before, UNSEEN, tr);
    QuietRun(b.afterReturning, view, chain.trace);
    QuietRun(b.afterThrowing, view, chain.trace);
    QuietRun(b.after, view, chain.trace + Notes(if chain.outcome.Returns? then b.afterReturning else b.afterThrowing, view));
  }

  // ---- The lists come from the registry ----

  /** The bindings of one advice type, in the order they are found. */
  function OfType(bs: seq<AspectRegistry.AdviceBinding>, t: AspectRegistry.AdviceType): seq<AspectRegistry.AdviceBinding> {
    if bs == [] then []
    else OfType(bs[..|bs| - 1], t) + (if bs[|bs| - 1].adviceType == t then [bs[|bs| - 1]] else [])
  }

  /** What a method is woven with, of one type. */
  function Selected(bs: seq<AspectRegistry.AdviceBinding>, name: string, t: AspectRegistry.AdviceType): seq<AspectRegistry.AdviceBinding> {
    OfType(AspectRegistry.Matching(bs, name), t)
  }

  function Advices(bs: seq<AspectRegistry.AdviceBinding>, advice: int -> Advice): seq<Advice> {
    seq(|bs|, i requires 0 <= i < |bs| => advice(bs[i].handler))
  }

  function Handlers(bs: seq<AspectRegistry.AdviceBinding>, around: int -> Handler): seq<Handler> {
    seq(|bs|, i requires 0 <= i < |bs| => around(bs[i].handler))
  }

  /** The five lists of a wrapper, given what each registered handler does. */
  function Grouped(bs: seq<AspectRegistry.AdviceBinding>, name: string, advice: int -> Advice, around: int -> Handler): Bindings {
    Bindings(
      Advices(Selected(bs, name, AspectRegistry.Before), advice),
      Handlers(Selected(bs, name, AspectRegistry.Around), around),
      Advices(Selected(bs, name, AspectRegistry.AfterReturning), advice),
      Advices(Selected(bs, name, AspectRegistry.AfterThrowing), advice),
      Advices(Selected(bs, name, AspectRegistry.After), advice))
  }

  lemma {:induction false} OfTypeSorted(bs: seq<AspectRegistry.AdviceBinding>, t: AspectRegistry.AdviceType)
    requires AspectRegistry.SortedByOrder(bs)
    ensures AspectRegistry.SortedByOrder(OfType(bs, t))
    ensures forall b :: b in OfType(bs, t) <==> b in bs && b.adviceType == t
  {
    if bs != [] {
      OfTypeSorted(bs[..|bs| - 1], t);
      assert bs == bs[..|bs| - 1] + [bs[|bs| - 1]];
    }
  }

  lemma {:induction false} OfTypeStable(bs: seq<AspectRegistry.AdviceBinding>, t: AspectRegistry.AdviceType, k: int)
    ensures AspectRegistry.OfOrder(OfType(bs, t), k) == OfType(AspectRegistry.OfOrder(bs, k), t)
  {
    hide AspectRegistry.OfOrder;
    if bs == [] {
      NothingOfOrder(k);
    } else {
      var rest, last := bs[..|bs| - 1], bs[|bs| - 1];
      OfTypeStable(rest, t, k);
      AspectRegistry.OfOrderConcat(OfType(rest, t), [last], k);
      AspectRegistry.OfOrderConcat(rest, [last], k);
      AspectRegistry.OfOrderOne(last, k);
      assert bs == rest + [last];
      OfTypeLast(AspectRegistry.OfOrder(rest, k), last, t);
      assert OfType(rest, t) + [] == OfType(rest, t) && AspectRegistry.OfOrder(rest, k) + [] == AspectRegistry.OfOrder(rest, k);
      assert OfType(AspectRegistry.OfOrder(rest, k), t) + [] == OfType(AspectRegistry.OfOrder(rest, k), t);
    }
  }

  lemma NothingOfOrder(k: int)
    ensures AspectRegistry.OfOrder([], k) == []
  {
  }

  lemma OfTypeLast(bs: seq<AspectRegistry.AdviceBinding>, b: AspectRegistry.AdviceBinding, t: AspectRegistry.AdviceType)
    ensures OfType(bs + [b], t) == OfType(bs, t) + (if b.adviceType == t then [b] else [])
  {
    assert (bs + [b])[..|bs|] == bs;
  }

  /** Each list holds the matching bindings of its type, by aspect order and, within one order, as registered. */
  lemma SelectedInRegistryOrder(bs: seq<AspectRegistry.AdviceBinding>, name: string, t: AspectRegistry.AdviceType, k: int)
    requires AspectRegistry.SortedByOrder(bs)
    ensures AspectRegistry.SortedByOrder(Selected(bs, name, t))
    ensures forall b :: b in Selected(bs, name, t) <==>
      b in bs && b.adviceType == t && Pointcut.MatchesPointcut(b.pointcut, name)
    ensures AspectRegistry.OfOrder(Selected(bs, name, t), k) == Selected(AspectRegistry.OfOrder(bs, k), name, t)
  {
    hide Pointcut.MatchesPointcut, AspectRegistry.OfOrder, AspectRegistry.SortedByOrder, AspectRegistry.Matching, OfType;
    var found := AspectRegistry.Matching(bs, name);
    AspectRegistry.MatchingInOrder(bs, name);
    AspectRegistry.MatchingStable(bs, name, k);
    OfTypeSorted(found, t);
    OfTypeStable(found, t, k);
  }

  /** `JoinPoint`, with the observable trace of the call beside it. */
  class JoinPoint {
    var proceed: nat
    var returnValue: Option<int>
    var exception: Option<int>
    var trace: Trace

    constructor (trace: Trace)
      ensures this.trace == trace && proceed == 0 && returnValue == None && exception == None
    {
      this.trace, proceed, returnValue, exception := trace, 0, None, None;
    }

    /** Calling link `i` of the chain, the last one being the original method. */
    method Call(hs: seq<Handler>, original: Method, i: nat) returns (o: Outcome)
      requires i <= |hs| && proceed <= |hs|
      modifies this`proceed, this`trace
      ensures SlotRun(Run(trace, o), proceed) == Slot(hs, original, i, old(proceed), old(trace))
      decreases |hs| - i
    {
      if i == |hs| {
        o := original(trace);
        trace := trace + [Original];
        return;
      }
      proceed := i + 1;
      trace := trace + [Enter(i)];
      o := Handle(hs, original, i, hs[i], []);
    }

    /** One handler body, awaiting whatever `proceed` holds at the time. */
    method Handle(hs: seq<Handler>, original: Method, ghost i: nat, h: Handler, seen: seq<Outcome>) returns (o: Outcome)
      requires i < proceed <= |hs|
      modifies this`proceed, this`trace
      ensures SlotRun(Run(trace, o), proceed) == SlotBody(hs, original, i, h, seen, old(proceed), old(trace))
      decreases |hs| - i, 0, h
    {
      match h {
        case Finish(result) =>
          o := result(seen);
        case Emit(note, rest) =>
          trace := trace + [Note(note(seen))];
          o := Handle(hs, original, i, rest, seen);
        case Branch(test, yes, no) =>
          o := Handle(hs, original, i, if test(seen) then yes else no, seen);
        case Proceed(rest) =>
          var inner := Call(hs, original, proceed);
          o := Handle(hs, original, i, rest, seen + [inner]);
      }
    }

    method RunAdvice(advice: seq<Advice>) returns (thrown: Option<int>)
      modifies this`trace
      ensures AdviceRun(trace, thrown) == RunAll(advice, View(returnValue, exception), old(trace))
    {
      var view := View(returnValue, exception);
      for i := 0 to |advice|
        invariant RunAll(advice[i..], view, trace) == RunAll(advice, view, old(trace))
      {
        assert advice[i..][1..] == advice[i + 1..];
        trace := trace + [Note(advice[i].note(view))];
        if advice[i].throws(view).Some? {
          return advice[i].throws(view);
        }
      }
      return None;
    }

    /** The body of the generated wrapper, on a fresh join point. */
    method Invoke(b: Bindings, original: Method) returns (o: Outcome)
      requires proceed == 0 && returnValue == None && exception == None
      modifies this
      ensures Woven(Run(trace, o), View(returnValue, exception)) ==
        Wrapped(b, t => Slot(b.around, original, 0, 0, t).run, old(trace))
    {
      hide Slot, RunAll;
      var thrown := RunAdvice(b.before);
      if thrown.Some? {
        return Throws(thrown.value);
      }
      o := Call(b.around, original, 0);
      if o.Returns? {
        returnValue := Some(o.value);
        thrown := RunAdvice(b.afterReturning);
        if thrown.Some? {
          o := Throws(thrown.value);
        }
      }
      if o.Throws? {
        exception := Some(o.error);
        thrown := RunAdvice(b.afterThrowing);
        if thrown.Some? {
          o := Throws(thrown.value);
        }
      }
      thrown := RunAdvice(b.after);
      if thrown.Some? {
        o := Throws(thrown.value);
      }
    }
  }

  /** Calling one woven method: no wrapper when nothing matches, and otherwise the five groups of the matching bindings. */
  method CallWoven(registry: AspectRegistry.AspectRegistry, name: string, advice: int -> Advice, around: int -> Handler,
                   original: Method, tr: Trace)
    returns (o: Outcome, trace: Trace)
    requires AspectRegistry.SortedByOrder(registry.bindings)
    ensures if AspectRegistry.Matching(registry.bindings, name) == [] then o == original(tr) && trace == tr + [Original]
      else
        var b := Grouped(registry.bindings, name, advice, around);
        Run(trace, o) == Wrapped(b, t => Slot(b.around, original, 0, 0, t).run, tr).run
  {
    hide Slot, Wrapped, Pointcut.MatchesPointcut;
    var found := registry.GetMatching(name);
    if found == [] {
      o, trace := original(tr), tr + [Original];
      return;
    }
    var b := Bindings(
      Advices(OfType(found, AspectRegistry.Before), advice),
      Handlers(OfType(found, AspectRegistry.Around), around),
      Advices(OfType(found, AspectRegistry.AfterReturning), advice),
      Advices(OfType(found, AspectRegistry.AfterThrowing), advice),
      Advices(OfType(found, AspectRegistry.After), advice));
    var jp := new JoinPoint(tr);
    o := jp.Invoke(b, original);
    trace := jp.trace;
  }
}
