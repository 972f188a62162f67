/** The ring buffer behind the log viewer, and the event stream that follows it with a cursor. */
module LogStream {
  import opened Wrappers

  datatype Record = Record(id: nat, message: string)

  // ---- The buffer ----

  /** A bounded deque drops from the left. */
  function Append(records: seq<Record>, record: Record, max: nat): seq<Record> {
    var all := records + [record];
    if |all| > max then all[|all| - max..] else all
  }

  function After(records: seq<Record>, id: nat): seq<Record> {
    if records == [] then []
    else
      var rest := After(records[..|records| - 1], id);
      if records[|records| - 1].id > id then rest + [records[|records| - 1]] else rest
  }

  // ---- Buffer and stream together ----

  /**
   `records` and `counter` belong to the handler; `lastId` and `queue`, the rest of the list it is
   iterating over, to the stream. `sent` is what the client received, `lost` the ids dropped from
   the buffer before the stream had fetched them, and `emitted` everything ever logged.
   */
  datatype State = State(
    max: nat, records: seq<Record>, counter: nat, queue: seq<Record>, lastId: nat, sent: seq<Record>, lost: set<nat>, emitted: seq<string>)
  {
    /** The last id the stream has fetched. */
    function Seen(): nat {
      if queue == [] then lastId else queue[|queue| - 1].id
    }
  }

  /** Something is logged, the buffer is cleared, or the stream takes its next action. */
  datatype Step = Emit(message: string) | Clear | Advance

  function Ids(records: seq<Record>): set<nat> {
    set r | r in records :: r.id
  }

  /** Between fetches the stream yields what it fetched, one record at a time. */
  function Next(s: State, step: Step): State {
    match step
    case Emit(message) =>
      var record := Record(s.counter + 1, message);
      var all := s.records + [record];
      var records := Append(s.records, record, s.max);
      s.(counter := s.counter + 1, records := records, emitted := s.emitted + [message],
         lost := s.lost + Ids(After(all[..|all| - |records|], s.Seen())))
    case Clear => s.(records := [], lost := s.lost + Ids(After(s.records, s.Seen())))
    case Advance =>
      if s.queue == [] then s.(queue := After(s.records, s.lastId))
      else s.(queue := s.queue[1..], lastId := s.queue[0].id, sent := s.sent + [s.queue[0]])
  }

  function Run(s: State, steps: seq<Step>): State
    decreases |steps|
  {
    if steps == [] then s else Next(Run(s, steps[..|steps| - 1]), steps[|steps| - 1])
  }

  function Start(max: nat): State {
    State(max, [], 0, [], 0, [], {}, [])
  }

  /** Consecutive ids, the last of them `last`. */
  ghost predicate Contiguous(records: seq<Record>, last: nat) {
    |records| <= last && forall i :: 0 <= i < |records| ==> records[i].id == last - |records| + 1 + i
  }

  ghost predicate Increasing(records: seq<Record>) {
    forall i, j :: 0 <= i < j < |records| ==> records[i].id < records[j].id
  }

  /** Every id emitted so far is in exactly one place: received or fetched, dropped, or still waiting. */
  ghost predicate Accounted(s: State) {
    && (forall n :: 1 <= n <= s.Seen() ==> n in Ids(s.sent + s.queue) || n in s.lost)
    && (forall n :: s.Seen() < n <= s.counter ==> n in Ids(s.records) || n in s.lost)
    && s.lost !! Ids(s.sent + s.queue)
    && s.lost !! Ids(s.records)
    && (forall n :: n in s.lost ==> 1 <= n <= s.counter)
  }

  ghost predicate Valid(s: State) {
    && |s.records| <= s.max
    && Contiguous(s.records, s.counter)
    && Increasing(s.sent + s.queue)
    && (forall r :: r in s.sent + s.queue ==> 1 <= r.id <= s.Seen())
    && s.lastId <= s.Seen() <= s.counter
    && (forall r :: r in s.queue ==> r.id > s.lastId)
    && Accounted(s)
  }

  lemma {:induction false} AfterMembers(records: seq<Record>, id: nat)
    ensures forall r :: r in After(records, id) <==> r in records && r.id > id
  {
    if records != [] {
      var front := records[..|records| - 1];
      AfterMembers(front, id);
      assert records == front + [records[|records| - 1]];
    }
  }

  lemma {:induction false} AfterIncreasing(records: seq<Record>, id: nat)
    requires Increasing(records)
    ensures Increasing(After(records, id))
    ensures After(records, id) != [] ==> After(records, id)[|After(records, id)| - 1] == records[|records| - 1]
  {
    if records != [] {
      AfterIncreasing(records[..|records| - 1], id);
      AfterMembers(records[..|records| - 1], id);
      var rest := After(records[..|records| - 1], id);
      forall i | 0 <= i < |rest| ensures rest[i].id < records[|records| - 1].id {
        assert rest[i] in rest;
      }
    }
  }

  lemma ContiguousIds(records: seq<Record>, last: nat)
    requires Contiguous(records, last)
    ensures Increasing(records)
    ensures forall n :: n in Ids(records) <==> last - |records| < n <= last
  {
    forall n | last - |records| < n <= last ensures n in Ids(records) {
      assert records[n - (last - |records|) - 1] in records;
    }
  }

  lemma StartValid(max: nat)
    ensures Valid(Start(max))
  {
  }

  /** Appending keeps the buffer contiguous; what it drops is the oldest record of a full buffer. */
  lemma AppendContiguous(records: seq<Record>, last: nat, message: string, max: nat)
    requires Contiguous(records, last) && |records| <= max
    ensures var r := Append(records, Record(last + 1, message), max);
      && |r| <= max && Contiguous(r, last + 1)
      && |r| == if |records| == max then max else |records| + 1
  {
  }

  lemma DroppedIds(records: seq<Record>, last: nat, message: string, max: nat)
    requires Contiguous(records, last) && |records| <= max
    ensures var all := records + [Record(last + 1, message)];
      var dropped := all[..|all| - |Append(records, Record(last + 1, message), max)|];
      Ids(dropped) == if |records| == max then {last - max + 1} else {}
  {
    var all := records + [Record(last + 1, message)];
    if |records| == max {
      assert all[..1] == [all[0]];
      assert all[0] in [all[0]];
    }
  }

  lemma AfterIds(records: seq<Record>, id: nat)
    ensures forall n :: n in Ids(After(records, id)) <==> n in Ids(records) && n > id
  {
    hide After;
    AfterMembers(records, id);
  }

  lemma EmitValid(s: State, message: string)
    requires Valid(s)
    ensures Valid(Next(s, Emit(message)))
  {
    hide After, Append, Ids, Contiguous;
    var t := Next(s, Emit(message));
    var all := s.records + [Record(s.counter + 1, message)];
    AppendContiguous(s.records, s.counter, message, s.max);
    DroppedIds(s.records, s.counter, message, s.max);
    AfterIds(all[..|all| - |t.records|], s.Seen());
    ContiguousIds(s.records, s.counter);
    ContiguousIds(t.records, t.counter);
    FetchedIds(s);
  }

  lemma FetchedIds(s: State)
    requires Valid(s)
    ensures forall n :: n in Ids(s.sent + s.queue) ==> 1 <= n <= s.Seen()
  {
  }

  lemma ClearValid(s: State)
    requires Valid(s)
    ensures Valid(Next(s, Clear))
  {
    hide After;
    AfterMembers(s.records, s.Seen());
  }

  lemma FetchValid(s: State)
    requires Valid(s) && s.queue == []
    ensures Valid(Next(s, Advance))
  {
    hide After, Contiguous, Ids, Increasing;
    var queue := After(s.records, s.lastId);
    assert s.sent + s.queue == s.sent;
    if queue != [] {
      AfterMembers(s.records, s.lastId);
      assert queue[0] in s.records;
      LastId(s.records, s.counter);
      ContiguousIds(s.records, s.counter);
      AfterIncreasing(s.records, s.lastId);
      AfterIds(s.records, s.lastId);
      IdsConcat(s.sent, queue);
      FetchedBounds(s, queue);
      IncreasingConcat(s.sent, queue, s.lastId);
    }
  }

  lemma FetchedBounds(s: State, queue: seq<Record>)
    requires Contiguous(s.records, s.counter) && queue == After(s.records, s.lastId)
    ensures forall r :: r in queue ==> s.lastId < r.id <= s.counter
  {
    hide After;
    AfterMembers(s.records, s.lastId);
  }

  lemma LastId(records: seq<Record>, last: nat)
    requires Contiguous(records, last) && records != []
    ensures records[|records| - 1].id == last
  {
  }

  lemma IdsConcat(a: seq<Record>, b: seq<Record>)
    ensures Ids(a + b) == Ids(a) + Ids(b)
  {
  }

  lemma IncreasingConcat(a: seq<Record>, b: seq<Record>, id: nat)
    requires Increasing(a) && Increasing(b)
    requires (forall r :: r in a ==> r.id <= id) && (forall r :: r in b ==> r.id > id)
    ensures Increasing(a + b)
  {
  }

  lemma YieldValid(s: State)
    requires Valid(s) && s.queue != []
    ensures Valid(Next(s, Advance))
  {
    hide After, Contiguous, Ids, Increasing;
    var t := Next(s, Advance);
    HeadFirst(s.sent, s.queue);
    assert t.sent + t.queue == s.sent + s.queue;
    assert s.queue[0] in s.sent + s.queue;
  }

  lemma HeadFirst(before: seq<Record>, queue: seq<Record>)
    requires Increasing(before + queue) && queue != []
    ensures forall r :: r in queue[1..] ==> r.id > queue[0].id
  {
    var both := before + queue;
    forall i | 1 <= i < |queue| ensures queue[i].id > queue[0].id {
      assert both[|before|] == queue[0] && both[|before| + i] == queue[i];
    }
  }

  /** Every run of emits, clears and stream actions keeps the buffer contiguous up to the counter,
      the delivered ids increasing, and every id accounted for. */
  lemma {:induction false} RunValid(max: nat, steps: seq<Step>)
    ensures Valid(Run(Start(max), steps))
    decreases |steps|
  {
    hide Valid, Next;
    StartValid(max);
    if steps != [] {
      RunValid(max, steps[..|steps| - 1]);
      NextValid(Run(Start(max), steps[..|steps| - 1]), steps[|steps| - 1]);
    }
  }

  lemma NextValid(s: State, step: Step)
    requires Valid(s)
    ensures Valid(Next(s, step))
  {
    hide Valid, Next;
    match step
    case Emit(message) => EmitValid(s, message);
    case Clear => ClearValid(s);
    case Advance => if s.queue == [] { FetchValid(s); } else { YieldValid(s); }
  }

  // ---- The right messages ----

  /** Each record carries the message logged under its id. */
  ghost predicate Authentic(s: State) {
    && |s.emitted| == s.counter
    && (forall r :: r in s.records + s.queue + s.sent ==> 1 <= r.id <= s.counter && r.message == s.emitted[r.id - 1])
  }

  lemma {:induction false} RunAuthentic(max: nat, steps: seq<Step>)
    ensures Authentic(Run(Start(max), steps))
    decreases |steps|
  {
    hide Next, Authentic;
    if steps == [] {
      StartAuthentic(max);
    } else {
      RunAuthentic(max, steps[..|steps| - 1]);
      NextAuthentic(Run(Start(max), steps[..|steps| - 1]), steps[|steps| - 1]);
    }
  }

  lemma StartAuthentic(max: nat)
    ensures Authentic(Start(max))
  {
  }

  lemma NextAuthentic(s: State, step: Step)
    requires Authentic(s)
    ensures Authentic(Next(s, step))
  {
    hide After, Ids;
    AfterMembers(s.records, s.lastId);
  }

  // ---- When nothing is lost ----

  /** How many ids the stream has not fetched yet. */
  function Unseen(s: State): int {
    s.counter - s.Seen()
  }

  /** Every emit finds fewer than `max` unseen records, every clear none. */
  predicate Prompt(max: nat, steps: seq<Step>)
    decreases |steps|
  {
    steps == [] ||
      var s := Run(Start(max), steps[..|steps| - 1]);
      && Prompt(max, steps[..|steps| - 1])
      && match steps[|steps| - 1]
         case Emit(_) => Unseen(s) < max
         case Clear => Unseen(s) == 0
         case Advance => true
  }

  /** With nothing lost so far, what a step loses is decided by how far the stream lags. */
  lemma LossExact(s: State, step: Step)
    requires Valid(s) && s.lost == {}
    ensures Next(s, step).lost == {} <==>
      (step.Emit? ==> Unseen(s) < s.max) && (step.Clear? ==> Unseen(s) == 0)
  {
    hide After, Append, Ids, Contiguous;
    ContiguousIds(s.records, s.counter);
    if Unseen(s) > 0 {
      assert s.Seen() + 1 in Ids(s.records) && s.counter in Ids(s.records);
    }
    match step
    case Emit(message) =>
      AppendContiguous(s.records, s.counter, message, s.max);
      var all := s.records + [Record(s.counter + 1, message)];
      var dropped := all[..|all| - |Next(s, step).records|];
      DroppedIds(s.records, s.counter, message, s.max);
      AfterIds(dropped, s.Seen());
      assert s.counter - s.max + 1 in Ids(dropped) <==> |s.records| == s.max;
    case Clear => AfterIds(s.records, s.Seen());
    case Advance =>
  }

  lemma LostGrows(s: State, step: Step)
    ensures s.lost <= Next(s, step).lost && Next(s, step).max == s.max
  {
  }

  /** A run loses nothing exactly when the stream keeps up. */
  lemma {:induction false} NothingLostIffPrompt(max: nat, steps: seq<Step>)
    ensures Run(Start(max), steps).lost == {} <==> Prompt(max, steps)
    ensures Run(Start(max), steps).max == max
    decreases |steps|
  {
    hide Next, Valid, Unseen;
    if steps != [] {
      var front := steps[..|steps| - 1];
      var s := Run(Start(max), front);
      NothingLostIffPrompt(max, front);
      RunValid(max, front);
      LostGrows(s, steps[|steps| - 1]);
      if s.lost == {} {
        LossExact(s, steps[|steps| - 1]);
      }
    }
  }

  /** Strictly increasing ids that cover 1 up to `n` are 1 up to `n`. */
  lemma {:induction false} NoGap(records: seq<Record>, n: nat, i: nat)
    requires Increasing(records) && (forall r :: r in records ==> 1 <= r.id <= n)
    requires forall k :: 1 <= k <= n ==> k in Ids(records)
    requires i < |records|
    ensures records[i].id == i + 1
    decreases i
  {
    if i > 0 {
      NoGap(records, n, i - 1);
    }
    assert records[i] in records;
    assert i + 1 in Ids(records);
    var j :| 0 <= j < |records| && records[j].id == i + 1;
    if j < i {
      NoGap(records, n, j);
    }
  }

  /** A client that keeps up receives everything logged, in order, without gaps or repeats. */
  lemma PromptDelivery(max: nat, steps: seq<Step>)
    requires Prompt(max, steps)
    ensures var s := Run(Start(max), steps);
      |s.sent| <= |s.emitted| && forall i :: 0 <= i < |s.sent| ==> s.sent[i] == Record(i + 1, s.emitted[i])
  {
    hide Run, Prompt, Contiguous;
    var s := Run(Start(max), steps);
    NothingLostIffPrompt(max, steps);
    RunValid(max, steps);
    RunAuthentic(max, steps);
    var both := s.sent + s.queue;
    if s.sent != [] {
      NoGap(both, s.Seen(), |s.sent| - 1);
      assert both[|s.sent| - 1] in both;
    }
    forall i | 0 <= i < |s.sent| ensures s.sent[i] == Record(i + 1, s.emitted[i]) {
      NoGap(both, s.Seen(), i);
      assert both[i] == s.sent[i] && s.sent[i] in s.records + s.queue + s.sent;
    }
  }

  // ---- A condition on the schedule alone ----

  /** Emits since the stream last fetched. */
  function Since(max: nat, steps: seq<Step>): nat
    decreases |steps|
  {
    if steps == [] then 0
    else
      var front := steps[..|steps| - 1];
      match steps[|steps| - 1]
      case Emit(_) => Since(max, front) + 1
      case Clear => Since(max, front)
      case Advance => if Run(Start(max), front).queue == [] then 0 else Since(max, front)
  }

  /** No clears, and at most `max` emits between fetches. */
  predicate Timely(max: nat, steps: seq<Step>)
    decreases |steps|
  {
    steps == [] || (
      && Timely(max, steps[..|steps| - 1])
      && !steps[|steps| - 1].Clear?
      && Since(max, steps) <= max)
  }

  lemma {:induction false} TimelyIsPrompt(max: nat, steps: seq<Step>)
    requires Timely(max, steps)
    ensures Prompt(max, steps) && Unseen(Run(Start(max), steps)) <= Since(max, steps)
    decreases |steps|
  {
    hide Valid, Next, Unseen;
    if steps == [] {
      StartUnseen(max);
    } else {
      var front, step := steps[..|steps| - 1], steps[|steps| - 1];
      var s := Run(Start(max), front);
      TimelyIsPrompt(max, front);
      NothingLostIffPrompt(max, front);
      RunValid(max, front);
      NextUnseen(s, step);
    }
  }

  lemma StartUnseen(max: nat)
    ensures Unseen(Start(max)) == 0
  {
  }

  lemma NextUnseen(s: State, step: Step)
    requires Valid(s) && s.lost == {} && !step.Clear?
    ensures Unseen(Next(s, step)) ==
      if step.Emit? then Unseen(s) + 1 else if s.queue == [] then 0 else Unseen(s)
  {
    hide After, Append, Ids, Contiguous;
    if step.Advance? && s.queue == [] {
      ContiguousIds(s.records, s.counter);
      AfterMembers(s.records, s.lastId);
      AfterIncreasing(s.records, s.lastId);
      if s.counter > s.lastId {
        assert s.counter in Ids(s.records);
        AfterIds(s.records, s.lastId);
        assert s.counter in Ids(After(s.records, s.lastId));
        NoIds();
        assert After(s.records, s.lastId)[0] in s.records;
        LastId(s.records, s.counter);
      } else {
        NothingAfter(s);
      }
    }
  }

  lemma NoIds()
    ensures Ids([]) == {}
  {
  }

  lemma NothingAfter(s: State)
    requires Contiguous(s.records, s.counter) && s.counter <= s.lastId
    ensures After(s.records, s.lastId) == []
  {
    var after := After(s.records, s.lastId);
    assert after != [] ==> after[0] in after;
    AfterMembers(s.records, s.lastId);
  }

  // ---- The handler and the stream as objects ----

  class AdminLogHandler {
    const maxRecords: nat
    var records: seq<Record>
    var counter: nat

    constructor (maxRecords: nat)
      ensures this.maxRecords == maxRecords && records == [] && counter == 0
    {
      this.maxRecords, records, counter := maxRecords, [], 0;
    }

    method Emit(message: string)
      modifies this
      ensures counter == old(counter) + 1
      ensures records == Append(old(records), Record(counter, message), maxRecords)
    {
      counter := counter + 1;
      records := records + [Record(counter, message)];
      if |records| > maxRecords {
        records := records[|records| - maxRecords..];
      }
    }

    method GetRecords(after: nat) returns (result: seq<Record>)
      ensures result == After(records, after)
    {
      result := [];
      for i := 0 to |records|
        invariant result == After(records[..i], after)
      {
        assert records[..i + 1][..i] == records[..i];
        if records[i].id > after { result := result + [records[i]]; }
      }
      assert records[..|records|] == records;
    }

    method Clear()
      modifies this
      ensures records == [] && counter == old(counter)
    {
      records := [];
    }
  }

  /** The generator behind one client, between two of its suspension points. */
  class LogfileStream {
    const logHandler: AdminLogHandler
    var queue: seq<Record>
    var lastId: nat

    constructor (logHandler: AdminLogHandler)
      ensures this.logHandler == logHandler && queue == [] && lastId == 0
    {
      this.logHandler, queue, lastId := logHandler, [], 0;
    }

    /** The handler and the stream are in the state `s`. */
    ghost predicate At(s: State)
      reads this, logHandler
    {
      && s.max == logHandler.maxRecords && s.records == logHandler.records && s.counter == logHandler.counter
      && s.queue == queue && s.lastId == lastId
    }

    /** Fetch when idle; otherwise hand over the next record and move the cursor to it. */
    method Advance(ghost s: State) returns (event: Option<Record>)
      requires At(s)
      modifies this
      ensures At(Next(s, Step.Advance))
      ensures Next(s, Step.Advance).sent == if event.Some? then s.sent + [event.value] else s.sent
    {
      if queue == [] {
        queue := logHandler.GetRecords(lastId);
        event := None;
      } else {
        event := Some(queue[0]);
        lastId := queue[0].id;
        queue := queue[1..];
      }
    }

    method Log(ghost s: State, message: string)
      requires At(s)
      modifies logHandler
      ensures At(Next(s, Step.Emit(message)))
    {
      logHandler.Emit(message);
    }

    method ClearLog(ghost s: State)
      requires At(s)
      modifies logHandler
      ensures At(Next(s, Step.Clear))
    {
      logHandler.Clear();
    }
  }
}
