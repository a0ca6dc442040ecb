/** The bounded asynchronous log sink: concurrent Write calls, one Close and the draining goroutine, as
    atomic actions that interleave in any order. The writer behind it does not fail. */
module LogSink {
  type Line = string

  /** What the file receives: a line, or a summary of lines dropped. */
  datatype Entry = Written(line: Line) | Summary(count: nat)

  function Lines(entries: seq<Entry>): seq<Line> {
    if entries == [] then []
    else
      var n := |entries| - 1;
      Lines(entries[..n]) + if entries[n].Written? then [entries[n].line] else []
  }

  function Dropped(entries: seq<Entry>): nat {
    if entries == [] then 0
    else
      var n := |entries| - 1;
      Dropped(entries[..n]) + if entries[n].Summary? then entries[n].count else 0
  }

  lemma EntryAdded(entries: seq<Entry>, e: Entry)
    ensures Lines(entries + [e]) == Lines(entries) + if e.Written? then [e.line] else []
    ensures Dropped(entries + [e]) == Dropped(entries) + if e.Summary? then e.count else 0
  {
    assert (entries + [e])[..|entries|] == entries;
  }

  /** A Write call between taking and releasing the read lock. */
  datatype Call =
    | Entered(line: Line)    // holds the lock
    | Admitted(line: Line)   // has seen the sink open
    | Full(line: Line)       // has found the queue full
    | Accounted(line: Line)  // enqueued, or counted as dropped
    | Refused(line: Line)    // has seen the sink closed

  datatype Closing = NotClosing | Locked | Awaiting | CloseReturned

  datatype Action =
    | Begin(id: nat, line: Line)
    | Check(id: nat)
    | Offer(id: nat)
    | CountDrop(id: nat)
    | Finish(id: nat)
    | CloseLock
    | CloseQueue
    | CloseWait
    | Take
    | Tick
    | Drained

  /** The sink between two actions. `enqueued` and `succeeded` are its history: the lines enqueued, and how
      many Writes have returned nil. */
  datatype Sink = Sink(
    queue: seq<Line>, queueClosed: bool, closed: bool, done: bool, dropped: nat, buffered: seq<Entry>, file: seq<Entry>,
    calls: map<nat, Call>, closing: Closing, enqueued: seq<Line>, succeeded: nat)

  const OPEN_SINK := Sink([], false, false, false, 0, [], [], map[], NotClosing, [], 0)

  predicate Enabled(s: Sink, a: Action) {
    match a
    case Begin(id, _) => id !in s.calls && s.closing != Locked
    case Check(id) => id in s.calls && s.calls[id].Entered?
    case Offer(id) => id in s.calls && s.calls[id].Admitted?
    case CountDrop(id) => id in s.calls && s.calls[id].Full?
    case Finish(id) => id in s.calls && (s.calls[id].Accounted? || s.calls[id].Refused?)
    case CloseLock => s.closing == NotClosing && s.calls == map[]
    case CloseQueue => s.closing == Locked
    case CloseWait => s.closing == Awaiting && s.done
    case Take => !s.done && s.queue != []
    case Tick => !s.done
    case Drained => !s.done && s.queueClosed && s.queue == []
  }

  /** The drop counter is taken, and reported unless it is zero. */
  function Summarized(s: Sink): Sink {
    s.(dropped := 0, buffered := if s.dropped == 0 then s.buffered else s.buffered + [Summary(s.dropped)])
  }

  function Flushed(s: Sink): Sink { s.(file := s.file + s.buffered, buffered := []) }

  function Next(capacity: nat, s: Sink, a: Action): Sink
    requires Enabled(s, a)
  {
    match a
    case Begin(id, line) => s.(calls := s.calls[id := Entered(line)])
    case Check(id) =>
      var line := s.calls[id].line;
      s.(calls := s.calls[id := if s.closed then Refused(line) else Admitted(line)])
    case Offer(id) =>
      var line := s.calls[id].line;
      if |s.queue| < capacity
      then s.(queue := s.queue + [line], enqueued := s.enqueued + [line], calls := s.calls[id := Accounted(line)])
      else s.(calls := s.calls[id := Full(line)])
    case CountDrop(id) => s.(dropped := s.dropped + 1, calls := s.calls[id := Accounted(s.calls[id].line)])
    case Finish(id) => s.(succeeded := s.succeeded + (if s.calls[id].Accounted? then 1 else 0), calls := s.calls - {id})
    case CloseLock => s.(closed := true, closing := Locked)
    case CloseQueue => s.(queueClosed := true, closing := Awaiting)
    case CloseWait => s.(closing := CloseReturned)
    case Take => s.(queue := s.queue[1..], buffered := s.buffered + [Written(s.queue[0])])
    case Tick => Flushed(Summarized(s))
    case Drained => Flushed(Summarized(s)).(done := true)
  }

  /** The sink after a schedule; actions that cannot happen when their turn comes are passed over. */
  function After(capacity: nat, s: Sink, schedule: seq<Action>): Sink {
    if schedule == [] then s
    else
      var front := After(capacity, s, schedule[..|schedule| - 1]);
      var a := schedule[|schedule| - 1];
      if Enabled(front, a) then Next(capacity, front, a) else front
  }

  // ---- What every schedule keeps ----

  function Accounts(calls: map<nat, Call>): set<nat> { set id | id in calls && calls[id].Accounted? }

  /** Lines leave in the order in which they were enqueued, and every successful Write is either a line
      or part of a drop count; once the sink is closed, nobody is about to send or to count a drop. */
  predicate Sound(capacity: nat, s: Sink) {
    && |s.queue| <= capacity
    && s.enqueued == Lines(s.file + s.buffered) + s.queue
    && s.succeeded + |Accounts(s.calls)| == |s.enqueued| + Dropped(s.file + s.buffered) + s.dropped
    && (s.closed ==> forall id :: id in s.calls ==> s.calls[id].Entered? || s.calls[id].Refused?)
    && (s.closed <==> s.closing != NotClosing)
    && (s.queueClosed <==> s.closing.Awaiting? || s.closing.CloseReturned?)
    && (s.done ==> s.queueClosed && s.queue == [] && s.dropped == 0 && s.buffered == [])
    && (s.closing.CloseReturned? ==> s.done)
  }

  lemma CallChanges(calls: map<nat, Call>, id: nat, call: Call)
    ensures Accounts(calls[id := call]) == if call.Accounted? then Accounts(calls) + {id} else Accounts(calls) - {id}
    ensures Accounts(calls - {id}) == Accounts(calls) - {id}
    ensures id in Accounts(calls) <==> id in calls && calls[id].Accounted?
  {
  }

  lemma SummarizedSound(capacity: nat, s: Sink)
    requires Sound(capacity, s) && !s.done
    ensures Sound(capacity, Summarized(s)) && Summarized(s).dropped == 0
  {
    hide Lines, Dropped, Accounts;
    if s.dropped != 0 {
      EntryAdded(s.file + s.buffered, Summary(s.dropped));
      assert s.file + (s.buffered + [Summary(s.dropped)]) == (s.file + s.buffered) + [Summary(s.dropped)];
      assert Lines(s.file + s.buffered) + [] == Lines(s.file + s.buffered);
    }
  }

  lemma FlushedSound(capacity: nat, s: Sink)
    requires Sound(capacity, s) && !s.done
    ensures Sound(capacity, Flushed(s))
  {
    hide Lines, Dropped, Accounts;
    assert (s.file + s.buffered) + [] == s.file + s.buffered;
  }

  lemma TakeSound(capacity: nat, s: Sink)
    requires Sound(capacity, s) && Enabled(s, Take)
    ensures Sound(capacity, Next(capacity, s, Take))
  {
    hide Lines, Dropped, Accounts;
    var before, line := s.file + s.buffered, s.queue[0];
    EntryAdded(before, Written(line));
    assert s.file + (s.buffered + [Written(line)]) == before + [Written(line)];
    assert Lines(before) + s.queue == (Lines(before) + [line]) + s.queue[1..];
  }

  lemma WriteSound(capacity: nat, s: Sink, a: Action)
    requires Sound(capacity, s) && Enabled(s, a) && (a.Begin? || a.Check? || a.Offer? || a.CountDrop? || a.Finish?)
    ensures Sound(capacity, Next(capacity, s, a))
  {
    hide Sound;
    match a
    case Begin(id, line) => CallSound(capacity, s, a, Entered(line));
    case Check(id) =>
      CallSound(capacity, s, a, if s.closed then Refused(s.calls[id].line) else Admitted(s.calls[id].line));
    case Offer(id) => OfferSound(capacity, s, id);
    case CountDrop(id) => DropSound(capacity, s, id);
    case Finish(id) => FinishSound(capacity, s, id);
  }

  lemma CallSound(capacity: nat, s: Sink, a: Action, call: Call)
    requires Sound(capacity, s) && Enabled(s, a) && (a.Begin? || a.Check?)
    requires Next(capacity, s, a) == s.(calls := s.calls[a.id := call]) && !call.Accounted?
    requires a.id !in Accounts(s.calls)
    requires s.closed ==> call.Entered? || call.Refused?
    ensures Sound(capacity, Next(capacity, s, a))
  {
    hide Lines, Dropped, Accounts, Enabled, Next;
    CallChanges(s.calls, a.id, call);
  }

  lemma OfferSound(capacity: nat, s: Sink, id: nat)
    requires Sound(capacity, s) && Enabled(s, Offer(id))
    ensures Sound(capacity, Next(capacity, s, Offer(id)))
  {
    hide Lines, Dropped, Accounts;
    var line, before := s.calls[id].line, Lines(s.file + s.buffered);
    CallChanges(s.calls, id, Accounted(line));
    CallChanges(s.calls, id, Full(line));
    assert before + (s.queue + [line]) == (before + s.queue) + [line];
  }

  lemma DropSound(capacity: nat, s: Sink, id: nat)
    requires Sound(capacity, s) && Enabled(s, CountDrop(id))
    ensures Sound(capacity, Next(capacity, s, CountDrop(id)))
  {
    hide Lines, Dropped, Accounts;
    CallChanges(s.calls, id, Accounted(s.calls[id].line));
  }

  lemma FinishSound(capacity: nat, s: Sink, id: nat)
    requires Sound(capacity, s) && Enabled(s, Finish(id))
    ensures Sound(capacity, Next(capacity, s, Finish(id)))
  {
    hide Lines, Dropped, Accounts;
    CallChanges(s.calls, id, s.calls[id]);
  }

  lemma CloseSound(capacity: nat, s: Sink, a: Action)
    requires Sound(capacity, s) && Enabled(s, a) && (a.CloseLock? || a.CloseQueue? || a.CloseWait?)
    ensures Sound(capacity, Next(capacity, s, a))
  {
    hide Lines, Dropped, Accounts;
  }

  lemma ActionSound(capacity: nat, s: Sink, a: Action)
    requires Sound(capacity, s) && Enabled(s, a)
    ensures Sound(capacity, Next(capacity, s, a))
  {
    hide Sound;
    match a
    case Take => TakeSound(capacity, s);
    case Tick => TickSound(capacity, s);
    case Drained => DrainedSound(capacity, s);
    case CloseLock => CloseSound(capacity, s, a);
    case CloseQueue => CloseSound(capacity, s, a);
    case CloseWait => CloseSound(capacity, s, a);
    case _ => WriteSound(capacity, s, a);
  }

  lemma TickSound(capacity: nat, s: Sink)
    requires Sound(capacity, s) && !s.done
    ensures Sound(capacity, Flushed(Summarized(s)))
  {
    hide Sound;
    SummarizedSound(capacity, s);
    FlushedSound(capacity, Summarized(s));
  }

  lemma DrainedSound(capacity: nat, s: Sink)
    requires Sound(capacity, s) && Enabled(s, Drained)
    ensures Sound(capacity, Next(capacity, s, Drained))
  {
    hide Lines, Dropped, Accounts;
    TickSound(capacity, s);
  }

  lemma {:induction false} ScheduleSound(capacity: nat, schedule: seq<Action>)
    ensures Sound(capacity, After(capacity, OPEN_SINK, schedule))
  {
    hide Sound, Enabled, Next;
    if schedule == [] {
      OpenSound(capacity);
    } else {
      var front := schedule[..|schedule| - 1];
      ScheduleSound(capacity, front);
      var s := After(capacity, OPEN_SINK, front);
      if Enabled(s, schedule[|schedule| - 1]) {
        ActionSound(capacity, s, schedule[|schedule| - 1]);
      }
    }
  }

  lemma OpenSound(capacity: nat)
    ensures Sound(capacity, OPEN_SINK)
  {
  }

  /** Under every schedule of writers, closer and goroutine: once Close has returned, the file holds the
      enqueued lines in order, and the Writes that returned nil are the lines on file plus the drops its
      summaries report. */
  lemma ClosedSinkIsComplete(capacity: nat, schedule: seq<Action>)
    requires After(capacity, OPEN_SINK, schedule).closing == CloseReturned
    ensures var s := After(capacity, OPEN_SINK, schedule);
            Lines(s.file) == s.enqueued && s.succeeded == |Lines(s.file)| + Dropped(s.file)
  {
    hide Lines, Dropped, After;
    ScheduleSound(capacity, schedule);
    var s := After(capacity, OPEN_SINK, schedule);
    assert s.file + s.buffered == s.file;
    assert Lines(s.file) + [] == Lines(s.file);
    assert Accounts(s.calls) == {};
  }

  /** No Write sends on the closed queue, under any schedule. */
  lemma NoSendOnClosedQueue(capacity: nat, schedule: seq<Action>, id: nat)
    requires Enabled(After(capacity, OPEN_SINK, schedule), Offer(id))
    ensures !After(capacity, OPEN_SINK, schedule).queueClosed
  {
    hide After, Lines, Dropped, Accounts;
    ScheduleSound(capacity, schedule);
  }

  /** Nobody ever waits for good, under any schedule: a Write can begin unless Close holds its lock, and goes on to its
      end; Close gets its lock once no Write is under way, and then either it or the goroutine can go on. */
  lemma NeverBlocked(capacity: nat, schedule: seq<Action>, id: nat, line: Line)
    ensures var s := After(capacity, OPEN_SINK, schedule);
            && (id !in s.calls && s.closing != Locked ==> Enabled(s, Begin(id, line)))
            && (id in s.calls ==>
                  Enabled(s, Check(id)) || Enabled(s, Offer(id)) || Enabled(s, CountDrop(id)) || Enabled(s, Finish(id)))
            && (s.closing == NotClosing ==> s.calls != map[] || Enabled(s, CloseLock))
            && (s.closing == Locked ==> Enabled(s, CloseQueue))
            && (s.closing == Awaiting ==> Enabled(s, CloseWait) || Enabled(s, Take) || Enabled(s, Drained))
            && (s.closing != CloseReturned && !s.done ==> Enabled(s, Tick))
            && (s.queue != [] ==> Enabled(s, Take))
  {
    hide After, Lines, Dropped, Accounts;
    ScheduleSound(capacity, schedule);
  }

  // ---- Which lines are enqueued ----

  /** The line of the latest Write with this number. */
  function LineOf(capacity: nat, schedule: seq<Action>, id: nat): Line {
    if schedule == [] then ""
    else
      var front, a := schedule[..|schedule| - 1], schedule[|schedule| - 1];
      if a.Begin? && a.id == id && Enabled(After(capacity, OPEN_SINK, front), a) then a.line
      else LineOf(capacity, front, id)
  }

  /** An offer that could happen, while the queue held fewer lines than its places, or as many. */
  predicate Offered(capacity: nat, front: seq<Action>, a: Action, room: bool) {
    var s := After(capacity, OPEN_SINK, front);
    a.Offer? && Enabled(s, a) && room == (|s.queue| != capacity)
  }

  /** The lines offered while there was room. */
  function Admissions(capacity: nat, schedule: seq<Action>): seq<Line> {
    if schedule == [] then []
    else
      var front, a := schedule[..|schedule| - 1], schedule[|schedule| - 1];
      Admissions(capacity, front) + if Offered(capacity, front, a, true) then [LineOf(capacity, front, a.id)] else []
  }

  /** How many lines were offered to a full queue. */
  function Overflows(capacity: nat, schedule: seq<Action>): nat {
    if schedule == [] then 0
    else
      var front, a := schedule[..|schedule| - 1], schedule[|schedule| - 1];
      Overflows(capacity, front) + if Offered(capacity, front, a, false) then 1 else 0
  }

  function Fulls(calls: map<nat, Call>): set<nat> { set id | id in calls && calls[id].Full? }

  predicate LinesKept(capacity: nat, schedule: seq<Action>) {
    var s := After(capacity, OPEN_SINK, schedule);
    forall id :: id in s.calls ==> s.calls[id].line == LineOf(capacity, schedule, id)
  }

  lemma FullsChange(calls: map<nat, Call>, id: nat, call: Call)
    ensures Fulls(calls[id := call]) == if call.Full? then Fulls(calls) + {id} else Fulls(calls) - {id}
    ensures Fulls(calls - {id}) == Fulls(calls) - {id}
    ensures id in Fulls(calls) <==> id in calls && calls[id].Full?
  {
  }

  /** The lines enqueued are exactly those offered while the queue had room, each with the text its Write was given;
      and drops, still to be counted, counted or reported, are those offered to a full queue. */
  lemma {:induction false} AdmittedExactly(capacity: nat, schedule: seq<Action>)
    ensures var s := After(capacity, OPEN_SINK, schedule);
            && s.enqueued == Admissions(capacity, schedule)
            && Dropped(s.file + s.buffered) + s.dropped + |Fulls(s.calls)| == Overflows(capacity, schedule)
            && LinesKept(capacity, schedule)
  {
    hide Enabled, Next, Dropped, Lines, Sound, Fulls, LinesKept, Offered, LineOf;
    if schedule == [] {
      NothingAdmitted(capacity);
    } else {
      var front, a := schedule[..|schedule| - 1], schedule[|schedule| - 1];
      AdmittedExactly(capacity, front);
      ScheduleSound(capacity, front);
      if Enabled(After(capacity, OPEN_SINK, front), a) {
        ActionAdmits(capacity, front, a);
      } else {
        NothingOffered(capacity, front, a);
      }
      LinesStay(capacity, schedule);
    }
  }

  lemma NothingAdmitted(capacity: nat)
    ensures Dropped(OPEN_SINK.file + OPEN_SINK.buffered) == 0 && Fulls(OPEN_SINK.calls) == {}
    ensures LinesKept(capacity, [])
  {
  }

  lemma NothingOffered(capacity: nat, front: seq<Action>, a: Action)
    requires !Enabled(After(capacity, OPEN_SINK, front), a)
    ensures !Offered(capacity, front, a, true) && !Offered(capacity, front, a, false)
  {
    hide Enabled, After;
  }

  lemma ActionAdmits(capacity: nat, front: seq<Action>, a: Action)
    requires var s := After(capacity, OPEN_SINK, front); Enabled(s, a) && Sound(capacity, s)
    requires LinesKept(capacity, front)
    ensures var s := After(capacity, OPEN_SINK, front);
            var t := Next(capacity, s, a);
            && t.enqueued == s.enqueued
                             + (if Offered(capacity, front, a, true) then [LineOf(capacity, front, a.id)] else [])
            && Dropped(t.file + t.buffered) + t.dropped + |Fulls(t.calls)|
               == Dropped(s.file + s.buffered) + s.dropped + |Fulls(s.calls)|
                  + if Offered(capacity, front, a, false) then 1 else 0
  {
    hide After, Dropped, Lines, Fulls, Accounts, LineOf;
    var s := After(capacity, OPEN_SINK, front);
    match a {
      case Begin(id, line) => FullsChange(s.calls, id, Entered(line));
      case Check(id) =>
        FullsChange(s.calls, id, if s.closed then Refused(s.calls[id].line) else Admitted(s.calls[id].line));
      case Offer(id) =>
        FullsChange(s.calls, id, Accounted(s.calls[id].line));
        FullsChange(s.calls, id, Full(s.calls[id].line));
      case CountDrop(id) => FullsChange(s.calls, id, Accounted(s.calls[id].line));
      case Finish(id) => FullsChange(s.calls, id, s.calls[id]);
      case CloseLock =>
      case CloseQueue =>
      case CloseWait =>
      case _ => MovesOn(capacity, s, a);
    }
  }

  /** The goroutine changes where lines and drops are, not which there are. */
  lemma MovesOn(capacity: nat, s: Sink, a: Action)
    requires Enabled(s, a) && (a.Take? || a.Tick? || a.Drained?)
    ensures var t := Next(capacity, s, a);
            && t.enqueued == s.enqueued && t.calls == s.calls
            && Dropped(t.file + t.buffered) + t.dropped == Dropped(s.file + s.buffered) + s.dropped
  {
    hide Dropped;
    match a {
      case Take => MovedOn(s.file, s.buffered, Written(s.queue[0]));
      case _ => MovedOn(s.file, s.buffered, Summary(s.dropped));
    }
  }

  lemma MovedOn(file: seq<Entry>, buffered: seq<Entry>, e: Entry)
    ensures Dropped(file + (buffered + [e])) == Dropped(file + buffered) + if e.Summary? then e.count else 0
    ensures Dropped((file + buffered) + []) == Dropped(file + buffered)
    ensures Dropped((file + (buffered + [e])) + []) == Dropped(file + (buffered + [e]))
  {
    hide Dropped;
    EntryAdded(file + buffered, e);
    assert file + (buffered + [e]) == (file + buffered) + [e];
    assert (file + buffered) + [] == file + buffered;
    assert (file + (buffered + [e])) + [] == file + (buffered + [e]);
  }

  lemma LinesStay(capacity: nat, schedule: seq<Action>)
    requires schedule != [] && LinesKept(capacity, schedule[..|schedule| - 1])
    ensures LinesKept(capacity, schedule)
  {
    hide Enabled, Dropped, Lines, Summarized, Flushed;
    var front, a := schedule[..|schedule| - 1], schedule[|schedule| - 1];
    var s := After(capacity, OPEN_SINK, front);
    if Enabled(s, a) {
      CallLines(capacity, s, a);
    }
  }

  /** An action changes the line of no call but one that begins. */
  lemma CallLines(capacity: nat, s: Sink, a: Action)
    requires Enabled(s, a)
    ensures forall id :: id in Next(capacity, s, a).calls ==>
              if a.Begin? && a.id == id then Next(capacity, s, a).calls[id].line == a.line
              else id in s.calls && Next(capacity, s, a).calls[id].line == s.calls[id].line
  {
  }

  // ---- The sink itself ----

  class AsyncLogSink {
    const capacity: nat
    var queue: seq<Line>
    var queueClosed: bool
    var closed: bool
    var done: bool
    var dropped: nat
    var buffered: seq<Entry>
    var file: seq<Entry>
    var calls: map<nat, Call>
    var closing: Closing
    ghost var enqueued: seq<Line>
    ghost var succeeded: nat

    ghost function Now(): Sink
      reads this
    {
      Sink(queue, queueClosed, closed, done, dropped, buffered, file, calls, closing, enqueued, succeeded)
    }

    constructor (queueSize: int)
      ensures capacity == (if queueSize < 1 then 1 else queueSize) && Now() == OPEN_SINK
    {
      capacity := if queueSize < 1 then 1 else queueSize;
      queue, queueClosed, closed, done, dropped, buffered, file := [], false, false, false, 0, [], [];
      calls, closing := map[], NotClosing;
      enqueued, succeeded := [], 0;
    }

    // ---- Write: read lock, closed check, select with default, drop counter, unlock ----

    method BeginWrite(id: nat, line: Line)
      requires Enabled(Now(), Begin(id, line))
      modifies this`calls
      ensures Now() == Next(capacity, old(Now()), Begin(id, line))
    {
      calls := calls[id := Entered(line)];
    }

    method CheckClosed(id: nat)
      requires Enabled(Now(), Check(id))
      modifies this`calls
      ensures Now() == Next(capacity, old(Now()), Check(id))
    {
      calls := calls[id := if closed then Refused(calls[id].line) else Admitted(calls[id].line)];
    }

    /** The queue is open at this moment: a send on it cannot panic. */
    method OfferLine(id: nat)
      requires Enabled(Now(), Offer(id)) && Sound(capacity, Now())
      modifies this`calls, this`queue, this`enqueued
      ensures Now() == Next(capacity, old(Now()), Offer(id)) && !queueClosed
    {
      hide Lines, Dropped, Accounts;
      var line := calls[id].line;
      if |queue| < capacity {
        queue := queue + [line];
        calls := calls[id := Accounted(line)];
        enqueued := enqueued + [line];
      } else {
        calls := calls[id := Full(line)];
      }
    }

    method AddDropped(id: nat)
      requires Enabled(Now(), CountDrop(id))
      modifies this`calls, this`dropped
      ensures Now() == Next(capacity, old(Now()), CountDrop(id))
    {
      dropped := dropped + 1;
      calls := calls[id := Accounted(calls[id].line)];
    }

    /** Nil for an accounted line, ErrClosed for a refused one. */
    method FinishWrite(id: nat) returns (ok: bool)
      requires Enabled(Now(), Finish(id))
      modifies this`calls, this`succeeded
      ensures Now() == Next(capacity, old(Now()), Finish(id)) && ok == old(calls)[id].Accounted?
    {
      ok := calls[id].Accounted?;
      if ok {
        succeeded := succeeded + 1;
      }
      calls := calls - {id};
    }

    // ---- Close ----

    /** The write lock is granted when no Write holds the read lock. */
    method LockAndClose()
      requires Enabled(Now(), CloseLock)
      modifies this`closed, this`closing
      ensures Now() == Next(capacity, old(Now()), CloseLock)
    {
      closed := true;
      closing := Locked;
    }

    method CloseTheQueue()
      requires Enabled(Now(), CloseQueue)
      modifies this`queueClosed, this`closing
      ensures Now() == Next(capacity, old(Now()), CloseQueue)
    {
      queueClosed := true;
      closing := Awaiting;
    }

    method AwaitDone()
      requires Enabled(Now(), CloseWait)
      modifies this`closing
      ensures Now() == Next(capacity, old(Now()), CloseWait)
    {
      closing := CloseReturned;
    }

    // ---- The goroutine ----

    method TakeLine()
      requires Enabled(Now(), Take)
      modifies this`queue, this`buffered
      ensures Now() == Next(capacity, old(Now()), Take)
    {
      buffered := buffered + [Written(queue[0])];
      queue := queue[1..];
    }

    method WriteDroppedSummary()
      modifies this`dropped, this`buffered
      ensures Now() == Summarized(old(Now()))
    {
      var count := dropped;
      dropped := 0;
      if count == 0 {
        return;
      }
      buffered := buffered + [Summary(count)];
    }

    method Flush()
      modifies this`buffered, this`file
      ensures Now() == Flushed(old(Now()))
    {
      file := file + buffered;
      buffered := [];
    }

    method OnTick()
      requires Enabled(Now(), Tick)
      modifies this`dropped, this`buffered, this`file
      ensures Now() == Next(capacity, old(Now()), Tick)
    {
      WriteDroppedSummary();
      Flush();
    }

    /** The closed and empty queue is seen: a last summary, a last flush. */
    method EndRun()
      requires Enabled(Now(), Drained)
      modifies this`dropped, this`buffered, this`file, this`done
      ensures Now() == Next(capacity, old(Now()), Drained)
    {
      WriteDroppedSummary();
      Flush();
      done := true;
    }

    // ---- All schedules ----

    method Perform(a: Action)
      requires Enabled(Now(), a) && Sound(capacity, Now())
      modifies this
      ensures Now() == Next(capacity, old(Now()), a)
    {
      hide Sound, Next, Enabled;
      match a {
        case Begin(id, line) => BeginWrite(id, line);
        case Check(id) => CheckClosed(id);
        case Offer(id) => OfferLine(id);
        case CountDrop(id) => AddDropped(id);
        case Finish(id) => var ok := FinishWrite(id);
        case CloseLock => LockAndClose();
        case CloseQueue => CloseTheQueue();
        case CloseWait => AwaitDone();
        case Take => TakeLine();
        case Tick => OnTick();
        case Drained => EndRun();
      }
    }

    predicate CanHappen(a: Action)
      reads this
      ensures CanHappen(a) <==> Enabled(Now(), a)
    {
      Enabled(Sink(queue, queueClosed, closed, done, dropped, buffered, file, calls, closing, [], 0), a)
    }

    /** A new sink under a schedule of actions. */
    method Execute(schedule: seq<Action>)
      requires Now() == OPEN_SINK
      modifies this
      ensures Now() == After(capacity, OPEN_SINK, schedule)
      ensures closing == CloseReturned ==> Lines(file) == enqueued && succeeded == |Lines(file)| + Dropped(file)
    {
      hide Sound, Next, Enabled, Lines, Dropped;
      var n := 0;
      while n < |schedule|
        invariant n <= |schedule| && Now() == After(capacity, OPEN_SINK, schedule[..n])
      {
        ScheduleSound(capacity, schedule[..n]);
        assert schedule[..n + 1][..n] == schedule[..n];
        if CanHappen(schedule[n]) {
          Perform(schedule[n]);
        }
        n := n + 1;
      }
      assert schedule[..n] == schedule;
      if closing == CloseReturned {
        ClosedSinkIsComplete(capacity, schedule);
      }
    }
  }
}
