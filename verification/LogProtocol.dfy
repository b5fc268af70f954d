/** The asynchronous logger as a state machine: any number of logging threads, one
    writer, one step per critical section (src/log.cpp, include/log.h).

    `Shared` holds what LogBufferBaseData and the waiting nodes hold; the functions on it
    are the critical sections. `State` adds where each thread stands and a history that
    no step reads. */
module LogProtocol {
  import opened LogText
  import opened LogRing

  /** A logging thread; also names the waiting node on its stack. */
  type Tid = nat
  /** A transport; also names the node it waits on for a guaranteed write. */
  type Trid = nat

  datatype Action = Proceed | ProceedToTermination | TerminationAllowed

  /** ChainedWaitingData. */
  datatype Node = Node(next: Option<Tid>, canRun: bool, ctrs: Counters)
  /** ChainedWaitingForGuaranteedWrite. */
  datatype Gww = Gww(next: Option<Trid>, canRun: bool)

  datatype Shared = Shared(
    buff: seq<char>, start: nat, end: nat, mbwi: nat, skipped: Counters,
    first: Option<Tid>, last: Option<Tid>,
    gFirst: Option<Trid>, gLast: Option<Trid>,
    action: Action, refCounter: nat,
    nodes: map<Tid, Node>, gwws: map<Trid, Gww>,
    skipLevel: nat, critLevel: nat)

  const FRESH_NODE := Node(None, false, NO_SKIPS)
  const FRESH_GWW := Gww(None, false)

  function NodeOf(d: Shared, t: Tid): Node { if t in d.nodes then d.nodes[t] else FRESH_NODE }
  function GwwOf(d: Shared, tr: Trid): Gww { if tr in d.gwws then d.gwws[tr] else FRESH_GWW }

  predicate MessageOk(msg: seq<char>) { 1 <= |msg| < MAX_MESSAGE }

  // ---------------------------------------------------------------- critical sections

  function Capacity(d: Shared): nat { d.start + |d.buff| }

  /** insertSingleMsg under its space assertion (src/log.cpp:273). */
  function InsertSingle(d: Shared, msg: seq<char>): Shared
    requires d.start <= d.end && 0 < |d.buff| && d.end + |msg| <= Capacity(d)
  {
    d.(buff := Put(d.buff, d.end, msg), end := d.end + |msg|)
  }

  function ReportOf(c: Counters): seq<char>
    requires |c.ctr| == LEVELS
  {
    if c.full != 0 then ReportText(c) else ""
  }

  /** A printed report clears its counters. */
  function AfterReport(c: Counters): Counters {
    if c.full != 0 then NO_SKIPS else c
  }

  /** Both space assertions of insertMessage hold. */
  predicate Fits(d: Shared, c: Counters, msg: seq<char>)
    requires |c.ctr| == LEVELS
  {
    d.end + |ReportOf(c)| + |msg| <= Capacity(d)
  }

  /** gww joins the queue of guaranteed writes (src/log.cpp:300-314). */
  function Enqueue(d: Shared, tr: Trid): Shared {
    var cut := d.(mbwi := d.end, gwws := d.gwws[tr := GwwOf(d, tr).(next := None)], gLast := Some(tr));
    if d.gLast == None then cut.(gFirst := Some(tr))
    else cut.(gwws := cut.gwws[d.gLast.value := GwwOf(cut, d.gLast.value).(next := Some(tr))])
  }

  predicate WantsWrite(d: Shared, level: Level) {
    level <= d.critLevel || d.action == ProceedToTermination
  }

  /** insertMessage: a report of what was skipped, if anything, then the message. */
  function InsertMessage(d: Shared, tr: Trid, c: Counters, msg: seq<char>, level: Level): Shared
    requires d.start <= d.end && 0 < |d.buff| && |c.ctr| == LEVELS && Fits(d, c, msg)
  {
    var reported := if c.full != 0 then InsertSingle(d, ReportText(c)) else d;
    var inserted := InsertSingle(reported, msg);
    if WantsWrite(d, level) then Enqueue(inserted, tr) else inserted
  }

  /** The check of src/log.cpp:331, 347 and 395-396: it looks at the shared counters. */
  predicate Passes(d: Shared, msg: seq<char>) {
    d.end + |msg| + (if d.skipped.full == 0 then 0 else REPORT_ROOM) <= Capacity(d)
  }

  /** The one check of the immediate branch covers the report and the message together:
      both calls of insertSingleMsg meet their space assertion. */
  lemma PassesFits(d: Shared, msg: seq<char>)
    requires Passes(d, msg) && |d.skipped.ctr| == LEVELS
    ensures Fits(d, d.skipped, msg)
  {
    ReportFits(d.skipped);
  }

  /** What an insertion leaves alone, whatever it inserts. */
  predicate SameBut(d: Shared, e: Shared) {
    |e.buff| == |d.buff| &&
    e == d.(buff := e.buff, end := e.end, mbwi := e.mbwi, gwws := e.gwws, gFirst := e.gFirst, gLast := e.gLast)
  }

  lemma InsertFrame(d: Shared, tr: Trid, c: Counters, msg: seq<char>, level: Level)
    requires d.start <= d.end && 0 < |d.buff| && |c.ctr| == LEVELS && Fits(d, c, msg)
    ensures SameBut(d, InsertMessage(d, tr, c, msg, level))
    ensures InsertMessage(d, tr, c, msg, level).end == d.end + |ReportOf(c)| + |msg|
  {
    hide Put;
  }

  datatype Outcome = Skipped | Inserted | Queued

  function Increment(d: Shared, t: Tid, level: Level): Shared
    requires |NodeOf(d, t).ctrs.ctr| == LEVELS
  {
    d.(nodes := d.nodes[t := NodeOf(d, t).(ctrs := Incremented(NodeOf(d, t).ctrs, level))])
  }

  function Relink(d: Shared, from: Tid, to: Tid): Shared {
    d.(nodes := d.nodes[from := NodeOf(d, from).(next := Some(to))])
  }

  predicate CanAdd(d: Shared) {
    && d.start <= d.end && 0 < |d.buff| && |d.skipped.ctr| == LEVELS
    && (d.last.Some? ==> |NodeOf(d, d.last.value).ctrs.ctr| == LEVELS)
  }

  /** What a logger does on entry: the first critical section of addMsg
      (src/log.cpp:328-370). `t` brings a fresh node. */
  function AddSection(caller: Shared, t: Tid, tr: Trid, msg: seq<char>, level: Level): (Shared, Outcome)
    requires CanAdd(caller) && caller.last != Some(t)
  {
    var d := caller.(nodes := caller.nodes[t := FRESH_NODE]);
    if d.last.Some? then
      if level >= d.skipLevel then (Increment(d, d.last.value, level), Skipped)
      else (Relink(d, d.last.value, t).(last := Some(t)), Queued)
    else if Passes(d, msg) then
      PassesFits(d, msg);
      (InsertMessage(d, tr, d.skipped, msg, level).(skipped := AfterReport(d.skipped)), Inserted)
    else if level >= d.skipLevel then
      (d.(skipped := Incremented(d.skipped, level)), Skipped)
    else
      (d.(first := Some(t), last := Some(t)), Queued)
  }

  /** What a woken logger does: the second critical section (src/log.cpp:393-417). It
      checks against the shared counters but reports its own node's. */
  function RetrySection(d: Shared, t: Tid, tr: Trid, msg: seq<char>, level: Level): (Shared, Outcome)
    requires d.start <= d.end && 0 < |d.buff| && |NodeOf(d, t).ctrs.ctr| == LEVELS
    requires Passes(d, msg) ==> Fits(d, NodeOf(d, t).ctrs, msg)
  {
    if !Passes(d, msg) then (d.(first := Some(t)), Queued)
    else
      var c := NodeOf(d, t).ctrs;
      var inserted := InsertMessage(d, tr, c, msg, level);
      (inserted.(nodes := d.nodes[t := NodeOf(d, t).(ctrs := AfterReport(c))],
                 last := if d.last == Some(t) then None else d.last), Inserted)
  }

  /** src/log.cpp:94-95. */
  predicate Sleeps(d: Shared) {
    || (d.action == Proceed && d.end == d.start && d.mbwi <= d.start && d.first == None && d.gFirst == None)
    || (d.action != Proceed && d.end == d.start && d.first == None && d.gFirst == None)
  }

  /** availableSize() >= maxMessageSize, with a waiter parked (src/log.cpp:123). */
  predicate TakesWaiter(d: Shared) {
    d.first.Some? && d.end + MAX_MESSAGE <= Capacity(d)
  }

  function SnapshotSection(d: Shared): Shared {
    var g := if d.gFirst.Some? then d.(gFirst := None, gLast := None) else d;
    if TakesWaiter(d) then g.(first := None) else g
  }

  // ---------------------------------------------------------------- the whole machine

  datatype Pc =
    | Idle
    /** waits for gww.canRun; its message ends at `ticket` */
    | AwaitingWrite(ticket: nat)
    /** waits for d.canRun */
    | AwaitingSpace
    /** has consumed d.canRun, is about to take the lock again */
    | Retrying
    /** has inserted its message, is about to look at d.next */
    | HandingOn

  datatype Thread = Thread(pc: Pc, tr: Trid, msg: seq<char>, level: Level)

  const NO_THREAD := Thread(Idle, 0, "", 0)

  datatype Writer =
    | AtTop
    | Snapshotting
    /** between the snapshot and the update of start; `done` bytes have been written */
    | Writing(from: nat, to: nat, done: nat, p: Option<Tid>, g: Option<Trid>)
    | Releasing(next: Trid, p: Option<Tid>)
    /** has set canRun and given up gww.mx, is about to look at gww.next */
    | Reading(node: Trid, p: Option<Tid>)
    | Signalling(waiter: Tid)
    | Deciding
    | Stopped

  datatype Record = Report(ctr: seq<Word32>) | Message(who: Tid, text: seq<char>)
  datatype Entry = Entry(who: Tid, text: seq<char>)

  /** Where the right to insert a queued message is. */
  datatype Token = NoToken | Parked | AtWriter | Woken(byWriter: bool) | Running(byWriter: bool) | Passing(sender: Tid)

  datatype Span = Span(from: nat, to: nat)

  /** `waits`: the holder waits for the write, and will clear canRun. */
  datatype Ticket = Ticket(end: nat, holder: Tid, waits: bool)

  datatype History = History(
    /** bytes accepted into the ring, and the records they came from */
    stream: seq<char>, records: seq<Record>,
    /** messages not dropped, in the order of their first critical section */
    arrivals: seq<Entry>,
    queue: seq<Tid>, token: Token,
    /** snapshots taken since the present waiter was parked */
    snaps: nat,
    dropped: seq<nat>,
    /** drops that left the books because a 32-bit counter or total wrapped */
    lost: seq<nat>,
    /** everything handed to fwrite; the part of it from writes with from < to; the size of the rest */
    log: seq<char>, good: seq<char>, stray: nat,
    writes: seq<Span>,
    /** guaranteed-write queue, and what the writer has left to release */
    gq: seq<Trid>, gl: seq<Trid>,
    /** who queued a node last, and where the message ends */
    issued: map<Trid, Ticket>,
    /** some gww was queued while still in use, or destroyed while it was in a list */
    misused: bool,
    /** the writer once read a link other than that to the next node of its list */
    strayed: bool,
    live: set<Trid>)

  datatype State = State(d: Shared, threads: map<Tid, Thread>, writer: Writer, overrun: bool, h: History)

  datatype Step =
    | Attach(tr: Trid)
    | Detach(tr: Trid)
    | AddMsg(t: Tid, tr: Trid, msg: seq<char>, level: Level)
    | WriteConfirmed(t: Tid)
    | WakeUp(t: Tid)
    | Retry(t: Tid)
    | HandOn(t: Tid)
    | WriterWakes
    | Snapshot
    | Emit(n: nat)
    | Advance
    | Release
    | ReadNext
    | Signal
    | CheckTermination
    | EnterTerminating
    | AllowTermination

  function Th(s: State, t: Tid): Thread { if t in s.threads then s.threads[t] else NO_THREAD }

  function WithPc(s: State, t: Tid, pc: Pc): map<Tid, Thread> { s.threads[t := Th(s, t).(pc := pc)] }

  predicate InUse(s: State, tr: Trid) {
    tr in s.h.gq || tr in s.h.gl || GwwOf(s.d, tr).canRun
  }

  /** The writer, or a logger about to join the queue, may still follow a pointer to the node. */
  predicate PointedTo(s: State, tr: Trid) {
    tr in s.h.gq || tr in s.h.gl || (s.writer.Reading? && s.writer.node == tr)
  }

  predicate CanRetry(s: State, t: Tid) {
    && s.d.start <= s.d.end && 0 < |s.d.buff| && |NodeOf(s.d, t).ctrs.ctr| == LEVELS
  }

  predicate Enabled(s: State, step: Step) {
    && !s.overrun
    && match step
       case Attach(tr) => tr !in s.h.live && tr !in s.d.gwws && s.writer != Stopped // names are not used twice
       case Detach(tr) =>
         && tr in s.h.live && 1 < s.d.refCounter
         && forall t | t in s.threads :: s.threads[t].pc != Idle ==> s.threads[t].tr != tr
       case AddMsg(t, tr, msg, level) =>
         Th(s, t).pc == Idle && tr in s.h.live && MessageOk(msg) && CanAdd(s.d) && s.d.last != Some(t)
       case WriteConfirmed(t) => Th(s, t).pc.AwaitingWrite? && GwwOf(s.d, Th(s, t).tr).canRun
       case WakeUp(t) => Th(s, t).pc == AwaitingSpace && NodeOf(s.d, t).canRun
       case Retry(t) => Th(s, t).pc == Retrying && CanRetry(s, t)
       case HandOn(t) => Th(s, t).pc == HandingOn
       case WriterWakes => s.writer == AtTop && !Sleeps(s.d)
       case Snapshot => s.writer == Snapshotting && s.d.start <= s.d.end <= Capacity(s.d) && 0 < |s.d.buff|
       case Emit(n) =>
         && s.writer.Writing? && 0 < |s.d.buff| && s.writer.from <= s.writer.to <= s.writer.from + |s.d.buff|
         && s.writer.done + n <= WrittenSize(|s.d.buff|, s.writer.from, s.writer.to)
       case Advance =>
         && s.writer.Writing? && 0 < |s.d.buff| && s.writer.from <= s.writer.to <= s.writer.from + |s.d.buff|
         && s.writer.done == WrittenSize(|s.d.buff|, s.writer.from, s.writer.to)
       case Release => s.writer.Releasing?
       case ReadNext => s.writer.Reading?
       case Signal => s.writer.Signalling?
       case CheckTermination => s.writer == Deciding
       case EnterTerminating => s.writer != Stopped
       case AllowTermination => s.writer != Stopped
  }

  /** The history of an insertion: a report, if one is due, and the message. */
  function Recorded(h: History, c: Counters, t: Tid, msg: seq<char>): History
    requires |c.ctr| == LEVELS
  {
    h.(stream := h.stream + ReportOf(c) + msg,
       records := h.records + (if c.full != 0 then [Report(c.ctr)] else []) + [Message(t, msg)])
  }

  function Ticketed(s: State, h: History, t: Tid, tr: Trid, end: nat, level: Level, waits: bool): History {
    if WantsWrite(s.d, level)
    then h.(gq := h.gq + [tr], issued := h.issued[tr := Ticket(end, t, waits)], misused := h.misused || InUse(s, tr))
    else h
  }

  function Bumped(counts: seq<nat>, level: Level, amount: nat): seq<nat>
    requires |counts| == LEVELS
  {
    counts[level := counts[level] + amount]
  }

  function Plus(a: seq<nat>, b: seq<nat>): seq<nat>
    requires |a| == |b| == LEVELS
  {
    [a[0] + b[0], a[1] + b[1], a[2] + b[2], a[3] + b[3], a[4] + b[4]]
  }

  function SkipRecorded(h: History, c: Counters, level: Level): History
    requires |c.ctr| == LEVELS && |h.dropped| == LEVELS && |h.lost| == LEVELS
  {
    h.(dropped := Bumped(h.dropped, level, 1),
       lost := Bumped(h.lost, level, if c.ctr[level] == WORD - 1 then WORD else 0))
  }

  function DoAdd(s: State, t: Tid, tr: Trid, msg: seq<char>, level: Level): State
    requires Enabled(s, AddMsg(t, tr, msg, level)) && |s.h.dropped| == LEVELS && |s.h.lost| == LEVELS
  {
    var (d, outcome) := AddSection(s.d, t, tr, msg, level);
    match outcome
    case Skipped =>
      var charged := if s.d.last.Some? then NodeOf(s.d, s.d.last.value).ctrs else s.d.skipped;
      s.(d := d, h := SkipRecorded(s.h, charged, level))
    case Inserted =>
      var pc := if level <= s.d.critLevel then AwaitingWrite(d.end) else Idle;
      s.(d := d, threads := s.threads[t := Thread(pc, tr, msg, level)],
         h := Ticketed(s, Recorded(s.h, s.d.skipped, t, msg), t, tr, d.end, level, level <= s.d.critLevel)
              .(arrivals := s.h.arrivals + [Entry(t, msg)]))
    case Queued =>
      s.(d := d, threads := s.threads[t := Thread(AwaitingSpace, tr, msg, level)],
         h := s.h.(arrivals := s.h.arrivals + [Entry(t, msg)], queue := s.h.queue + [t],
                   token := if s.d.last.Some? then s.h.token else Parked,
                   snaps := if s.d.last.Some? then s.h.snaps else 0))
  }

  /** The immediate branch of addMsg, in one piece. */
  lemma AddInserts(s: State, t: Tid, tr: Trid, msg: seq<char>, level: Level)
    requires Enabled(s, AddMsg(t, tr, msg, level)) && |s.h.dropped| == LEVELS && |s.h.lost| == LEVELS
    requires s.d.last == None && Passes(s.d, msg)
    ensures Fits(s.d, s.d.skipped, msg)
    ensures var r := InsertMessage(s.d, tr, s.d.skipped, msg, level);
            SameBut(s.d, r) && r.end == s.d.end + |ReportOf(s.d.skipped)| + |msg| &&
            DoAdd(s, t, tr, msg, level) ==
              s.(d := r.(nodes := s.d.nodes[t := FRESH_NODE], skipped := AfterReport(s.d.skipped)),
                 threads := s.threads[t := Thread(if level <= s.d.critLevel then AwaitingWrite(r.end) else Idle, tr, msg, level)],
                 h := Ticketed(s, Recorded(s.h, s.d.skipped, t, msg), t, tr, r.end, level, level <= s.d.critLevel)
                      .(arrivals := s.h.arrivals + [Entry(t, msg)]))
  {
    hide Put, ReportText, Recorded, Ticketed;
    var d := s.d.(nodes := s.d.nodes[t := FRESH_NODE]);
    assert Passes(d, msg);
    PassesFits(s.d, msg);
    PassesFits(d, msg);
    InsertFrame(s.d, tr, s.d.skipped, msg, level);
    InsertFrame(d, tr, s.d.skipped, msg, level);
  }

  lemma PassesSame(d: Shared, nodes: map<Tid, Node>, msg: seq<char>)
    ensures Passes(d.(nodes := nodes), msg) == Passes(d, msg)
  {
  }

  /** The other branches move no bytes: the message is queued, or dropped if its level allows. */
  lemma AddQuiet(s: State, t: Tid, tr: Trid, msg: seq<char>, level: Level)
    requires Enabled(s, AddMsg(t, tr, msg, level)) && |s.h.dropped| == LEVELS && |s.h.lost| == LEVELS
    requires s.d.last.Some? || !Passes(s.d, msg)
    ensures var a := DoAdd(s, t, tr, msg, level);
            && a.d == s.d.(nodes := a.d.nodes, skipped := a.d.skipped, first := a.d.first, last := a.d.last)
            && a == s.(d := a.d, threads := a.threads, h := a.h)
            && a.h == s.h.(arrivals := a.h.arrivals, queue := a.h.queue, token := a.h.token,
                           snaps := a.h.snaps, dropped := a.h.dropped, lost := a.h.lost)
            && if level < s.d.skipLevel
               then && a.threads == s.threads[t := Thread(AwaitingSpace, tr, msg, level)]
                    && a.h.arrivals == s.h.arrivals + [Entry(t, msg)] && a.h.queue == s.h.queue + [t]
               else a.threads == s.threads && a.h.arrivals == s.h.arrivals && a.h.queue == s.h.queue
  {
    hide InsertMessage, Incremented, Passes;
    PassesSame(s.d, s.d.nodes[t := FRESH_NODE], msg);
  }

  function DoRetry(s: State, t: Tid): State
    requires Enabled(s, Retry(t)) && |s.h.lost| == LEVELS
  {
    var th, c := Th(s, t), NodeOf(s.d, t).ctrs;
    if Passes(s.d, th.msg) && !Fits(s.d, c, th.msg) then s.(overrun := true)
    else
      var (d, outcome) := RetrySection(s.d, t, th.tr, th.msg, th.level);
      if outcome == Queued then
        s.(d := d, threads := WithPc(s, t, AwaitingSpace), h := s.h.(token := Parked, snaps := 0))
      else
        var rest := if s.h.queue == [] then [] else s.h.queue[1..];
        s.(d := d, threads := WithPc(s, t, HandingOn),
           h := Ticketed(s, Recorded(s.h, c, t, th.msg), t, th.tr, d.end, th.level, false)
                .(queue := rest, token := if rest == [] then NoToken else Passing(t),
                  // the node dies with whatever a wrapped total kept from being reported
                  lost := if c.full != 0 then s.h.lost else Plus(s.h.lost, c.ctr)))
  }

  /** The three ways a retry can end, in one piece each. */
  lemma RetryInserts(s: State, t: Tid)
    requires Enabled(s, Retry(t)) && |s.h.lost| == LEVELS
    requires Passes(s.d, Th(s, t).msg) && Fits(s.d, NodeOf(s.d, t).ctrs, Th(s, t).msg)
    ensures var th, c := Th(s, t), NodeOf(s.d, t).ctrs;
            var r := InsertMessage(s.d, th.tr, c, th.msg, th.level);
            var rest := if s.h.queue == [] then [] else s.h.queue[1..];
            && SameBut(s.d, r) && r.end == s.d.end + |ReportOf(c)| + |th.msg|
            && DoRetry(s, t) ==
                 s.(d := r.(nodes := s.d.nodes[t := NodeOf(s.d, t).(ctrs := AfterReport(c))],
                            last := if s.d.last == Some(t) then None else s.d.last),
                    threads := WithPc(s, t, HandingOn),
                    h := Ticketed(s, Recorded(s.h, c, t, th.msg), t, th.tr, r.end, th.level, false)
                         .(queue := rest, token := if rest == [] then NoToken else Passing(t),
                           lost := if c.full != 0 then s.h.lost else Plus(s.h.lost, c.ctr)))
  {
    hide InsertMessage, ReportText, Recorded, Ticketed, Plus;
    var th, c := Th(s, t), NodeOf(s.d, t).ctrs;
    InsertFrame(s.d, th.tr, c, th.msg, th.level);
  }

  lemma RetryParks(s: State, t: Tid)
    requires Enabled(s, Retry(t)) && |s.h.lost| == LEVELS && !Passes(s.d, Th(s, t).msg)
    ensures DoRetry(s, t) == s.(d := s.d.(first := Some(t)), threads := WithPc(s, t, AwaitingSpace),
                                h := s.h.(token := Parked, snaps := 0))
  {
    hide InsertMessage, ReportText, Recorded, Ticketed, Plus;
  }

  lemma RetryStops(s: State, t: Tid)
    requires Enabled(s, Retry(t)) && |s.h.lost| == LEVELS
    requires Passes(s.d, Th(s, t).msg) && !Fits(s.d, NodeOf(s.d, t).ctrs, Th(s, t).msg)
    ensures DoRetry(s, t) == s.(overrun := true)
  {
  }

  function SetCanRun(d: Shared, t: Tid, on: bool): Shared {
    d.(nodes := d.nodes[t := NodeOf(d, t).(canRun := on)])
  }

  function SetGwwCanRun(d: Shared, tr: Trid, on: bool): Shared {
    d.(gwws := d.gwws[tr := GwwOf(d, tr).(canRun := on)])
  }

  function DoHandOn(s: State, t: Tid): State {
    var next := NodeOf(s.d, t).next;
    var returned := s.(threads := WithPc(s, t, Idle));
    if next == None then returned
    else returned.(d := SetCanRun(s.d, next.value, true), h := s.h.(token := Woken(false)))
  }

  function DoWakeUp(s: State, t: Tid): State {
    s.(d := SetCanRun(s.d, t, false), threads := WithPc(s, t, Retrying),
       h := s.h.(token := if s.h.token.Woken? then Running(s.h.token.byWriter) else s.h.token))
  }

  function DoSnapshot(s: State): State {
    var takes := TakesWaiter(s.d);
    s.(d := SnapshotSection(s.d),
       writer := Writing(s.d.start, s.d.end, 0, if takes then s.d.first else None, s.d.gFirst),
       h := s.h.(gq := if s.d.gFirst.Some? then [] else s.h.gq,
                 gl := if s.d.gFirst.Some? then s.h.gq else [],
                 token := if takes then AtWriter else s.h.token,
                 snaps := s.h.snaps + 1))
  }

  /** Part of an unlocked fwrite: it sees the ring as it is at that moment. */
  function DoEmit(s: State, n: nat): State
    requires Enabled(s, Emit(n))
  {
    var bytes := Slice(s.d.buff, s.writer.from + s.writer.done, n);
    s.(writer := s.writer.(done := s.writer.done + n),
       h := s.h.(log := s.h.log + bytes,
                 good := if s.writer.from < s.writer.to then s.h.good + bytes else s.h.good,
                 stray := if s.writer.from < s.writer.to then s.h.stray else s.h.stray + n))
  }

  function AfterRelease(p: Option<Tid>): Writer {
    if p.Some? then Signalling(p.value) else Deciding
  }

  function DoAdvance(s: State): State
    requires s.writer.Writing?
  {
    var w := s.writer;
    s.(d := s.d.(start := w.to),
       writer := if w.g.Some? then Releasing(w.g.value, w.p) else AfterRelease(w.p),
       h := s.h.(writes := s.h.writes + [Span(w.from, w.to)]))
  }

  function Head(q: seq<Trid>): Option<Trid> { if q == [] then None else Some(q[0]) }

  /** One round of the loop of src/log.cpp:144-154, up to 150: the node is its logger's again. */
  function DoRelease(s: State): State
    requires s.writer.Releasing?
  {
    s.(d := SetGwwCanRun(s.d, s.writer.next, true), writer := Reading(s.writer.next, s.writer.p),
       h := s.h.(gl := if s.h.gl == [] then [] else s.h.gl[1..]))
  }

  /** The rest of the round: src/log.cpp:151-153, under no lock. */
  function DoReadNext(s: State): State
    requires s.writer.Reading?
  {
    var next := GwwOf(s.d, s.writer.node).next;
    s.(writer := if next.Some? then Releasing(next.value, s.writer.p) else AfterRelease(s.writer.p),
       h := s.h.(strayed := s.h.strayed || next != Head(s.h.gl)))
  }

  function DoSignal(s: State): State
    requires s.writer.Signalling?
  {
    s.(d := SetCanRun(s.d, s.writer.waiter, true), writer := AtTop, h := s.h.(token := Woken(true)))
  }

  function DoCheckTermination(s: State): State {
    if s.d.action == TerminationAllowed && s.d.refCounter == 1 && s.d.start == s.d.end
    then s.(d := s.d.(refCounter := 0), writer := Stopped)
    else s.(writer := AtTop)
  }

  function Do(s: State, step: Step): State
    requires Enabled(s, step) && |s.h.dropped| == LEVELS && |s.h.lost| == LEVELS
  {
    match step
    case Attach(tr) => s.(d := s.d.(refCounter := s.d.refCounter + 1), h := s.h.(live := s.h.live + {tr}))
    case Detach(tr) =>
      s.(d := s.d.(refCounter := s.d.refCounter - 1),
         h := s.h.(live := s.h.live - {tr}, misused := s.h.misused || PointedTo(s, tr)))
    case AddMsg(t, tr, msg, level) => DoAdd(s, t, tr, msg, level)
    case WriteConfirmed(t) => s.(d := SetGwwCanRun(s.d, Th(s, t).tr, false), threads := WithPc(s, t, Idle))
    case WakeUp(t) => DoWakeUp(s, t)
    case Retry(t) => DoRetry(s, t)
    case HandOn(t) => DoHandOn(s, t)
    case WriterWakes => s.(writer := Snapshotting)
    case Snapshot => DoSnapshot(s)
    case Emit(n) => DoEmit(s, n)
    case Advance => DoAdvance(s)
    case Release => DoRelease(s)
    case ReadNext => DoReadNext(s)
    case Signal => DoSignal(s)
    case CheckTermination => DoCheckTermination(s)
    case EnterTerminating => s.(d := s.d.(action := ProceedToTermination))
    case AllowTermination => s.(d := s.d.(action := TerminationAllowed))
  }
}
