/** LogBufferBaseData in place: the critical sections as the program runs them, one
    statement after the other on shared fields and a byte array. Each is proved to be the
    critical section of the state machine. */
module LogBuffer {
  import opened LogText
  import opened LogRing
  import opened LogProtocol
  import opened LogTickets

  function Spliced(s: seq<char>, pos: nat, text: seq<char>): seq<char>
    requires pos + |text| <= |s|
  {
    s[..pos] + text + s[pos + |text|..]
  }

  lemma DropOfSum(a: seq<char>, b: seq<char>, n: nat)
    requires n <= |a|
    ensures (a + b)[n..] == a[n..] + b
  {
  }

  /** A wrapping insertion, as its two memcpy calls do it. */
  lemma PutInTwo(buff: seq<char>, end: nat, msg: seq<char>)
    requires 0 < |buff| && |msg| <= |buff|
    ensures var off, room := end % |buff|, |buff| - end % |buff|;
            Put(buff, end, msg) ==
              if room >= |msg| then Spliced(buff, off, msg)
              else Spliced(Spliced(buff, off, msg[..room]), 0, msg[room..])
  {
    var off, room := end % |buff|, |buff| - end % |buff|;
    if room < |msg| {
      var once := Spliced(buff, off, msg[..room]);
      assert once == buff[..off] + msg[..room];
      DropOfSum(buff[..off], msg[..room], |msg| - room);
      assert buff[..off][|msg| - room..] == buff[|msg| - room..off];
    }
  }

  ghost predicate LinkAt(gwws: map<Trid, Gww>, list: seq<Trid>, i: nat)
    requires i < |list|
  {
    (if list[i] in gwws then gwws[list[i]] else FRESH_GWW).next == if i + 1 < |list| then Some(list[i + 1]) else None
  }

  /** include/log.h:112-191; waiting nodes are reached through their owners' names. */
  class LogBufferBaseData {
    const buff: array<char>
    var start: nat
    var end: nat
    var mustBeWrittenImmediately: nat
    var skippedCtrs: Counters
    var firstToRelease: Option<Tid>
    var nextToAdd: Option<Tid>
    var firstToReleaseGuaranteed: Option<Trid>
    var nextToAddGuaranteed: Option<Trid>
    var action: Action
    var refCounter: nat
    var nodes: map<Tid, Node>
    var gwws: map<Trid, Gww>
    var levelCouldBeSkipped: nat
    var levelGuaranteedWrite: nat

    ghost function Abs(): Shared
      reads this, buff
    {
      Shared(buff[..], start, end, mustBeWrittenImmediately, skippedCtrs, firstToRelease, nextToAdd,
             firstToReleaseGuaranteed, nextToAddGuaranteed, action, refCounter, nodes, gwws,
             levelCouldBeSkipped, levelGuaranteedWrite)
    }

    ghost predicate Valid()
      reads this, buff
    {
      RingSize(buff.Length) && start <= end <= start + buff.Length && |skippedCtrs.ctr| == LEVELS
    }

    /** init(): four pages, or one large page. */
    constructor (memPageSz: nat, couldBeSkipped: nat)
      requires memPageSz >= 0x1000
      ensures Valid() && fresh(buff)
      ensures buff.Length == if memPageSz <= 0x4000 then 4 * memPageSz else memPageSz
      ensures Abs() == Shared(buff[..], 0, 0, 0, NO_SKIPS, None, None, None, None, Proceed, 0, map[], map[], couldBeSkipped, 0)
    {
      buff := new char[if memPageSz <= 0x4000 then memPageSz * 4 else memPageSz];
      start, end, mustBeWrittenImmediately := 0, 0, 0;
      skippedCtrs := NO_SKIPS;
      firstToRelease, nextToAdd, firstToReleaseGuaranteed, nextToAddGuaranteed := None, None, None, None;
      action, refCounter := Proceed, 0;
      nodes, gwws := map[], map[];
      levelCouldBeSkipped, levelGuaranteedWrite := couldBeSkipped, 0;
    }

    /** src/log.cpp:271-285. */
    method InsertSingleMsg(msg: seq<char>)
      requires Valid() && end + |msg| <= start + buff.Length
      modifies this`end, buff
      ensures Valid() && Abs() == InsertSingle(old(Abs()), msg)
    {
      hide Put;
      var buffSize := buff.Length;
      var endoff := end % buffSize;
      ghost var was := buff[..];
      PutInTwo(was, end, msg);
      if buffSize - endoff >= |msg| {
        CopyTo(buff, endoff, msg);
      } else {
        CopyTo(buff, endoff, msg[..buffSize - endoff]);
        CopyTo(buff, 0, msg[buffSize - endoff..]);
      }
      end := end + |msg|;
    }

    /** src/log.cpp:287-321; returns what ctrs.clear() may have left. */
    method InsertMessage(tr: Trid, msg: seq<char>, ctrs: Counters, isCritical: bool, ghost level: Level)
      returns (left: Counters)
      requires Valid() && |ctrs.ctr| == LEVELS && Fits(Abs(), ctrs, msg)
      requires isCritical <==> level <= levelGuaranteedWrite
      modifies this`end, this`mustBeWrittenImmediately, this`gwws, this`firstToReleaseGuaranteed,
               this`nextToAddGuaranteed, buff
      ensures Valid() && left == AfterReport(ctrs)
      ensures Abs() == LogProtocol.InsertMessage(old(Abs()), tr, ctrs, msg, level)
    {
      hide ReportText, Put;
      left := ctrs;
      if ctrs.full != 0 {
        var b := new char[REPORT_ROOM];
        var bsz := ToStr(ctrs, b, REPORT_ROOM);
        InsertSingleMsg(b[..bsz]);
        left := NO_SKIPS;
      }
      InsertSingleMsg(msg);
      if isCritical || action == ProceedToTermination {
        EnqueueGuaranteed(tr);
      }
    }

    /** src/log.cpp:300-314. */
    method EnqueueGuaranteed(tr: Trid)
      modifies this`mustBeWrittenImmediately, this`gwws, this`firstToReleaseGuaranteed, this`nextToAddGuaranteed
      ensures Abs() == Enqueue(old(Abs()), tr)
    {
      mustBeWrittenImmediately := end;
      gwws := gwws[tr := (if tr in gwws then gwws[tr] else FRESH_GWW).(next := None)];
      if nextToAddGuaranteed == None {
        firstToReleaseGuaranteed := Some(tr);
        nextToAddGuaranteed := Some(tr);
      } else {
        var last := nextToAddGuaranteed.value;
        gwws := gwws[last := (if last in gwws then gwws[last] else FRESH_GWW).(next := Some(tr))];
        nextToAddGuaranteed := Some(tr);
      }
    }

    function NodeAt(t: Tid): Node
      reads this`nodes
    {
      if t in nodes then nodes[t] else FRESH_NODE
    }

    /** The first critical section of addMsg, src/log.cpp:328-370. */
    method AddMsg(t: Tid, tr: Trid, msg: seq<char>, l: Level) returns (outcome: Outcome)
      requires Valid() && CanAdd(Abs()) && nextToAdd != Some(t)
      modifies this, buff
      ensures Valid() && (Abs(), outcome) == AddSection(old(Abs()), t, tr, msg, l)
      ensures var room := old(end - start) + |msg| + (if old(skippedCtrs).full == 0 then 0 else 128) <= buff.Length;
              && (outcome == Inserted <==> old(nextToAdd) == None && room)
              && (outcome == Skipped <==> !(old(nextToAdd) == None && room) && l >= levelCouldBeSkipped)
    {
      hide ReportText, Put, LogProtocol.InsertMessage, Incremented;
      nodes := nodes[t := FRESH_NODE];
      var isCritical := l <= levelGuaranteedWrite;
      var fullSzRequired := if skippedCtrs.full == 0 then |msg| else |msg| + REPORT_ROOM;
      if nextToAdd.Some? {
        var last := nextToAdd.value;
        if l >= levelCouldBeSkipped {
          nodes := nodes[last := NodeAt(last).(ctrs := Incremented(NodeAt(last).ctrs, l))];
          return Skipped;
        } else {
          nodes := nodes[last := NodeAt(last).(next := Some(t))];
          nextToAdd := Some(t);
          return Queued;
        }
      } else if end + fullSzRequired <= start + buff.Length {
        PassesFits(Abs(), msg);
        var left := InsertMessage(tr, msg, skippedCtrs, isCritical, l);
        skippedCtrs := left;
        return Inserted;
      } else if l >= levelCouldBeSkipped {
        skippedCtrs := Incremented(skippedCtrs, l);
        return Skipped;
      } else {
        firstToRelease := Some(t);
        nextToAdd := Some(t);
        return Queued;
      }
    }

    /** The second critical section of addMsg, src/log.cpp:393-417. */
    method Retry(t: Tid, tr: Trid, msg: seq<char>, l: Level) returns (outcome: Outcome)
      requires Valid() && |NodeAt(t).ctrs.ctr| == LEVELS
      requires Passes(Abs(), msg) ==> Fits(Abs(), NodeAt(t).ctrs, msg)
      modifies this, buff
      ensures Valid() && (Abs(), outcome) == RetrySection(old(Abs()), t, tr, msg, l)
      ensures outcome == if old(end - start) + |msg| + (if old(skippedCtrs).full == 0 then 0 else 128) <= buff.Length
                         then Inserted else Queued
    {
      hide ReportText, Put, LogProtocol.InsertMessage;
      var fullSzRequired := if skippedCtrs.full == 0 then |msg| else |msg| + REPORT_ROOM;
      if end + fullSzRequired > start + buff.Length {
        firstToRelease := Some(t);
        return Queued;
      }
      InsertFrame(Abs(), tr, NodeAt(t).ctrs, msg, l);
      var left := InsertMessage(tr, msg, NodeAt(t).ctrs, l <= levelGuaranteedWrite, l);
      nodes := nodes[t := NodeAt(t).(ctrs := left)];
      if nextToAdd == Some(t) {
        nextToAdd := None;
      }
      return Inserted;
    }

    /** src/log.cpp:110-129: the writer's snapshot. */
    method TakeSnapshot() returns (from: nat, to: nat, p: Option<Tid>, g: Option<Trid>)
      requires Valid()
      modifies this`firstToRelease, this`firstToReleaseGuaranteed, this`nextToAddGuaranteed
      ensures Abs() == SnapshotSection(old(Abs()))
      ensures from == start && to == end && g == old(firstToReleaseGuaranteed)
      ensures p == if end - start + 0x1000 <= buff.Length then old(firstToRelease) else None
      ensures firstToRelease == (if p.Some? then None else old(firstToRelease)) && firstToReleaseGuaranteed == None
    {
      from, to, p, g := start, end, None, None;
      if firstToReleaseGuaranteed.Some? {
        g := firstToReleaseGuaranteed;
        firstToReleaseGuaranteed := None;
        nextToAddGuaranteed := None;
      }
      if firstToRelease.Some? && buff.Length - (end - start) >= MAX_MESSAGE {
        p := firstToRelease;
        firstToRelease := None;
      }
    }

    /** src/log.cpp:76-87: what reaches the file if no logger interferes. */
    method JustWrite(from: nat, to: nat) returns (out: seq<char>)
      requires Valid() && from <= to <= from + buff.Length
      ensures out == Slice(buff[..], from, WrittenSize(buff.Length, from, to))
    {
      var startoff := from % buff.Length;
      var endoff := to % buff.Length;
      if endoff > startoff {
        out := buff[startoff..endoff];
      } else {
        out := buff[startoff..];
        out := out + buff[..endoff];
      }
      WrittenIsSlice(buff[..], from, to);
      assert out == Written(buff[..], from, to);
    }

    /** src/log.cpp:145-150: canRun is set under the node's own lock. */
    method SetCanRun(tr: Trid)
      modifies this`gwws
      ensures Abs() == SetGwwCanRun(old(Abs()), tr, true)
      ensures forall x: Trid :: GwwOf(Abs(), x).next == old(GwwOf(Abs(), x)).next
    {
      gwws := gwws[tr := (if tr in gwws then gwws[tr] else FRESH_GWW).(canRun := true)];
    }

    /** src/log.cpp:144-154: every node of the detached list is released, none is missed
        and nothing else changes, if no logger acts between 150 and 151. */
    method ReleaseAll(first: Option<Trid>, ghost list: seq<Trid>)
      requires first == Head(list) && LogBaton.Distinct(list)
      requires forall i: nat | i < |list| :: LinkAt(gwws, list, i)
      modifies this`gwws
      ensures forall tr: Trid :: GwwOf(Abs(), tr) ==
                if tr in list then old(GwwOf(Abs(), tr)).(canRun := true) else old(GwwOf(Abs(), tr))
    {
      var gww := first;
      ghost var done: nat := 0;
      while gww.Some?
        invariant done <= |list| && gww == if done < |list| then Some(list[done]) else None
        invariant forall tr: Trid :: GwwOf(Abs(), tr) ==
                    if tr in list[..done] then old(GwwOf(Abs(), tr)).(canRun := true) else old(GwwOf(Abs(), tr))
        decreases |list| - done
      {
        var tr := gww.value;
        assert old(LinkAt(gwws, list, done));
        assert tr !in list[..done];
        assert GwwOf(Abs(), tr) == old(GwwOf(Abs(), list[done]));
        SetCanRun(tr);
        var tmp := (if tr in gwws then gwws[tr] else FRESH_GWW).next;
        assert tmp == GwwOf(Abs(), tr).next;
        gww := tmp;
        assert list[..done + 1] == list[..done] + [tr];
        done := done + 1;
      }
      assert list[..done] == list;
    }

    /** include/log.h:181-190. The transports and the writer hold a reference each, so the
        writer stops if and only if it may, no transport is left and all is written. */
    method TerminateIfAlone(ghost live: set<Trid>) returns (stops: bool)
      requires refCounter == |live| + 1
      modifies this`refCounter
      ensures stops <==> action == TerminationAllowed && live == {} && start == end
      ensures Abs() == if stops then old(Abs()).(refCounter := 0) else old(Abs())
    {
      stops := action == TerminationAllowed && refCounter == 1 && start == end;
      if stops {
        refCounter := 0;
      }
    }
  }
}
