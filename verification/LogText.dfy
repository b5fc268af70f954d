/** Counters of skipped messages and the report line printed from them
    (include/log.h:72-92, src/log.cpp:218-241). */
module LogText {
  datatype Option<T> = None | Some(value: T)

  const WORD: nat := 0x1_0000_0000
  type Word32 = n: nat | n < 0x1_0000_0000

  /** fatal, err, warning, info, debug. */
  const LEVELS: nat := 5
  type Level = n: nat | n < 5

  /** Upper bound the code uses for the size of a report (reportMaxSize, skippedCntMsgSz). */
  const REPORT_ROOM: nat := 128

  /** SkippedMsgCounters: one 32-bit counter for each level, and their 32-bit total. */
  datatype Counters = Counters(ctr: seq<Word32>, full: Word32)

  const NO_SKIPS := Counters([0, 0, 0, 0, 0], 0)

  function Total(s: seq<nat>): nat
    requires |s| == LEVELS
  {
    s[0] + s[1] + s[2] + s[3] + s[4]
  }

  /** fullCnt_ agrees with the counters as far as 32 bits can tell. */
  predicate Sound(c: Counters) {
    |c.ctr| == LEVELS && c.full == Total(c.ctr) % WORD
  }

  /** increment(l): both additions wrap at 32 bits. */
  function Incremented(c: Counters, l: Level): (r: Counters)
    requires |c.ctr| == LEVELS
    ensures |r.ctr| == LEVELS && (Sound(c) ==> Sound(r))
  {
    var r := Counters(c.ctr[l := (c.ctr[l] + 1) % WORD], (c.full + 1) % WORD);
    assert Total(r.ctr) == Total(c.ctr) + r.ctr[l] - c.ctr[l];
    r
  }

  /** A non-zero total always has a non-zero counter behind it, whatever wrapped before:
      when insertMessage decides to print a report, there is something to print. */
  lemma FullDetectsSkips(c: Counters)
    requires Sound(c) && c.full != 0
    ensures exists l: Level :: c.ctr[l] != 0
  {
    if c.ctr[0] == 0 && c.ctr[1] == 0 && c.ctr[2] == 0 && c.ctr[3] == 0 {
      assert c.ctr[4] != 0;
    }
  }

  function Name(l: Level): (name: string)
    ensures name != ""
  {
    match l
    case 0 => "fatal"
    case 1 => "err"
    case 2 => "warning"
    case 3 => "info"
    case 4 => "debug"
  }

  function Digit(d: nat): char
    requires d < 10
  {
    ('0' as int + d) as char
  }

  function Decimal(n: nat): string {
    if n < 10 then [Digit(n)] else Decimal(n / 10) + [Digit(n % 10)]
  }

  /** "{}:{}, " for one level; nothing for a zero counter. */
  function Item(c: Counters, l: Level): string
    requires |c.ctr| == LEVELS
  {
    if c.ctr[l] == 0 then "" else Name(l) + ":" + Decimal(c.ctr[l]) + ", "
  }

  function Items(c: Counters, from: nat): string
    requires |c.ctr| == LEVELS && from <= LEVELS
    decreases LEVELS - from
  {
    if from == LEVELS then "" else Item(c, from) + Items(c, from + 1)
  }

  /** The memcpy of src/log.cpp:220 copies nine characters: the blank is dropped. */
  const HEAD := "<skipped:"

  /** What toStr leaves in the buffer: the last separator becomes the closing bracket. */
  function ReportText(c: Counters): string
    requires |c.ctr| == LEVELS
  {
    var body := Items(c, 0);
    if |body| < 2 then "" else HEAD + body[..|body| - 2] + ">\n"
  }

  // ---------------------------------------------------------------- size of the report

  function Pow10(k: nat): nat { if k == 0 then 1 else 10 * Pow10(k - 1) }

  lemma {:induction false} DecimalLength(n: nat, k: nat)
    requires 0 < k && n < Pow10(k)
    ensures 1 <= |Decimal(n)| <= k
  {
    if n >= 10 {
      DecimalLength(n / 10, k - 1);
    }
  }

  lemma ItemLength(c: Counters, l: Level)
    requires |c.ctr| == LEVELS
    ensures c.ctr[l] == 0 ==> Item(c, l) == ""
    ensures c.ctr[l] != 0 ==> |Name(l)| + 4 <= |Item(c, l)| <= |Name(l)| + 13
  {
    DecimalLength(c.ctr[l], 10);
  }

  /** A report never needs more than 98 of the 128 bytes set aside for it, and it is
      non-empty exactly when some counter is non-zero. */
  lemma ReportFits(c: Counters)
    requires |c.ctr| == LEVELS
    ensures |ReportText(c)| <= 98
    ensures ReportText(c) == "" <==> forall l: Level :: c.ctr[l] == 0
    ensures |Items(c, 0)| <= 89
    ensures Items(c, 0) == "" <==> ReportText(c) == ""
  {
    var l0: Level, l1: Level, l2: Level, l3: Level, l4: Level := 0, 1, 2, 3, 4;
    ItemLength(c, l0); ItemLength(c, l1); ItemLength(c, l2); ItemLength(c, l3); ItemLength(c, l4);
    assert |Name(l0)| == 5 && |Name(l1)| == 3 && |Name(l2)| == 7 && |Name(l3)| == 4 && |Name(l4)| == 5;
    assert Items(c, 4) == Item(c, 4) + Items(c, 5);
    assert Items(c, 3) == Item(c, 3) + Items(c, 4);
    assert Items(c, 2) == Item(c, 2) + Items(c, 3);
    assert Items(c, 1) == Item(c, 1) + Items(c, 2);
    assert Items(c, 0) == Item(c, 0) + Items(c, 1);
    if c.ctr[l0] == 0 && c.ctr[l1] == 0 && c.ctr[l2] == 0 && c.ctr[l3] == 0 && c.ctr[l4] == 0 {
      forall l: Level ensures c.ctr[l] == 0 {
        assert l == 0 || l == 1 || l == 2 || l == 3 || l == 4;
      }
    }
  }

  // ---------------------------------------------------------------- reading a report back

  /** The reader's own table of level names (include/log.h:73); the printer has another. */
  const LEVEL_NAMES: seq<string> := ["fatal", "err", "warning", "info", "debug"]

  predicate IsDigit(ch: char) { '0' <= ch <= '9' }

  function ReadNumber(s: string, acc: nat): (nat, string) {
    if s != "" && IsDigit(s[0]) then ReadNumber(s[1..], acc * 10 + (s[0] as int - '0' as int))
    else (acc, s)
  }

  function ReadItems(s: string, from: nat): Option<seq<nat>>
    requires from <= LEVELS
    decreases LEVELS - from
  {
    if from == LEVELS then
      if s == "" then Some([]) else None
    else if LEVEL_NAMES[from] + ":" <= s then
      var (value, rest) := ReadNumber(s[|LEVEL_NAMES[from]| + 1..], 0);
      if value != 0 && ", " <= rest then Consed(value, ReadItems(rest[2..], from + 1)) else None
    else
      Consed(0, ReadItems(s, from + 1))
  }

  function Consed(n: nat, tail: Option<seq<nat>>): Option<seq<nat>> {
    if tail.Some? then Some([n] + tail.value) else None
  }

  /** A reader of report lines that shares nothing with the printer: a line like
      "<skipped:err:2, debug:3>\n" gives five counters. */
  function ReadReport(text: string): Option<seq<nat>> {
    if |text| >= 11 && "<skipped:" <= text && text[|text| - 2..] == ">\n"
    then ReadItems(text[9..|text| - 2] + ", ", 0)
    else None
  }

  lemma NamesMatch(l: Level)
    ensures LEVEL_NAMES[l] == Name(l)
  {
  }

  lemma {:induction false} DecimalReadsBack(n: nat, rest: string)
    ensures ReadNumber(Decimal(n) + rest, 0) == ReadNumber(rest, n)
  {
    if n < 10 {
      assert (Decimal(n) + rest)[1..] == rest;
    } else {
      var tail := [Digit(n % 10)] + rest;
      assert Decimal(n) + rest == Decimal(n / 10) + tail;
      DecimalReadsBack(n / 10, tail);
      assert tail[1..] == rest;
    }
  }

  /** What is printed for the levels from `from` on starts with one of their names, so
      it cannot be mistaken for an item of an earlier level. */
  lemma {:induction false} ItemsStart(c: Counters, from: nat, l: Level)
    requires |c.ctr| == LEVELS && l < from <= LEVELS
    ensures Items(c, from) != "" ==> Items(c, from)[0] != Name(l)[0]
    decreases LEVELS - from
  {
    if from < LEVELS {
      ItemsStart(c, from + 1, l);
      if c.ctr[from] != 0 {
        assert Items(c, from)[0] == Name(from)[0];
      } else {
        assert Items(c, from) == Items(c, from + 1);
      }
    }
  }

  lemma NotAPrefix(name: string, s: string)
    requires name != "" && (s == "" || s[0] != name[0])
    ensures !(name + ":" <= s)
  {
    assert (name + ":")[0] == name[0];
  }

  lemma ItemReadBack(value: nat, name: string, tail: string)
    ensures var s := name + ":" + Decimal(value) + ", " + tail;
            && name + ":" <= s
            && ReadNumber(s[|name| + 1..], 0) == (value, ", " + tail)
            && ", " <= ", " + tail && (", " + tail)[2..] == tail
  {
    var s := name + ":" + Decimal(value) + ", " + tail;
    var after := Decimal(value) + (", " + tail);
    assert s == name + ":" + after;
    assert s[|name| + 1..] == after;
    DecimalReadsBack(value, ", " + tail);
    assert (", " + tail)[0] == ',';
  }

  lemma ItemSkipped(c: Counters, l: Level)
    requires |c.ctr| == LEVELS && c.ctr[l] == 0
    ensures ReadItems(Items(c, l), l) == Consed(0, ReadItems(Items(c, l + 1), l + 1))
  {
    hide Decimal, ReadNumber, Name;
    NamesMatch(l);
    ItemsStart(c, l + 1, l);
    NotAPrefix(Name(l), Items(c, l + 1));
    assert Items(c, l) == Items(c, l + 1);
  }

  lemma ItemRead(c: Counters, l: Level)
    requires |c.ctr| == LEVELS && c.ctr[l] != 0
    ensures ReadItems(Items(c, l), l) == Consed(c.ctr[l], ReadItems(Items(c, l + 1), l + 1))
  {
    hide ReadNumber, Decimal, Name;
    NamesMatch(l);
    var tail := Items(c, l + 1);
    ItemReadBack(c.ctr[l], Name(l), tail);
    assert Items(c, l) == Name(l) + ":" + Decimal(c.ctr[l]) + ", " + tail;
  }

  lemma {:induction false} ItemsReadBack(c: Counters, from: nat)
    requires |c.ctr| == LEVELS && from <= LEVELS
    ensures ReadItems(Items(c, from), from) == Some(c.ctr[from..])
    decreases LEVELS - from
  {
    hide ReadNumber, Item, Name;
    if from < LEVELS {
      ItemsReadBack(c, from + 1);
      assert c.ctr[from..] == [c.ctr[from]] + c.ctr[from + 1..];
      if c.ctr[from] == 0 {
        ItemSkipped(c, from);
      } else {
        ItemRead(c, from);
      }
    } else {
      assert c.ctr[from..] == [];
    }
  }

  lemma {:induction false} ItemsEndInSeparator(c: Counters, from: nat)
    requires |c.ctr| == LEVELS && from <= LEVELS
    ensures Items(c, from) != "" ==> EndsIn(Items(c, from), ", ")
    decreases LEVELS - from
  {
    hide Name, Decimal;
    if from < LEVELS {
      ItemsEndInSeparator(c, from + 1);
      var tail := Items(c, from + 1);
      if tail == "" {
        assert Items(c, from) == Item(c, from);
      }
    }
  }

  predicate EndsIn(s: string, suffix: string) {
    |s| >= |suffix| && s[|s| - |suffix|..] == suffix
  }

  /** Head and closing bracket come off again. */
  lemma Framed(body: string)
    requires EndsIn(body, ", ")
    ensures var text := HEAD + body[..|body| - 2] + ">\n";
            && |text| >= 11 && "<skipped:" <= text && text[|text| - 2..] == ">\n"
            && text[9..|text| - 2] + ", " == body
  {
    var text := HEAD + body[..|body| - 2] + ">\n";
    assert text[9..|text| - 2] == body[..|body| - 2];
  }

  /** Reading a printed report back gives every counter, zero ones included. */
  lemma ReportRoundTrip(c: Counters)
    requires |c.ctr| == LEVELS
    requires exists l: Level :: c.ctr[l] != 0
    ensures ReadReport(ReportText(c)) == Some(c.ctr)
  {
    hide Items, ReadItems, EndsIn;
    ReportFits(c);
    ItemsEndInSeparator(c, 0);
    ItemsReadBack(c, 0);
    Framed(Items(c, 0));
    assert c.ctr[0..] == c.ctr;
  }

  // ---------------------------------------------------------------- the printing loop

  /** memcpy into a character buffer. */
  method CopyTo(buff: array<char>, pos: nat, text: string)
    requires pos + |text| <= buff.Length
    modifies buff
    ensures buff[..] == old(buff[..pos]) + text + old(buff[pos + |text|..])
  {
    forall k | 0 <= k < |text| {
      buff[pos + k] := text[k];
    }
  }

  /** fmt::format_to_n: copies what fits, returns the full size. */
  method FormatToN(buff: array<char>, pos: nat, room: nat, text: string) returns (size: nat)
    requires pos + room <= buff.Length
    modifies buff
    ensures size == |text|
    ensures var kept := if |text| < room then text else text[..room];
            buff[..] == old(buff[..pos]) + kept + old(buff[pos + |kept|..])
  {
    size := |text|;
    CopyTo(buff, pos, if |text| < room then text else text[..room]);
  }

  /** What the printing loop keeps: the items before level i are in place, and nothing
      behind `pos` has been touched. */
  ghost predicate Printed(c: Counters, i: nat, s: string, pos: nat, was: string)
    requires |c.ctr| == LEVELS
  {
    && i <= LEVELS && |HEAD| <= pos <= 98 <= |s| == |was|
    && s[..pos] + Items(c, i) == HEAD + Items(c, 0)
    && s[pos..] == was[pos..]
  }

  lemma Spliced(before: string, pos: nat, text: string, after: string, was: string)
    requires pos + |text| <= |before| == |was| && before[pos..] == was[pos..]
    requires after == before[..pos] + text + before[pos + |text|..]
    ensures |after| == |was| && after[..pos + |text|] == before[..pos] + text
    ensures after[pos + |text|..] == was[pos + |text|..]
  {
    assert forall k | pos <= k < |was| :: was[k] == was[pos..][k - pos];
    assert forall k | pos <= k < |was| :: before[k] == before[pos..][k - pos];
  }

  lemma HeadPrinted(c: Counters, s: string, was: string)
    requires |c.ctr| == LEVELS && |was| >= REPORT_ROOM
    requires s == was[..0] + HEAD + was[|HEAD|..]
    ensures Printed(c, 0, s, |HEAD|, was)
  {
    Spliced(was, 0, HEAD, s, was);
  }

  lemma ItemIs(c: Counters, l: Level)
    requires |c.ctr| == LEVELS
    ensures c.ctr[l] != 0 ==> Item(c, l) == Name(l) + ":" + Decimal(c.ctr[l]) + ", "
    ensures c.ctr[l] == 0 ==> Item(c, l) == ""
    ensures Items(c, l) == Item(c, l) + Items(c, l + 1)
    ensures Items(c, LEVELS) == ""
  {
  }

  /** One round of the printing loop, on the buffer's contents. */
  lemma ItemPrinted(c: Counters, l: Level, before: string, pos: nat, was: string)
    requires |c.ctr| == LEVELS && Printed(c, l, before, pos, was)
    ensures pos + |Item(c, l)| <= 98
    ensures var after := before[..pos] + Item(c, l) + before[pos + |Item(c, l)|..];
            Printed(c, l + 1, after, pos + |Item(c, l)|, was)
  {
    hide Items, Item;
    ItemIs(c, l);
    ReportFits(c);
    assert |before[..pos] + Items(c, l)| <= 98;
    var end := pos + |Item(c, l)|;
    var after := before[..pos] + Item(c, l) + before[end..];
    Spliced(before, pos, Item(c, l), after, was);
    Regrouped(before[..pos], Item(c, l), Items(c, l + 1));
  }

  lemma Regrouped(a: string, b: string, c: string)
    ensures (a + b) + c == a + (b + c)
  {
  }

  /** The closing bracket over the last separator. */
  lemma ReportClosed(c: Counters, s: string, pos: nat, was: string)
    requires |c.ctr| == LEVELS && Printed(c, LEVELS, s, pos, was)
    ensures pos == |HEAD| <==> ReportText(c) == ""
    ensures pos > |HEAD| ==> pos == |ReportText(c)| && s[..pos - 2] + ">\n" == ReportText(c)
  {
    hide Items;
    ItemIs(c, 0);
    ReportFits(c);
    ItemsEndInSeparator(c, 0);
    assert s[..pos] == HEAD + Items(c, 0);
    if pos > |HEAD| {
      assert s[..pos - 2] == s[..pos][..pos - 2] == HEAD + Items(c, 0)[..|Items(c, 0)| - 2];
    }
  }

  /** SkippedMsgCounters::toStr. Nothing is truncated; a report of no counters is empty,
      though the head has been written to the buffer by then. */
  method ToStr(c: Counters, buff: array<char>, sz: nat) returns (pos: nat)
    requires |c.ctr| == LEVELS
    requires REPORT_ROOM <= sz <= buff.Length
    modifies buff
    ensures pos == |ReportText(c)| <= 98 && buff[..pos] == ReportText(c)
    ensures if forall l: Level :: c.ctr[l] == 0 then pos == 0 else ReadReport(buff[..pos]) == Some(c.ctr)
    ensures var touched := if pos == 0 then 9 else pos; buff[touched..] == old(buff[touched..])
  {
    hide Items, Item, Decimal, ReportText, Name, Printed, ReadReport;
    ReportFits(c);
    if exists l: Level :: c.ctr[l] != 0 { ReportRoundTrip(c); }
    CopyTo(buff, 0, HEAD);
    HeadPrinted(c, buff[..], old(buff[..]));
    pos := 9;
    var added := false;
    var i: nat := 0;
    while i < LEVELS
      invariant Printed(c, i, buff[..], pos, old(buff[..]))
      invariant i <= LEVELS && |HEAD| <= pos <= 98
      invariant added <==> pos > |HEAD|
    {
      var l: Level := i;
      ItemPrinted(c, l, buff[..], pos, old(buff[..]));
      ItemLength(c, l);
      ItemIs(c, l);
      if c.ctr[l] != 0 && pos < sz {
        ghost var before := buff[..];
        assert before[..pos] == buff[..pos];
        assert before[pos + |Item(c, l)|..] == buff[pos + |Item(c, l)|..];
        var size := FormatToN(buff, pos, sz - pos, Name(l) + ":" + Decimal(c.ctr[l]) + ", ");
        pos := pos + size;
        added := true;
      } else {
        assert buff[..] == buff[..][..pos] + "" + buff[..][pos..];
      }
      i := i + 1;
    }
    ReportClosed(c, buff[..], pos, old(buff[..]));
    assert buff[..][pos..] == old(buff[..])[pos..] by {
      PrintedTail(c, buff[..], pos, old(buff[..]));
    }
    if added {
      ghost var text := buff[..];
      buff[pos - 2] := '>';
      buff[pos - 1] := '\n';
      assert buff[..pos] == text[..pos - 2] + ">\n";
    } else {
      pos := 0;
    }
  }

  lemma PrintedTail(c: Counters, s: string, pos: nat, was: string)
    requires |c.ctr| == LEVELS && Printed(c, LEVELS, s, pos, was)
    ensures |HEAD| <= pos <= |s| == |was| && s[pos..] == was[pos..]
  {
  }
}
