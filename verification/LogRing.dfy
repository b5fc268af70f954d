/** The byte ring between loggers and the writer (src/log.cpp:76-87, 271-285).

    Offsets `start` and `end` only grow; a byte of offset k lives at position k mod B.
    The code masks with `B - 1`, which is the same for its power-of-two sizes. */
module LogRing {
  /** pageSize and buffSize of LogBufferBaseData::init: both are powers of two, and a
      ring holds four pages of at least 4096 bytes or one large page. */
  const MAX_MESSAGE: nat := 0x1000

  predicate RingSize(b: nat) { b >= 4 * MAX_MESSAGE }

  /** insertSingleMsg: one memcpy, or two when the message wraps. */
  function Put(buff: seq<char>, end: nat, msg: seq<char>): (r: seq<char>)
    requires 0 < |buff| && |msg| <= |buff|
    ensures |r| == |buff|
  {
    var off := end % |buff|;
    var room := |buff| - off;
    if room >= |msg| then buff[..off] + msg + buff[off + |msg|..]
    else msg[room..] + buff[|msg| - room..off] + msg[..room]
  }

  /** Bytes of offsets [from, from + n), read one after the other. */
  function Slice(buff: seq<char>, from: nat, n: nat): (r: seq<char>)
    requires 0 < |buff|
    ensures |r| == n
    ensures forall j | 0 <= j < n :: r[j] == buff[(from + j) % |buff|]
  {
    seq(n, j requires 0 <= j < n => buff[(from + j) % |buff|])
  }

  /** justWrite: one fwrite when the masked end lies behind the masked start, else two. */
  function Written(buff: seq<char>, start: nat, end: nat): seq<char>
    requires 0 < |buff|
  {
    var startOff := start % |buff|;
    var endOff := end % |buff|;
    if endOff > startOff then buff[startOff..endOff] else buff[startOff..] + buff[..endOff]
  }

  /** How many bytes justWrite emits: the whole ring when start equals end. */
  function WrittenSize(b: nat, start: nat, end: nat): nat {
    if start < end then end - start else b
  }

  /** The ring holds the last part of the stream: every offset from `start` on. */
  ghost predicate Holds(buff: seq<char>, stream: seq<char>, start: nat) {
    && 0 < |buff|
    && start <= |stream| <= start + |buff|
    && forall k | start <= k < |stream| :: buff[k % |buff|] == stream[k]
  }

  // ---------------------------------------------------------------- modular arithmetic

  lemma MultipleGrows(b: nat, d: nat)
    requires 1 <= d
    ensures b <= b * d
  {
    assert b * d == b * (d - 1) + b;
  }

  lemma DivModUnique(b: nat, q: nat, r: nat)
    requires r < b
    ensures (b * q + r) % b == r
  {
    var p, m := (b * q + r) / b, (b * q + r) % b;
    assert b * p + m == b * q + r;
    assert b * p - b * q == b * (p - q) == -(b * (q - p));
    if p > q {
      MultipleGrows(b, p - q);
    } else if p < q {
      MultipleGrows(b, q - p);
    }
  }

  /** Position of the byte i places behind `from`. */
  lemma Position(b: nat, from: nat, i: nat)
    requires i < b
    ensures var off := from % b; (from + i) % b == if off + i < b then off + i else off + i - b
  {
    var q := from / b;
    var off := from % b;
    assert from == b * q + off;
    if off + i < b {
      DivModUnique(b, q, off + i);
      assert from + i == b * q + (off + i);
    } else {
      DivModUnique(b, q + 1, off + i - b);
      assert from + i == b * (q + 1) + (off + i - b);
    }
  }

  // ---------------------------------------------------------------- inserting

  lemma PutAt(buff: seq<char>, end: nat, msg: seq<char>, i: nat)
    requires 0 < |buff| && |msg| <= |buff| && i < |buff|
    ensures Put(buff, end, msg)[(end + i) % |buff|]
         == if i < |msg| then msg[i] else buff[(end + i) % |buff|]
  {
    Position(|buff|, end, i);
  }

  /** Inserting behind `end` extends the stream and disturbs none of its unread bytes. */
  lemma PutHolds(buff: seq<char>, stream: seq<char>, start: nat, msg: seq<char>)
    requires Holds(buff, stream, start)
    requires |stream| + |msg| <= start + |buff|
    ensures Holds(Put(buff, |stream|, msg), stream + msg, start)
  {
    var b, end, longer := |buff|, |stream|, stream + msg;
    forall k | start <= k < |longer| ensures Put(buff, end, msg)[k % b] == longer[k] {
      if k >= end {
        PutAt(buff, end, msg, k - end);
      } else {
        // the position of an older byte is that of an offset one ring further on
        var i := k + b - end;
        PutAt(buff, end, msg, i);
        SamePosition(b, k);
      }
    }
  }

  lemma SamePosition(b: nat, k: nat)
    requires 0 < b
    ensures (k + b) % b == k % b
  {
    DivModUnique(b, k / b + 1, k % b);
    assert b * (k / b + 1) == b * (k / b) + b;
  }

  // ---------------------------------------------------------------- writing out

  /** The two fwrite calls emit consecutive offsets, starting at `start`. */
  lemma WrittenIsSlice(buff: seq<char>, start: nat, end: nat)
    requires 0 < |buff| && start <= end <= start + |buff|
    ensures Written(buff, start, end) == Slice(buff, start, WrittenSize(|buff|, start, end))
  {
    var b, n := |buff|, WrittenSize(|buff|, start, end);
    var out := Written(buff, start, end);
    MaskedSize(b, start, end);
    forall j | 0 <= j < n ensures out[j] == Slice(buff, start, n)[j] {
      Position(b, start, j);
    }
  }

  /** The masked offsets give away the distance, except that 0 and B look alike. */
  lemma MaskedSize(b: nat, start: nat, end: nat)
    requires 0 < b && start <= end <= start + b
    ensures WrittenSize(b, start, end) == end % b - start % b + (if end % b > start % b then 0 else b)
  {
    if end < start + b {
      Position(b, start, end - start);
    } else {
      SamePosition(b, start);
    }
  }

  /** justWrite emits exactly the unread part of the stream if and only if there is one:
      with nothing to write it dumps all B bytes of the ring. */
  lemma WrittenExact(buff: seq<char>, stream: seq<char>, start: nat, end: nat)
    requires Holds(buff, stream, start) && start <= end <= |stream|
    ensures Written(buff, start, end) == stream[start..end] <==> start < end
    ensures start == end ==> |Written(buff, start, end)| == |buff|
  {
    WrittenIsSlice(buff, start, end);
    if start < end {
      assert Slice(buff, start, end - start) == stream[start..end];
    }
  }

  /** A piece of an unlocked write, taken while the ring holds the stream. */
  lemma SliceExact(buff: seq<char>, stream: seq<char>, start: nat, from: nat, n: nat)
    requires Holds(buff, stream, start) && start <= from && from + n <= |stream|
    ensures Slice(buff, from, n) == stream[from..from + n]
  {
  }
}
