/**
 The framed lock-step transport of a 64-page block to a host. Bytes are accepted a few at a time or
 not at all; every frame waits for its exact acknowledgement; the block is released only when the
 host acknowledged an END that carries the CRC of all 64 rows.
 */
module BackupWire {
  import opened Bytes
  import opened Crc

  const RAW: nat := 4352
  const ROWS: nat := 64
  const IO_MAX: nat := 64
  const ATTEMPTS: nat := 8192
  const DATA_MS: nat := 120000

  const HELLO: nat := 1
  const BEGIN: nat := 2
  const PAGE: nat := 3
  const END: nat := 4
  const ACK: nat := 5
  const ABORT: nat := 6

  /** "OPNDBK1" and a zero byte. */
  const MAGIC: seq<Byte> := [79, 80, 78, 68, 66, 75, 49, 0]

  // ----- Frames -----------------------------------------------------------------------------------------

  datatype Frame =
    | ReadyLine(text: seq<Byte>)
    | BeginFrame(fields: seq<nat>)
    | PageFrame(sequence: nat, fields: seq<nat>, raw: seq<Byte>)
    | EndFrame(fields: seq<nat>)

  function BodyOf(f: Frame): seq<Byte> {
    match f
    case ReadyLine(_) => []
    case BeginFrame(fields) => Words(fields)
    case PageFrame(_, fields, raw) => Words(fields) + raw
    case EndFrame(fields) => Words(fields)
  }

  function Kind(f: Frame): nat { if f.BeginFrame? then BEGIN else if f.PageFrame? then PAGE else END }

  function Sequence(f: Frame): nat { if f.PageFrame? then f.sequence else if f.EndFrame? then 65 else 0 }

  function Row(f: Frame): nat { if f.PageFrame? then 65535 + f.sequence else 65536 }

  /** The sum a register ends as; over the bytes of a message, its CRC-32. */
  function Final(state: bv32): nat { (!state) as nat }

  function CrcOf(data: seq<Byte>): nat { Final(Register(0xffff_ffff, data)) }

  function HeaderBytes(nonce: seq<Byte>, kind: nat, sequence: nat, length: nat, row: nat, crc: nat): seq<Byte> {
    var h := MAGIC + (LE(2, 1) + LE(2, kind) + LE(2, 48) + LE(2, 0)) + nonce
             + (LE(2, sequence) + LE(2, length) + LE(4, row) + LE(4, crc));
    h + LE(4, CrcOf(h))
  }

  function FrameBytes(nonce: seq<Byte>, f: Frame): seq<Byte> {
    if f.ReadyLine? then f.text
    else HeaderBytes(nonce, Kind(f), Sequence(f), |BodyOf(f)|, Row(f), CrcOf(BodyOf(f))) + BodyOf(f)
  }

  /** Everything a list of frames is on the wire. */
  function Wired(nonce: seq<Byte>, plan: seq<Frame>): seq<Byte> {
    if plan == [] then [] else Wired(nonce, plan[..|plan| - 1]) + FrameBytes(nonce, plan[|plan| - 1])
  }

  function Flat(pages: seq<seq<Byte>>): seq<Byte> {
    if pages == [] then [] else Flat(pages[..|pages| - 1]) + pages[|pages| - 1]
  }

  /** The order of frames: the line, BEGIN, the pages numbered from one, and END only at the end. */
  predicate InOrder(plan: seq<Frame>) { forall i :: 0 <= i < |plan| ==> Belongs(plan[i], i, |plan|) }

  /** A frame may stand at place `i` of `n`. */
  predicate Belongs(f: Frame, i: nat, n: nat) {
    if i == 0 then f.ReadyLine?
    else (f.EndFrame? && i == n - 1) || (if i == 1 then f.BeginFrame? else f.PageFrame? && f.sequence == i - 1)
  }

  predicate NoEnd(plan: seq<Frame>) { forall i :: 0 <= i < |plan| ==> !plan[i].EndFrame? }

  /** The frame may come next after a plan that has not ended. */
  predicate Follows(plan: seq<Frame>, f: Frame) {
    f.EndFrame? || (if |plan| == 1 then f.BeginFrame? else f.PageFrame? && f.sequence == |plan| - 1)
  }

  /** What went out is the planned frames in order, whole but for the last, and END only as the end. */
  ghost predicate OnWire(nonce: seq<Byte>, plan: seq<Frame>, emitted: seq<Byte>, whole: bool, ended: bool) {
    && InOrder(plan) && emitted <= Wired(nonce, plan) && (whole ==> emitted == Wired(nonce, plan))
    && (plan != [] ==> Wired(nonce, plan[..|plan| - 1]) <= emitted)
    && (!ended ==> NoEnd(plan))
  }

  /** The acknowledged rows: each was a page of the plan, and the host returned exactly its acknowledgement. */
  ghost predicate Rows(nonce: seq<Byte>, plan: seq<Frame>, pages: seq<seq<Byte>>, acks: seq<seq<Byte>>) {
    && |acks| == |pages| <= ROWS && (pages != [] ==> |plan| >= 2 + |pages|)
    && forall k :: 0 <= k < |pages| ==> RowIs(nonce, plan[2 + k], k, pages[k], acks[k])
  }

  ghost predicate RowIs(nonce: seq<Byte>, f: Frame, k: nat, page: seq<Byte>, ack: seq<Byte>) {
    && f.PageFrame? && f.raw == page && |page| == RAW
    && ack == AckBytes(nonce, k + 1, 65536 + k, CrcOf(BodyOf(f)), k + 1)
  }

  /** The words a clean END must carry, given what was sent, acknowledged and summed. */
  predicate CleanEnd(f: seq<nat>, sent: nat, acked: nat, crc: nat, stopped: bool)
    requires |f| == 44
  {
    && f[0] == 0 && f[1] == 1 && f[2] == 0 && f[3] == 1 && f[4] == 0 && f[5] == 1
    && f[6] == 64 && f[7] == 64 && f[8] == 64 && f[9] == 278528 && sent == 64 && acked == 64
    && 64 <= f[11] <= 512 && 64 <= f[12] <= 512 && f[10] == 463 + f[11] + f[12]
    && f[13] == 1 && f[14] == 1 && f[15] == 1 && f[16] == 1 && f[17] == 1 && f[18] == 16 && f[19] == 1 && f[20] == 124
    && f[21] == 1 && f[22] == 124 && f[23] == 1 && f[24] <= 255 && f[24] % 16 == 0 && f[24] < 128 && f[25] == 1
      && f[26] == 0
    && f[27] == 1 && f[28] == 16 && f[29] == 0 && f[30] == 1 && f[31] == crc && f[32] == 1 && f[33] == 0 && f[34] == 0
    && f[35] == 1 && f[36] == 1 && f[37] == 1 && f[38] == 1 && f[39] == 1 && f[40] == 1 && f[42] == 0 && f[43] == 1
      && !stopped
  }

  type Word = n: nat | n < 0x1_0000_0000

  /** Bits 0 to 3 and 7 of a byte are clear. */
  predicate StatusClear(n: nat) { n <= 255 && n % 16 == 0 && n < 128 }

  predicate BeginOk(f: seq<Word>)
    requires |f| == 16
  {
    && f[..12] == [1024, 65536, 64, 4352, 278528, 15, 0x2c35, 3, 0, 0x7c, 0x10, 0]
    && StatusClear(f[12]) && f[13] == 10 && f[14] == 0 && f[15] == 0
  }

  predicate PageOk(f: seq<Word>)
    requires |f| == 16
  {
    && f[0] == f[1] && f[2] == 1 && f[3] == 7 && 1 <= f[4] <= 8 && 1 <= f[5] <= 8 && f[10] == 0
    && f[11] == 7 + f[4] + f[5] && f[12] == 4356 && f[13] == 4356 && f[14] == 4356 && f[15] == 4356
    && StatusClear(f[6]) && StatusClear(f[7]) && StatusClear(f[8]) && StatusClear(f[9])
  }

  /** Zero or a negative 32-bit number. */
  predicate Status(n: Word) { n == 0 || n > 0x7fff_ffff }

  predicate EndOk(f: seq<Word>, sent: nat, acked: nat)
    requires |f| == 44
  {
    && Status(f[0]) && Status(f[2]) && Status(f[4]) && Status(f[42])
    && f[1] <= 15 && f[3] <= 15 && f[5] <= 3 && f[6] <= 64 && f[7] == sent && f[8] == acked && f[9] == acked * 4352
    && f[10] <= 1487 && f[11] <= 512 && f[12] <= 512 && f[43] == 1
  }

  class Wire {
    var nonce: seq<Byte>
    var crcState: bv32
    var rowsSent: nat
    var rowsAcked: nat
    var handshakeStarted: bool
    var hello: bool
    var armed: bool
    var beginAcked: bool
    var boundary: bool
    var usable: bool
    var dataStopped: bool
    var endAttempted: bool
    var cleanEnd: bool
    var reuseAllowed: bool
    var quarantined: bool
    var hostAbortReason: nat
    /** Every byte the transport accepted, and the frames whose output was started. */
    ghost var emitted: seq<Byte>
    /** Every byte the transport gave. */
    ghost var received: seq<Byte>
    ghost var plan: seq<Frame>
    /** The rows the host acknowledged, and its acknowledgements; then that of END. */
    ghost var pages: seq<seq<Byte>>
    ghost var acks: seq<seq<Byte>>
    ghost var finalAck: seq<Byte>

    constructor ()
      ensures Valid() && emitted == [] && received == [] && plan == [] && pages == [] && !handshakeStarted
        && !endAttempted && quarantined
    {
      nonce, crcState, rowsSent, rowsAcked := [], 0xffff_ffff, 0, 0;
      handshakeStarted, hello, armed, beginAcked, dataStopped, endAttempted := false, false, false, false, false, false;
      boundary, usable, quarantined, cleanEnd, reuseAllowed := true, true, true, false, false;
      hostAbortReason, received := 0, [];
      emitted, plan, pages, acks, finalAck := [], [], [], [], [];
    }

    ghost predicate Faithful()
      reads this
    {
      OnWire(nonce, plan, emitted, boundary, endAttempted)
    }

    /** Rows are acknowledged one at a time, in order, and summed. */
    ghost predicate Counted()
      reads this
    {
      && rowsAcked <= rowsSent <= rowsAcked + 1 && |pages| == rowsAcked && Rows(nonce, plan, pages, acks)
      && crcState == Register(0xffff_ffff, Flat(pages))
    }

    /** How far the frames got, as long as nothing failed. */
    ghost predicate Placed()
      reads this
    {
      && Started()
      && (!dataStopped && !endAttempted ==>
            |plan| == (if handshakeStarted then 1 else 0) + (if beginAcked then 1 else 0) + rowsAcked
            && rowsSent == rowsAcked && (beginAcked || rowsSent == 0))
    }

    ghost predicate Started()
      reads this
    {
      && (hello ==> handshakeStarted && |nonce| == 16) && (armed ==> hello) && (beginAcked ==> hello)
      && (handshakeStarted <==> plan != []) && (plan == [] ==> boundary) && (!quarantined ==> endAttempted)
    }

    /** All 64 rows were acknowledged, and the host acknowledged an END with the CRC of exactly their bytes. */
    ghost predicate Released()
      reads this
    {
      && cleanEnd && rowsAcked == ROWS && |pages| == ROWS && plan != []
      && var last := plan[|plan| - 1];
         last.EndFrame? && |last.fields| == 44 && last.fields[31] == CrcOf(Flat(pages))
         && finalAck == AckBytes(nonce, 65, 65536, CrcOf(Words(last.fields)), 64)
    }

    ghost predicate Valid()
      reads this
    {
      Faithful() && Counted() && Placed() && (!quarantined ==> Released())
    }

    predicate Admitted()
      reads this
    {
      hello && armed && usable && boundary && !dataStopped && !endAttempted
    }

    method Fail(stillUsable: bool)
      modifies this`dataStopped, this`quarantined, this`reuseAllowed, this`usable
      ensures dataStopped && quarantined && !reuseAllowed && usable == (old(usable) && stillUsable)
    {
      dataStopped, quarantined, reuseAllowed := true, true, false;
      if !stillUsable { usable := false; }
    }

    /** The deadlines of the frame and of the data phase. */
    method DeadlineCheck() returns (ok: bool)
      modifies this`dataStopped, this`quarantined, this`reuseAllowed, this`usable
      ensures if ok then Unfailed(old(dataStopped), old(quarantined), old(reuseAllowed), old(usable)) else Failed()
    {
      var late: bool := *;
      if late { Fail(false); }
      ok := !late;
    }

    ghost predicate Unfailed(stopped: bool, quarantine: bool, reuse: bool, use: bool)
      reads this
    {
      dataStopped == stopped && quarantined == quarantine && reuseAllowed == reuse && usable == use
    }

    ghost predicate Failed()
      reads this
    {
      dataStopped && quarantined && !reuseAllowed && !usable
    }

    /** One span, at most 64 bytes a time; each time the transport takes a prefix, perhaps nothing. */
    method WriteSpan(span: seq<Byte>, last: bool, tries: nat) returns (ok: bool, attempts: nat, ghost gone: nat)
      requires tries <= ATTEMPTS && !boundary && (last ==> span != [])
      modifies this`dataStopped, this`quarantined, this`reuseAllowed, this`usable, this`emitted, this`boundary
      ensures gone <= |span| && emitted == old(emitted) + span[..gone] && (ok ==> gone == |span|)
      ensures boundary <==> last && gone == |span|
      ensures tries <= attempts <= ATTEMPTS
      ensures if ok then Unfailed(old(dataStopped), old(quarantined), old(reuseAllowed), old(usable)) else Failed()
    {
      attempts, gone := tries, 0;
      var offset: nat := 0;
      while offset < |span|
        invariant gone == offset <= |span| && tries <= attempts <= ATTEMPTS
        invariant emitted == old(emitted) + span[..offset]
        invariant boundary <==> last && offset == |span|
        invariant Unfailed(old(dataStopped), old(quarantined), old(reuseAllowed), old(usable))
        decreases ATTEMPTS - attempts
      {
        ok := DeadlineCheck();
        if !ok { return; }
        if attempts >= ATTEMPTS {
          Fail(false);
          return false, attempts, gone;
        }
        attempts := attempts + 1;
        var requested: nat := if |span| - offset > IO_MAX then IO_MAX else |span| - offset;
        assert offset + requested <= |span|;
        var accepted :| 0 <= accepted;
        var error: bool := *;
        if accepted > requested {
          Fail(false);
          return false, attempts, gone;
        }
        emitted := emitted + span[offset..offset + accepted];
        assert span[..offset] + span[offset..offset + accepted] == span[..offset + accepted];
        offset := offset + accepted;
        gone := offset;
        if last && offset == |span| { boundary := true; }
        if error {
          Fail(false);
          return false, attempts, gone;
        }
        ok := DeadlineCheck();
        if !ok { return; }
      }
      ok := true;
    }

    /** Gives the spans to the transport in order. `gone` bytes left in all; if not all of them did, the
        transport is not used again; and no frame takes more than 8192 attempts. */
    method WriteSpans(spans: seq<seq<Byte>>) returns (ok: bool, attempts: nat, ghost gone: nat)
      requires spans != [] && spans[|spans| - 1] != []
      modifies this`dataStopped, this`quarantined, this`reuseAllowed, this`usable, this`emitted, this`boundary
      ensures gone <= |Flat(spans)| && emitted == old(emitted) + Flat(spans)[..gone]
      ensures boundary <==> gone == |Flat(spans)|
      ensures attempts <= ATTEMPTS
      ensures if ok then boundary && Unfailed(old(dataStopped), old(quarantined), old(reuseAllowed), old(usable))
        else Failed()
    {
      hide Flat;
      boundary := false;
      attempts, gone := 0, 0;
      NothingFlat(spans);
      for part := 0 to |spans|
        invariant attempts <= ATTEMPTS && gone == |Flat(spans[..part])| && Flat(spans[..part]) <= Flat(spans)
        invariant emitted == old(emitted) + Flat(spans[..part])
        invariant boundary <==> part == |spans|
        invariant Unfailed(old(dataStopped), old(quarantined), old(reuseAllowed), old(usable))
      {
        FlatStep(spans, part);
        ghost var some: nat;
        ghost var before, sofar := emitted, Flat(spans[..part]);
        ok, attempts, some := WriteSpan(spans[part], part + 1 == |spans|, attempts);
        Written(spans, part, some, sofar, old(emitted), before, emitted);
        gone := gone + some;
        if !ok { return; }
      }
      ok := true;
    }

    /** The next frame of the plan goes out, whole or in part. */
    method Emit(ghost f: Frame, spans: seq<seq<Byte>>) returns (ok: bool, attempts: nat)
      requires Faithful() && boundary && InOrder(plan + [f]) && (f.EndFrame? ==> endAttempted)
      requires spans != [] && spans[|spans| - 1] != [] && Flat(spans) == FrameBytes(nonce, f)
      modifies this`dataStopped, this`quarantined, this`reuseAllowed, this`usable, this`emitted, this`boundary,
               this`plan
      ensures Faithful() && plan == old(plan) + [f] && attempts <= ATTEMPTS && old(emitted) <= emitted
      ensures if ok then boundary && Unfailed(old(dataStopped), old(quarantined), old(reuseAllowed), old(usable))
        else Failed()
    {
      hide Flat, OnWire, FrameBytes, InOrder;
      ghost var gone: nat;
      ok, attempts, gone := WriteSpans(spans);
      plan := plan + [f];
      NextFrame(nonce, old(plan), f, old(emitted), gone, endAttempted);
    }

    /** Reads exactly so many bytes, in the order the transport gave them; every time it gives at most what was
        asked, perhaps nothing. */
    method ReadExact(length: nat, tries: nat) returns (ok: bool, bytes: seq<Byte>, attempts: nat)
      requires tries <= ATTEMPTS
      modifies this`dataStopped, this`quarantined, this`reuseAllowed, this`usable, this`received
      ensures tries <= attempts <= ATTEMPTS && received == old(received) + bytes && (ok ==> |bytes| == length)
      ensures if ok then Unfailed(old(dataStopped), old(quarantined), old(reuseAllowed), old(usable)) else Failed()
    {
      bytes, attempts := [], tries;
      while |bytes| < length
        invariant |bytes| <= length && tries <= attempts <= ATTEMPTS && received == old(received) + bytes
        invariant Unfailed(old(dataStopped), old(quarantined), old(reuseAllowed), old(usable))
        decreases ATTEMPTS - attempts
      {
        ok := DeadlineCheck();
        if !ok { return; }
        if attempts >= ATTEMPTS {
          Fail(false);
          return false, bytes, attempts;
        }
        attempts := attempts + 1;
        var requested: nat := if length - |bytes| > IO_MAX then IO_MAX else length - |bytes|;
        var chunk: seq<Byte> := *;
        var error: bool := *;
        if error || |chunk| > requested {
          Fail(false);
          return false, bytes, attempts;
        }
        bytes, received := bytes + chunk, received + chunk;
        ok := DeadlineCheck();
        if !ok { return; }
      }
      ok := true;
    }

    /** Nothing more is waiting to be read. */
    method NoPending() returns (ok: bool)
      modifies this`dataStopped, this`quarantined, this`reuseAllowed, this`usable
      ensures if ok then Unfailed(old(dataStopped), old(quarantined), old(reuseAllowed), old(usable)) else Failed()
    {
      var pending: bool := *;
      if pending { Fail(false); }
      ok := !pending;
    }

    /** Succeeds on the exact acknowledgement only; any other answer stops the data, and only the exact abort of
        this frame, with a reason of 1 to 4, leaves the transport usable. */
    method ReceiveAck(sequence: nat, row: nat, crc: nat, count: nat, tries: nat)
        returns (ok: bool, ghost heard: seq<Byte>)
      requires |nonce| == 16 && tries <= ATTEMPTS
      modifies this`dataStopped, this`quarantined, this`reuseAllowed, this`usable, this`received, this`hostAbortReason
      ensures if ok then Unfailed(old(dataStopped), old(quarantined), old(reuseAllowed), old(usable))
              else dataStopped && quarantined && !reuseAllowed
      ensures received == old(received) + heard
      ensures ok ==> heard == AckBytes(nonce, sequence, row, crc, count)
      ensures !ok && usable ==> Aborted(nonce, sequence, row, hostAbortReason, old(received), received)
    {
      hide Num, LE, HeaderBytes, AckBytes, AbortBytes, HeaderOk, CrcOf;
      heard := [];
      var head: seq<Byte>, body: seq<Byte>, attempts: nat;
      ok, head, attempts := ReadExact(48, tries);
      heard := head;
      if !ok { return; }
      var kind, size := Num(head[10..12]), Num(head[34..36]);
      if !HeaderOk(head) || head[16..32] != nonce || Num(head[32..34]) != sequence || Num(head[36..40]) != row
         || !((kind == ACK && size == 8) || (kind == ABORT && size == 4))
      {
        Fail(false);
        return false, heard;
      }
      ok, body, attempts := ReadExact(size, attempts);
      heard := head + body;
      if !ok { return; }
      if Num(head[40..44]) != CrcOf(body) {
        Fail(false);
        return false, heard;
      }
      ok := NoPending();
      if !ok { return; }
      ok := DeadlineCheck();
      if !ok { return; }
      if kind == ABORT {
        ok := Abort(head, body, sequence, row);
        return;
      }
      if Num(body[..4]) != crc || Num(body[4..]) != count {
        Fail(false);
        return false, heard;
      }
      AckIsExact(head, body, nonce, sequence, row, crc, count);
    }

    /** The host gave up. */
    method Abort(head: seq<Byte>, body: seq<Byte>, ghost sequence: nat, ghost row: nat) returns (ok: bool)
      requires |head| == 48 && |body| == 4 && |nonce| == 16 && HeaderOk(head) && head[16..32] == nonce
      requires Num(head[10..12]) == ABORT && Num(head[32..34]) == sequence && Num(head[34..36]) == 4
        && Num(head[36..40]) == row
      requires Num(head[40..44]) == CrcOf(body)
      modifies this`dataStopped, this`quarantined, this`reuseAllowed, this`usable, this`hostAbortReason
      ensures !ok && dataStopped && quarantined && !reuseAllowed && usable == (old(usable) && 1 <= Num(body) <= 4)
      ensures usable ==>
        hostAbortReason == Num(body) && head + body == AbortBytes(nonce, sequence, row, hostAbortReason)
    {
      hide Num, LE, HeaderBytes, HeaderOk, CrcOf;
      var reason := Num(body);
      if reason < 1 || reason > 4 {
        Fail(false);
        return false;
      }
      hostAbortReason := reason;
      AbortIsExact(head, body, nonce, sequence, row);
      Fail(true);
      ok := false;
    }

    /** frame_header: the header of a frame over its body parts. */
    method FrameHeader(kind: nat, sequence: nat, bodies: seq<seq<Byte>>, length: nat)
        returns (header: seq<Byte>, crc: nat)
      requires length == |Flat(bodies)|
      ensures crc == CrcOf(Flat(bodies))
      ensures header ==
        HeaderBytes(nonce, kind, sequence, length, if kind == PAGE then 65535 + sequence else 65536, crc)
    {
      hide Flat, Register, HeaderBytes, Final;
      var state: bv32 := 0xffff_ffff;
      NothingFlat(bodies);
      RegisterNone(state);
      for i := 0 to |bodies|
        invariant state == Register(0xffff_ffff, Flat(bodies[..i]))
      {
        FlatStep(bodies, i);
        RegisterSplit(0xffff_ffff, Flat(bodies[..i]), bodies[i]);
        state := CrcUpdate(state, bodies[i]);
      }
      assert bodies[..|bodies|] == bodies;
      crc := Final(state);
      header := HeaderBytes(nonce, kind, sequence, length, if kind == PAGE then 65535 + sequence else 65536, crc);
    }

    /** The host's HELLO: the one header with its nonce, which is not all zero. */
    method ReadHello(tries: nat) returns (ok: bool, next: seq<Byte>, ghost heard: seq<Byte>)
      requires tries <= ATTEMPTS
      modifies this`dataStopped, this`quarantined, this`reuseAllowed, this`usable, this`received
      ensures if ok then Unfailed(old(dataStopped), old(quarantined), old(reuseAllowed), old(usable)) else Failed()
      ensures old(received) <= received && (ok ==> received == old(received) + heard)
      ensures ok ==> |next| == 16 && NonZero(next) && heard == HeaderBytes(next, HELLO, 0xffff, 0, 0xffff_ffff, 0)
    {
      hide HeaderBytes, Num, HeaderOk;
      heard, next := [], [];
      var head: seq<Byte>, attempts: nat;
      ok, head, attempts := ReadExact(48, tries);
      if !ok { return; }
      next := head[16..32];
      if !HeaderOk(head) || Num(head[10..12]) != HELLO || Num(head[32..34]) != 0xffff || Num(head[34..36]) != 0
         || Num(head[36..40]) != 0xffff_ffff || Num(head[40..44]) != 0 || !NonZero(next)
      {
        Fail(false);
        return false, next, heard;
      }
      ok := NoPending();
      if !ok { return; }
      ok := DeadlineCheck();
      if !ok { return; }
      heard := head;
      HeaderIsExact(head);
    }

    /** The line, then the host's HELLO. */
    method Greet(line: seq<Byte>) returns (ok: bool, next: seq<Byte>, ghost heard: seq<Byte>)
      requires Faithful() && plan == [] && boundary && line != []
      modifies this`dataStopped, this`quarantined, this`reuseAllowed, this`usable, this`received, this`emitted,
               this`boundary, this`plan
      ensures Faithful() && plan == [ReadyLine(line)] && old(emitted) <= emitted
      ensures if ok then boundary && Unfailed(old(dataStopped), old(quarantined), old(reuseAllowed), old(usable))
        else Failed()
      ensures old(received) <= received && (ok ==> received == old(received) + heard)
      ensures ok ==> |next| == 16 && NonZero(next) && heard == HeaderBytes(next, HELLO, 0xffff, 0, 0xffff_ffff, 0)
    {
      hide OnWire, HeaderBytes, Flat, FrameBytes, InOrder, NonZero;
      next, heard := [], [];
      FirstFrame(nonce, line);
      var attempts: nat;
      ok, attempts := Emit(ReadyLine(line), [line]);
      assert plan == [ReadyLine(line)];
      if !ok { return; }
      ok, next, heard := ReadHello(attempts);
    }

    /** The line, then the host's HELLO with a fresh nonce. */
    method Handshake(line: seq<Byte>) returns (ok: bool, ghost heard: seq<Byte>)
      requires Valid() && line != []
      modifies this
      ensures Valid() && old(emitted) <= emitted && pages == old(pages) && endAttempted == old(endAttempted)
      ensures ok ==> !old(handshakeStarted) && hello && emitted == line && |nonce| == 16 && NonZero(nonce)
      ensures old(received) <= received && (ok ==> received == old(received) + heard)
      ensures ok ==> heard == HeaderBytes(nonce, HELLO, 0xffff, 0, 0xffff_ffff, 0)
      ensures !ok ==> dataStopped && quarantined
    {
      hide OnWire, Rows, Register, HeaderBytes, Flat, NonZero, AckBytes;
      heard := [];
      if handshakeStarted {
        Fail(false);
        return false, heard;
      }
      handshakeStarted := true;
      NoRows(nonce, line, pages, acks);
      var next: seq<Byte>;
      ok, next, heard := Greet(line);
      if !ok { return; }
      NonceFree(nonce, next, line, pages, acks, emitted, boundary, endAttempted);
      nonce, hello := next, true;
    }

    /** A frame with its header: the parts of the body go out as they stand. */
    method SendFrame(ghost f: Frame, kind: nat, sequence: nat, bodies: seq<seq<Byte>>, length: nat)
      returns (ok: bool, attempts: nat, crc: nat)
      requires Faithful() && Counted() && boundary && plan != [] && NoEnd(plan) && Follows(plan, f)
        && (f.EndFrame? ==> endAttempted)
      requires Kind(f) == kind && Sequence(f) == sequence && Flat(bodies) == BodyOf(f) && length == |BodyOf(f)|
      requires bodies != [] && bodies[|bodies| - 1] != []
      modifies this`dataStopped, this`quarantined, this`reuseAllowed, this`usable, this`emitted, this`boundary,
               this`plan
      ensures Faithful() && Counted() && plan == old(plan) + [f] && attempts <= ATTEMPTS && old(emitted) <= emitted
      ensures crc == CrcOf(BodyOf(f)) && Rows(nonce, old(plan), pages, acks)
      ensures if ok then boundary && Unfailed(old(dataStopped), old(quarantined), old(reuseAllowed), old(usable))
        else Failed()
    {
      hide Flat, OnWire, InOrder, HeaderBytes, Rows, Register, NoEnd, BodyOf;
      NextInOrder(nonce, plan, f, emitted, boundary, endAttempted);
      RowsKept(nonce, plan, f, pages, acks);
      var header: seq<Byte>;
      header, crc := FrameHeader(kind, sequence, bodies, length);
      FlatCons(header, bodies);
      ok, attempts := Emit(f, [header] + bodies);
    }

    /** Fixes the absolute end of the data phase, once. */
    method ArmDataDeadline(now: nat, absolute: nat) returns (ok: bool)
      requires Valid() && now < 0x1_0000_0000 && absolute < 0x1_0000_0000
      modifies this`armed, this`dataStopped, this`quarantined, this`reuseAllowed, this`usable
      ensures Valid() && (ok ==> armed && !old(armed) && quarantined == old(quarantined))
        && (!ok ==> quarantined && dataStopped)
      ensures ok <==>
        && old(hello) && !old(armed) && !old(dataStopped) && !endAttempted
        && 0 < (absolute - now) % 0x1_0000_0000 <= DATA_MS
    {
      hide OnWire, Rows, Register, Flat;
      if !hello || armed || dataStopped || endAttempted {
        Fail(false);
        return false;
      }
      var remaining := (absolute - now) % 0x1_0000_0000;
      if !(remaining != 0 && remaining <= 0x7fff_ffff) || remaining > DATA_MS {
        Fail(true);
        return false;
      }
      armed := true;
      ok := true;
    }

    /** BEGIN and its acknowledgement. */
    method SendBegin(fields: seq<Word>) returns (ok: bool, ghost heard: seq<Byte>)
      requires Valid() && |fields| == 16
      modifies this
      ensures Valid() && old(emitted) <= emitted && pages == old(pages) && rowsSent == old(rowsSent)
      ensures ok ==>
        && old(Admitted()) && !old(beginAcked) && BeginOk(fields) && beginAcked
        && plan == old(plan) + [BeginFrame(fields)]
      ensures ok ==> received == old(received) + heard && heard == AckBytes(nonce, 0, 65536, CrcOf(Words(fields)), 0)
      ensures !ok && usable ==> plan == old(plan) || Aborted(nonce, 0, 65536, hostAbortReason, old(received), received)
      ensures !ok ==> dataStopped && quarantined && !reuseAllowed
    {
      hide OnWire, Rows, Register, Flat, InOrder, BeginOk, AckBytes, Aborted, Released, CrcOf, Words;
      heard := [];
      if !Admitted() || beginAcked {
        Fail(false);
        return false, heard;
      }
      if !BeginOk(fields) {
        Fail(true);
        return false, heard;
      }
      ghost var f := BeginFrame(fields);
      EndIsLast(nonce, plan, emitted, boundary);
      var body := Words(fields);
      OnePart(body);
      WordsLength(fields);
      var attempts: nat, crc: nat;
      ok, attempts, crc := SendFrame(f, BEGIN, 0, [body], 64);
      if !ok { return; }
      ok, heard := ReceiveAck(0, 65536, crc, 0, attempts);
      if !ok { return; }
      beginAcked := true;
    }

    /** PAGE and its acknowledgement. A row that left whole counts as sent whatever follows; only the exact
        acknowledgement counts it as acknowledged and adds it to the sum. */
    method SendPage(fields: seq<Word>, raw: seq<Byte>) returns (ok: bool)
      requires Valid() && |fields| == 16 && |raw| == RAW
      modifies this
      ensures Valid() && old(emitted) <= emitted
      ensures ok ==>
        && old(Admitted()) && old(beginAcked) && PageOk(fields) && fields[0] == CrcOf(raw)
        && pages == old(pages) + [raw]
        && plan == old(plan) + [PageFrame(old(rowsAcked) + 1, fields, raw)]
      ensures !ok ==> pages == old(pages) && dataStopped && quarantined && !reuseAllowed
      ensures !ok && usable && plan != old(plan) ==>
        Aborted(nonce, old(rowsAcked) + 1, 65536 + old(rowsAcked), hostAbortReason, old(received), received)
      ensures rowsSent == old(rowsSent) + (if plan != old(plan) && boundary then 1 else 0)
    {
      hide OnWire, Rows, Register, Flat, InOrder, PageOk, AckBytes, CrcOf, Aborted;
      if !Admitted() || !beginAcked || rowsSent != rowsAcked || rowsAcked >= ROWS {
        Fail(false);
        return false;
      }
      if !PageOk(fields) || fields[0] != CrcOf(raw) {
        Fail(true);
        return false;
      }
      ok := SendAdmittedPage(fields, raw);
    }

    /** The exchange of one page whose call was in order. */
    method SendAdmittedPage(fields: seq<Word>, raw: seq<Byte>) returns (ok: bool)
      requires Valid() && |fields| == 16 && |raw| == RAW && Admitted() && beginAcked && rowsAcked < ROWS
      modifies this
      ensures Valid() && old(emitted) <= emitted && plan == old(plan) + [PageFrame(old(rowsAcked) + 1, fields, raw)]
      ensures ok ==> pages == old(pages) + [raw]
      ensures !ok ==> pages == old(pages) && dataStopped && quarantined && !reuseAllowed
      ensures !ok && usable ==>
        Aborted(nonce, old(rowsAcked) + 1, 65536 + old(rowsAcked), hostAbortReason, old(received), received)
      ensures rowsSent == old(rowsSent) + (if boundary then 1 else 0)
    {
      hide OnWire, Rows, Register, Flat, InOrder, AckBytes, CrcOf, Released, BodyOf, Words, Aborted;
      var sequence := rowsAcked + 1;
      ghost var f := PageFrame(sequence, fields, raw);
      EndIsLast(nonce, plan, emitted, boundary);
      var body := Words(fields);
      PageParts(sequence, fields, raw);
      var attempts: nat, crc: nat;
      ok, attempts, crc := SendFrame(f, PAGE, sequence, [body, raw], 4416);
      if boundary { rowsSent := rowsSent + 1; }
      if !ok { return; }
      ok := AwaitRow(old(plan), f, raw, crc, attempts);
    }

    /** The acknowledgement of the page just sent. */
    method AwaitRow(ghost before: seq<Frame>, ghost f: Frame, raw: seq<Byte>, crc: nat, tries: nat) returns (ok: bool)
      requires Faithful() && Counted() && Started() && hello && beginAcked && !dataStopped && !endAttempted
        && quarantined
      requires tries <= ATTEMPTS && rowsSent == rowsAcked + 1 && rowsAcked < ROWS && crc == CrcOf(BodyOf(f))
      requires |before| == 2 + |pages| && plan == before + [f] && f.PageFrame? && f.raw == raw && |raw| == RAW
      requires Rows(nonce, before, pages, acks)
      modifies this`dataStopped, this`quarantined, this`reuseAllowed, this`usable, this`received, this`hostAbortReason,
               this`rowsAcked, this`pages, this`acks, this`crcState
      ensures Valid() && quarantined && (ok ==> pages == old(pages) + [raw])
      ensures !ok ==> pages == old(pages) && dataStopped && !reuseAllowed
      ensures !ok && usable ==>
        Aborted(nonce, old(rowsAcked) + 1, 65536 + old(rowsAcked), hostAbortReason, old(received), received)
    {
      hide OnWire, Rows, Register, Flat, AckBytes, CrcOf, Released, BodyOf, Aborted;
      ghost var heard: seq<Byte>;
      var sequence := rowsAcked + 1;
      ok, heard := ReceiveAck(sequence, 65535 + sequence, crc, sequence, tries);
      if !ok { return; }
      CountRow(before, f, heard, raw);
    }

    /** The last page is acknowledged. */
    method CountRow(ghost before: seq<Frame>, ghost f: Frame, ghost heard: seq<Byte>, raw: seq<Byte>)
      requires |before| == 2 + |pages| && plan == before + [f] && f.PageFrame? && f.raw == raw && |raw| == RAW
      requires Rows(nonce, before, pages, acks) && |pages| == rowsAcked < ROWS && rowsSent == rowsAcked + 1
      requires heard == AckBytes(nonce, rowsAcked + 1, 65536 + rowsAcked, CrcOf(BodyOf(f)), rowsAcked + 1)
      requires crcState == Register(0xffff_ffff, Flat(pages))
      modifies this`rowsAcked, this`pages, this`acks, this`crcState
      ensures rowsAcked == old(rowsAcked) + 1 && pages == old(pages) + [raw] && Counted()
    {
      hide Rows, Register, Flat, AckBytes, CrcOf;
      RowsMore(nonce, before, f, pages, acks, heard);
      SumMore(pages, raw);
      rowsAcked := rowsAcked + 1;
      pages, acks := pages + [raw], acks + [heard];
      crcState := CrcUpdate(crcState, raw);
    }

    /** END, once. A clean END must carry the whole count and the sum of the acknowledged rows; only its exact
        acknowledgement lifts the quarantine. */
    method Finish(fields: seq<Word>, clean: bool) returns (ok: bool)
      requires Valid() && |fields| == 44
      modifies this
      ensures Valid() && old(emitted) <= emitted && pages == old(pages) && rowsSent == old(rowsSent)
      ensures !quarantined <==> ok && clean
      ensures ok ==> old(hello) && !old(endAttempted) && EndOk(fields, rowsSent, rowsAcked)
                     && plan == old(plan) + [EndFrame(fields)] && emitted == Wired(nonce, plan)
      ensures ok && !clean ==> fields[0] != 0 && fields[1] != 1
      ensures !ok && usable && plan != old(plan) ==>
        clean && Aborted(nonce, 65, 65536, hostAbortReason, old(received), received)
      ensures !ok ==> dataStopped && !reuseAllowed
    {
      hide OnWire, Rows, Register, Flat, InOrder, AckBytes, CrcOf, CleanEnd, EndOk, Released, Final, Wired, Aborted;
      if !hello || !usable || !boundary || endAttempted {
        Fail(false);
        return false;
      }
      EndIsLast(nonce, plan, emitted, boundary);
      endAttempted := true;
      if !EndOk(fields, rowsSent, rowsAcked)
         || (if clean then !CleanEnd(fields, rowsSent, rowsAcked, Final(crcState), dataStopped)
             else fields[0] == 0 || fields[1] == 1)
      {
        Fail(true);
        return false;
      }
      ok := SendEnd(fields, clean);
    }

    /** The exchange of an END whose call was in order. */
    method SendEnd(fields: seq<Word>, clean: bool) returns (ok: bool)
      requires Valid() && |fields| == 44 && hello && boundary && endAttempted && quarantined && NoEnd(plan)
      requires clean ==> CleanEnd(fields, rowsSent, rowsAcked, Final(crcState), dataStopped)
      modifies this
      ensures Valid() && old(emitted) <= emitted && pages == old(pages) && rowsSent == old(rowsSent)
        && rowsAcked == old(rowsAcked)
      ensures !quarantined <==> ok && clean
      ensures plan == old(plan) + [EndFrame(fields)]
      ensures ok ==> emitted == Wired(nonce, plan)
      ensures !ok && usable ==> clean && Aborted(nonce, 65, 65536, hostAbortReason, old(received), received)
      ensures !ok ==> dataStopped && !reuseAllowed
    {
      hide OnWire, Rows, Register, Flat, InOrder, AckBytes, CrcOf, CleanEnd, Words, NoEnd, Released, Final, Wired,
           FrameBytes, Aborted;
      ghost var f := EndFrame(fields);
      var body := Words(fields);
      OnePart(body);
      WordsLength(fields);
      var attempts: nat, crc: nat;
      ok, attempts, crc := SendFrame(f, END, 65, [body], 176);
      if !ok { return; }
      AllOut(nonce, plan, emitted, endAttempted);
      if !clean {
        dataStopped := true;
        return true;
      }
      ok := AwaitRelease(fields, crc, attempts);
    }

    /** The acknowledgement of a clean END releases the console. */
    method AwaitRelease(fields: seq<Word>, crc: nat, tries: nat) returns (ok: bool)
      requires Valid() && |fields| == 44 && hello && endAttempted && quarantined && tries <= ATTEMPTS
        && crc == CrcOf(Words(fields))
      requires plan != [] && plan[|plan| - 1] == EndFrame(fields)
      requires CleanEnd(fields, rowsSent, rowsAcked, Final(crcState), dataStopped)
      modifies this`dataStopped, this`quarantined, this`reuseAllowed, this`usable, this`received, this`hostAbortReason,
               this`cleanEnd, this`finalAck
      ensures Valid() && (!quarantined <==> ok) && (!ok ==> dataStopped && !reuseAllowed)
      ensures !ok && usable ==> Aborted(nonce, 65, 65536, hostAbortReason, old(received), received)
    {
      hide OnWire, Rows, Register, Flat, AckBytes, CrcOf, CleanEnd, Words, Released, Final, Aborted;
      SumIs(crcState, pages);
      CleanFields(fields, rowsSent, rowsAcked, Final(crcState), dataStopped);
      ghost var heard: seq<Byte>;
      ok, heard := ReceiveAck(65, 65536, crc, 64, tries);
      if !ok { return; }
      Release(fields, heard);
    }

    /** The quarantine is lifted. */
    method Release(ghost fields: seq<Word>, ghost heard: seq<Byte>)
      requires Faithful() && Counted() && Placed() && endAttempted && rowsAcked == ROWS
      requires plan != [] && plan[|plan| - 1] == EndFrame(fields) && |fields| == 44 && fields[31] == CrcOf(Flat(pages))
      requires heard == AckBytes(nonce, 65, 65536, CrcOf(Words(fields)), 64)
      modifies this`quarantined, this`reuseAllowed, this`cleanEnd, this`finalAck
      ensures Valid() && !quarantined
    {
      hide OnWire, Rows, Register, Flat, AckBytes, CrcOf, Words;
      cleanEnd, reuseAllowed, quarantined, finalAck := true, true, false, heard;
      ReleasedNow(fields);
    }

    lemma ReleasedNow(fields: seq<Word>)
      requires cleanEnd && rowsAcked == ROWS && |pages| == ROWS && plan != [] && plan[|plan| - 1] == EndFrame(fields)
      requires |fields| == 44 && fields[31] == CrcOf(Flat(pages))
        && finalAck == AckBytes(nonce, 65, 65536, CrcOf(Words(fields)), 64)
      ensures Released()
    {
    }
  }

  predicate NonZero(bytes: seq<Byte>) { exists i :: 0 <= i < |bytes| && bytes[i] != 0 }

  predicate HeaderOk(head: seq<Byte>)
    requires |head| == 48
  {
    && head[..8] == MAGIC && Num(head[8..10]) == 1 && Num(head[12..14]) == 48 && Num(head[14..16]) == 0
    && Num(head[44..48]) == CrcOf(head[..44])
  }

  /** The acknowledgement of one frame: the CRC of its body and the pages received. */
  function AckBytes(nonce: seq<Byte>, sequence: nat, row: nat, crc: nat, count: nat): seq<Byte> {
    var body := LE(4, crc) + LE(4, count);
    HeaderBytes(nonce, ACK, sequence, 8, row, CrcOf(body)) + body
  }

  /** The abort of one frame. */
  function AbortBytes(nonce: seq<Byte>, sequence: nat, row: nat, reason: nat): seq<Byte> {
    HeaderBytes(nonce, ABORT, sequence, 4, row, CrcOf(LE(4, reason))) + LE(4, reason)
  }

  /** Between the two logs the host aborted exactly this frame. */
  ghost predicate Aborted(nonce: seq<Byte>, sequence: nat, row: nat, reason: nat, before: seq<Byte>, after: seq<Byte>) {
    1 <= reason <= 4 && after == before + AbortBytes(nonce, sequence, row, reason)
  }

  lemma HeaderParts(head: seq<Byte>)
    requires |head| == 48
    ensures head == head[..44] + head[44..48]
    ensures head[..44] == head[..8] + head[8..16] + head[16..32] + head[32..44]
    ensures head[8..16] == head[8..10] + head[10..12] + head[12..14] + head[14..16]
    ensures head[32..44] == head[32..34] + head[34..36] + head[36..40] + head[40..44]
  {
  }

  /** A sound header is the one its fields make. */
  lemma {:induction false} HeaderIsExact(head: seq<Byte>)
    requires |head| == 48 && HeaderOk(head)
    ensures head ==
      HeaderBytes(head[16..32], Num(head[10..12]), Num(head[32..34]), Num(head[34..36]), Num(head[36..40]),
      Num(head[40..44]))
  {
    hide LE, Num, CrcOf;
    HeaderParts(head);
    LEOfNum(head[8..10]);
    LEOfNum(head[10..12]);
    LEOfNum(head[12..14]);
    LEOfNum(head[14..16]);
    LEOfNum(head[32..34]);
    LEOfNum(head[34..36]);
    LEOfNum(head[36..40]);
    LEOfNum(head[40..44]);
    LEOfNum(head[44..48]);
  }

  lemma AckIsExact(head: seq<Byte>, body: seq<Byte>, nonce: seq<Byte>, sequence: nat, row: nat, crc: nat, count: nat)
    requires |head| == 48 && |body| == 8 && |nonce| == 16 && HeaderOk(head) && head[16..32] == nonce
    requires Num(head[10..12]) == ACK && Num(head[32..34]) == sequence && Num(head[34..36]) == 8
      && Num(head[36..40]) == row
    requires Num(head[40..44]) == CrcOf(body) && Num(body[..4]) == crc && Num(body[4..]) == count
    ensures head + body == AckBytes(nonce, sequence, row, crc, count)
  {
    hide LE, Num, CrcOf, HeaderBytes;
    LEOfNum(body[..4]);
    LEOfNum(body[4..]);
    assert body == LE(4, crc) + LE(4, count);
    HeaderIsExact(head);
  }

  lemma AbortIsExact(head: seq<Byte>, body: seq<Byte>, nonce: seq<Byte>, sequence: nat, row: nat)
    requires |head| == 48 && |body| == 4 && |nonce| == 16 && HeaderOk(head) && head[16..32] == nonce
    requires Num(head[10..12]) == ABORT && Num(head[32..34]) == sequence && Num(head[34..36]) == 4
      && Num(head[36..40]) == row
    requires Num(head[40..44]) == CrcOf(body)
    ensures head + body == AbortBytes(nonce, sequence, row, Num(body))
  {
    hide LE, Num, CrcOf, HeaderBytes;
    LEOfNum(body);
    HeaderIsExact(head);
  }

  /** One more frame of the plan, of which some bytes left. */
  lemma NextFrame(nonce: seq<Byte>, before: seq<Frame>, f: Frame, start: seq<Byte>, gone: nat, ended: bool)
    requires OnWire(nonce, before, start, true, ended) && InOrder(before + [f]) && (f.EndFrame? ==> ended)
    requires gone <= |FrameBytes(nonce, f)|
    ensures OnWire(nonce, before + [f], start + FrameBytes(nonce, f)[..gone], gone == |FrameBytes(nonce, f)|, ended)
  {
    hide InOrder, FrameBytes;
    WiredStep(nonce, before, f);
    var plan, sent := before + [f], FrameBytes(nonce, f);
    assert plan[..|plan| - 1] == before;
    assert start + sent[..gone] == (start + sent)[..|start| + gone];
    assert gone == |sent| ==> sent[..gone] == sent;
  }

  lemma WiredStep(nonce: seq<Byte>, plan: seq<Frame>, f: Frame)
    ensures Wired(nonce, plan + [f]) == Wired(nonce, plan) + FrameBytes(nonce, f)
  {
    assert (plan + [f])[..|plan + [f]| - 1] == plan;
  }

  lemma FlatStep(spans: seq<seq<Byte>>, part: nat)
    requires part < |spans|
    ensures Flat(spans[..part + 1]) == Flat(spans[..part]) + spans[part] && Flat(spans[..part + 1]) <= Flat(spans)
    ensures part + 1 == |spans| ==> Flat(spans[..part + 1]) == Flat(spans)
  {
    assert spans[..part + 1][..part] == spans[..part];
    FlatPrefix(spans, part + 1);
    if part + 1 == |spans| { assert spans[..part + 1] == spans; }
  }

  lemma {:induction false} FlatPrefix(spans: seq<seq<Byte>>, n: nat)
    requires n <= |spans|
    ensures Flat(spans[..n]) <= Flat(spans)
    decreases |spans|
  {
    if n == |spans| {
      assert spans[..n] == spans;
    } else {
      FlatPrefix(spans[..|spans| - 1], n);
      assert spans[..|spans| - 1][..n] == spans[..n];
    }
  }

  lemma PrefixOf(spans: seq<seq<Byte>>, part: nat, gone: nat)
    requires part < |spans| && |Flat(spans[..part])| <= gone <= |Flat(spans[..part])| + |spans[part]|
    ensures gone <= |Flat(spans)| && (Flat(spans[..part]) + spans[part])[..gone] == Flat(spans)[..gone]
    ensures gone == |Flat(spans)| && spans[|spans| - 1] != [] ==>
      part + 1 == |spans| && gone == |Flat(spans[..part])| + |spans[part]|
    ensures part + 1 == |spans| && gone == |Flat(spans[..part])| + |spans[part]| ==> gone == |Flat(spans)|
  {
    FlatStep(spans, part);
    if part + 1 < |spans| {
      FlatPrefix(spans[..|spans| - 1], part + 1);
      assert spans[..|spans| - 1][..part + 1] == spans[..part + 1];
    }
  }

  lemma NothingFlat(spans: seq<seq<Byte>>)
    ensures Flat(spans[..0]) == [] && spans[..|spans|] == spans
  {
  }

  /** The output after some bytes of one more span. */
  lemma Written(spans: seq<seq<Byte>>, part: nat, some: nat, sofar: seq<Byte>, start: seq<Byte>, before: seq<Byte>,
      after: seq<Byte>)
    requires part < |spans| && some <= |spans[part]| && sofar == Flat(spans[..part])
    requires before == start + sofar && after == before + spans[part][..some] && spans[|spans| - 1] != []
    ensures |sofar| + some <= |Flat(spans)| && after == start + Flat(spans)[..|sofar| + some]
    ensures some == |spans[part]| ==>
      after == start + Flat(spans[..part + 1]) && |Flat(spans[..part + 1])| == |sofar| + some
    ensures |sofar| + some == |Flat(spans)| <==> part + 1 == |spans| && some == |spans[part]|
  {
    hide Flat;
    FlatStep(spans, part);
    PrefixOf(spans, part, |sofar| + some);
    Taken(sofar, spans[part], some);
  }

  lemma Taken(before: seq<Byte>, span: seq<Byte>, some: nat)
    requires some <= |span|
    ensures before + span[..some] == (before + span)[..|before| + some]
    ensures some == |span| ==> before + span[..some] == before + span
  {
  }

  lemma RegisterNone(c: bv32)
    ensures Register(c, []) == c
  {
  }

  /** The line opens the plan. */
  lemma FirstFrame(nonce: seq<Byte>, line: seq<Byte>)
    ensures [] + [ReadyLine(line)] == [ReadyLine(line)] && InOrder([ReadyLine(line)])
      && Flat([line]) == FrameBytes(nonce, ReadyLine(line))
  {
    assert [line][..0] == [] && Flat([]) == [];
  }

  lemma NoRows(nonce: seq<Byte>, line: seq<Byte>, pages: seq<seq<Byte>>, acks: seq<seq<Byte>>)
    requires Rows(nonce, [], pages, acks)
    ensures pages == [] && Rows(nonce, [ReadyLine(line)], pages, acks)
  {
  }

  /** Until the first header the nonce is not on the wire. */
  lemma NonceFree(nonce: seq<Byte>, next: seq<Byte>, line: seq<Byte>, pages: seq<seq<Byte>>, acks: seq<seq<Byte>>,
      emitted: seq<Byte>, whole: bool, ended: bool)
    requires OnWire(nonce, [ReadyLine(line)], emitted, whole, ended) && Rows(nonce, [ReadyLine(line)], pages, acks)
    ensures OnWire(next, [ReadyLine(line)], emitted, whole, ended) && Rows(next, [ReadyLine(line)], pages, acks)
    ensures whole ==> emitted == line
  {
    var plan := [ReadyLine(line)];
    assert plan[..0] == [] && Wired(nonce, []) == [] && Wired(next, []) == [];
    assert Wired(nonce, plan) == [] + line && Wired(next, plan) == [] + line;
  }

  lemma {:induction false} FlatCons(head: seq<Byte>, rest: seq<seq<Byte>>)
    ensures Flat([head] + rest) == head + Flat(rest)
  {
    var all := [head] + rest;
    if rest == [] {
      assert all[..0] == [] && all[|all| - 1] == head && Flat([]) == [];
    } else {
      FlatCons(head, rest[..|rest| - 1]);
      assert all[..|all| - 1] == [head] + rest[..|rest| - 1];
    }
  }

  lemma OnePart(body: seq<Byte>)
    ensures Flat([body]) == body
  {
    assert [body][..0] == [] && Flat([]) == [];
  }

  /** The next frame of the protocol keeps the order. */
  lemma NextInOrder(nonce: seq<Byte>, plan: seq<Frame>, f: Frame, emitted: seq<Byte>, whole: bool, ended: bool)
    requires OnWire(nonce, plan, emitted, whole, ended) && NoEnd(plan) && plan != [] && Follows(plan, f)
    ensures InOrder(plan + [f])
  {
    hide Wired;
    var all := plan + [f];
    forall i | 0 <= i < |all|
      ensures Belongs(all[i], i, |all|)
    {
      if i < |plan| { assert all[i] == plan[i] && !plan[i].EndFrame? && Belongs(plan[i], i, |plan|); }
    }
  }

  lemma RowsKept(nonce: seq<Byte>, plan: seq<Frame>, f: Frame, pages: seq<seq<Byte>>, acks: seq<seq<Byte>>)
    requires Rows(nonce, plan, pages, acks)
    ensures Rows(nonce, plan + [f], pages, acks)
  {
    hide RowIs;
    forall k | 0 <= k < |pages| ensures RowIs(nonce, (plan + [f])[2 + k], k, pages[k], acks[k]) {
      assert (plan + [f])[2 + k] == plan[2 + k];
    }
  }

  lemma PageParts(sequence: nat, fields: seq<Word>, raw: seq<Byte>)
    requires |fields| == 16 && |raw| == RAW
    ensures Flat([Words(fields), raw]) == BodyOf(PageFrame(sequence, fields, raw))
      && |BodyOf(PageFrame(sequence, fields, raw))| == 4416
  {
    TwoParts(Words(fields), raw);
    WordsLength(fields);
  }

  lemma TwoParts(a: seq<Byte>, b: seq<Byte>)
    ensures Flat([a, b]) == a + b
  {
    OnePart(b);
    FlatCons(a, [b]);
    assert [a, b] == [a] + [b];
  }

  /** One more acknowledged row. */
  lemma RowsMore(nonce: seq<Byte>, plan: seq<Frame>, f: Frame, pages: seq<seq<Byte>>, acks: seq<seq<Byte>>,
      ack: seq<Byte>)
    requires Rows(nonce, plan, pages, acks) && |plan| == 2 + |pages| && |pages| < ROWS && f.PageFrame? && |f.raw| == RAW
    requires ack == AckBytes(nonce, |pages| + 1, 65536 + |pages|, CrcOf(BodyOf(f)), |pages| + 1)
    ensures Rows(nonce, plan + [f], pages + [f.raw], acks + [ack])
  {
    assert RowIs(nonce, f, |pages|, f.raw, ack);
    hide RowIs;
    forall k | 0 <= k < |pages| + 1
      ensures RowIs(nonce, (plan + [f])[2 + k], k, (pages + [f.raw])[k], (acks + [ack])[k])
    {
      if k < |pages| { assert RowIs(nonce, plan[2 + k], k, pages[k], acks[k]) && (plan + [f])[2 + k] == plan[2 + k]; }
    }
  }

  lemma SumMore(pages: seq<seq<Byte>>, raw: seq<Byte>)
    ensures Register(Register(0xffff_ffff, Flat(pages)), raw) == Register(0xffff_ffff, Flat(pages + [raw]))
  {
    hide Register;
    assert (pages + [raw])[..|pages|] == pages;
    RegisterSplit(0xffff_ffff, Flat(pages), raw);
  }

  lemma EndIsLast(nonce: seq<Byte>, plan: seq<Frame>, emitted: seq<Byte>, whole: bool)
    requires OnWire(nonce, plan, emitted, whole, false)
    ensures NoEnd(plan) && OnWire(nonce, plan, emitted, whole, true)
  {
  }

  lemma AllOut(nonce: seq<Byte>, plan: seq<Frame>, emitted: seq<Byte>, ended: bool)
    requires OnWire(nonce, plan, emitted, true, ended)
    ensures emitted == Wired(nonce, plan)
  {
  }

  lemma SumIs(state: bv32, pages: seq<seq<Byte>>)
    requires state == Register(0xffff_ffff, Flat(pages))
    ensures Final(state) == CrcOf(Flat(pages))
  {
    hide Final, Register;
  }

  lemma CrcIsCrc32(data: seq<Byte>)
    ensures CrcOf(data) == Crc32(data) as nat
  {
    hide Register;
  }

  /** What the release relies on among the words of a clean END. */
  lemma CleanFields(f: seq<Word>, sent: nat, acked: nat, crc: nat, stopped: bool)
    requires |f| == 44 && CleanEnd(f, sent, acked, crc, stopped)
    ensures acked == ROWS && sent == ROWS && f[31] == crc && !stopped && f[0] == 0
  {
  }
}
