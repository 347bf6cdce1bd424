/**
 Responses as bytes: the builders of `durable_ble_codec.c` and the broker's test of a response, which builds the
 one it expects and compares. For a stream the bytes say exactly what `Broker` takes a frame to be, so the results
 about streams are results about the bytes that were enqueued: put together they are the requested part of the
 object.
 */
module ResponseCodec {
  import opened Bytes
  import opened BrokerRuns
  import opened BrokerSafety
  import opened BrokerStream
  import B = Broker
  import P = OwnedPage

  const CATALOG: nat := 0x30
  const MANIFEST: nat := 0x31
  const SEGMENT: nat := 0x32
  const RECEIVE_ACK: nat := 0x33
  const DELETE: nat := 0x34
  const FULL_CATALOG: nat := 0x38
  const FULL_SEGMENT: nat := 0x3a
  const FULL_RECEIVE_ACK: nat := 0x3b
  const FULL_DELETE: nat := 0x3c
  const FULL_STREAM: nat := 0x3d
  const FULL_RECEIVE_RANGE: nat := 0x3e

  const MAX_RESPONSE: nat := 225
  const MAX_DATA: nat := 52
  const FULL_MAX_DATA: nat := 192
  const STREAM_MAX_DATA: nat := 4096
  const MAX_CATALOG: nat := 640
  const FULL_MAX_CATALOG: nat := 2176
  const MAX_CONTAINER: nat := 34357
  const FULL_MAX_SEGMENTS: nat := 5120
  const RECEIPT_BATCH_MAX: nat := 32
  const I64_MAX: nat := 0x7fff_ffff_ffff_ffff

  /** struct db_request. */
  datatype Query = Query(
    command: nat, sequence: nat, nonce: seq<Byte>, recording: seq<Byte>, operation: seq<Byte>, sha256: seq<Byte>,
    revision: nat, segment: nat, containerBytes: nat, offset: nat, maximum: nat)

  /** What the widths of the struct allow. */
  predicate Sized(q: Query) {
    && |q.nonce| == 16 && |q.recording| == 16 && |q.operation| == 16 && |q.sha256| == 32
    && q.command < 0x100 && q.sequence < 0x1_0000 && q.maximum < 0x1_0000
    && q.offset < 0x1_0000_0000 && q.segment < 0x1_0000_0000 && q.containerBytes < 0x1_0000_0000
  }

  predicate IsFull(command: nat) { FULL_CATALOG <= command <= FULL_RECEIVE_RANGE }

  function KindOf(command: nat): nat {
    if command == FULL_RECEIVE_RANGE then RECEIVE_ACK
    else if command == FULL_STREAM then SEGMENT
    else if IsFull(command) then command - 8
    else command
  }

  predicate Revision(v: nat, full: bool) { v <= (if full then FULL_MAX_SEGMENTS * 4 + 2 else 130) && v % 4 <= 2 }

  predicate Container(n: nat) { 425 <= n <= MAX_CONTAINER && (n - 357) % 68 == 0 }

  /** request_valid: what a parsed request satisfies. */
  predicate QueryValid(q: Query) {
    var full := IsFull(q.command);
    var maxData := if q.command == FULL_STREAM then STREAM_MAX_DATA else if full then FULL_MAX_DATA else MAX_DATA;
    var maxSegments := if full then FULL_MAX_SEGMENTS else 32;
    && P.Identity(q.nonce, 16) && q.sequence != 0
    && match KindOf(q.command)
       case 0x30 =>
         && q.offset < (if full then FULL_MAX_CATALOG else MAX_CATALOG) && 1 <= q.maximum <= maxData
         && P.AllAre(q.recording, 0) && P.AllAre(q.operation, 0) && P.AllAre(q.sha256, 0) && q.revision == 0
         && q.segment == 0 && q.containerBytes == 0
       case 0x31 =>
         && P.Identity(q.recording, 16) && P.Identity(q.sha256, 32) && Revision(q.revision, full)
         && q.offset < 128 + 64 * (q.revision / 4) && 1 <= q.maximum <= maxData && P.AllAre(q.operation, 0)
         && q.segment == 0 && q.containerBytes == 0
       case 0x32 =>
         && P.Identity(q.recording, 16) && P.Identity(q.sha256, 32) && q.segment < maxSegments
         && q.offset < MAX_CONTAINER && 1 <= q.maximum <= maxData && P.AllAre(q.operation, 0) && q.revision == 0
         && q.containerBytes == 0
       case 0x33 =>
         && P.Identity(q.recording, 16) && P.Identity(q.sha256, 32) && q.segment < maxSegments
         && (if q.command == FULL_RECEIVE_RANGE then
               1 <= q.containerBytes <= RECEIPT_BATCH_MAX && q.containerBytes <= maxSegments - q.segment
             else Container(q.containerBytes))
         && P.AllAre(q.operation, 0) && q.revision == 0 && q.offset == 0 && q.maximum == 0
       case 0x34 =>
         && P.Identity(q.operation, 16) && P.Identity(q.sha256, 32) && P.AllAre(q.recording, 0) && q.revision == 0
         && q.segment == 0 && q.containerBytes == 0 && q.offset == 0 && q.maximum == 0
       case _ => false
  }

  // ----- Building -----------------------------------------------------------------------------------------

  datatype Result = Built(frame: seq<Byte>) | BadArgument | Invalid

  function Marked(command: nat): Byte
    requires command < 0x100
  {
    if command < 0x80 then command + 0x80 else command
  }

  function Header(q: Query, payload: nat): (h: seq<Byte>)
    requires Sized(q)
    ensures |h| == 9
  {
    [79, 80, 1, Marked(q.command)] + LE(2, q.sequence) + LE(2, payload + 1) + [0]
  }

  function Min(a: nat, b: nat): nat { if a < b then a else b }

  /** How much of an object of `total` bytes the next response carries. */
  function Wanted(q: Query, total: nat): nat
    requires q.offset <= total
  {
    var wanted := Min(total - q.offset, q.maximum);
    if q.command == FULL_STREAM && wanted > FULL_MAX_DATA then FULL_MAX_DATA else wanted
  }

  predicate TotalOk(q: Query, total: nat) {
    var full := IsFull(q.command);
    && q.offset < total && (!full ==> total < 0x1_0000)
    && (KindOf(q.command) == CATALOG ==>
          128 <= total <= (if full then FULL_MAX_CATALOG else MAX_CATALOG) && (total - 128) % 64 == 0)
    && (KindOf(q.command) == MANIFEST ==> total == 128 + 64 * (q.revision / 4))
    && (KindOf(q.command) == SEGMENT ==> Container(total))
  }

  /** durable_ble_read_response. */
  function ReadResponse(q: Query, capacity: nat, total: nat, data: seq<Byte>): Result
    requires Sized(q)
  {
    var full := IsFull(q.command);
    var prefix := if full then 33 else 29;
    if |data| < 1 || |data| > (if full then FULL_MAX_DATA else MAX_DATA) || capacity != prefix + |data| then BadArgument
    else if !QueryValid(q) || KindOf(q.command) > SEGMENT || !TotalOk(q, total) then Invalid
    else if |data| != Wanted(q, total) then Invalid
    else
      Built(Header(q, prefix - 9 + |data|) + q.nonce
            + (if full then LE(4, q.offset) + LE(4, total) else LE(2, q.offset) + LE(2, total)) + data)
  }

  /** durable_ble_receipt_response. */
  function ReceiptResponse(q: Query, capacity: nat): Result
    requires Sized(q)
  {
    if capacity != 81 then BadArgument
    else if !QueryValid(q) || KindOf(q.command) != RECEIVE_ACK then Invalid
    else Built(Header(q, 72) + q.nonce + q.recording + LE(4, q.segment) + LE(4, q.containerBytes) + q.sha256)
  }

  /** durable_ble_delete_response. */
  function DeleteResponse(q: Query, capacity: nat, original: nat, tombstone: nat): Result
    requires Sized(q)
  {
    if capacity != 81 then BadArgument
    else if !QueryValid(q) || KindOf(q.command) != DELETE || !Revision(original, IsFull(q.command))
            || original % 4 == 0 || tombstone <= original || tombstone > I64_MAX then Invalid
    else Built(Header(q, 72) + q.nonce + q.operation + q.sha256 + LE(8, tombstone))
  }

  // ----- The broker's test --------------------------------------------------------------------------------

  /** response_valid: a frame is good when it is the one the codec builds for the request with the total, or the
      revision, that the frame itself names. */
  predicate ResponseValid(q: Query, p: seq<Byte>)
    requires Sized(q)
  {
    && 9 <= |p| <= MAX_RESPONSE && p[0] == 79 && p[1] == 80 && p[2] == 1 && p[3] == Marked(q.command)
    && Num(p[4..6]) == q.sequence && Num(p[6..8]) == |p| - 8 && p[8] == 0
    && if CATALOG <= q.command <= SEGMENT then
         |p| >= 30 && ReadResponse(q, |p|, Num(p[27..29]), p[29..]) == Built(p)
       else if FULL_CATALOG <= q.command <= FULL_SEGMENT || q.command == FULL_STREAM then
         |p| >= 34 && ReadResponse(q, |p|, Num(p[29..33]), p[33..]) == Built(p)
       else if q.command == RECEIVE_ACK || q.command == FULL_RECEIVE_ACK || q.command == FULL_RECEIVE_RANGE then
         ReceiptResponse(q, |p|) == Built(p)
       else if q.command == DELETE || q.command == FULL_DELETE then
         |p| == 81 && DeleteResponse(q, |p|, 1, Num(p[73..81])) == Built(p)
       else false
  }

  /** The request as it stands once `sent` bytes of its stream went out, in the widths of the struct. */
  function Moved(q: Query, sent: nat): Query {
    q.(offset := (q.offset + sent) % 0x1_0000_0000, maximum := (q.maximum - sent) % 0x1_0000)
  }

  /** The verdict of `complete` on a frame, where `sent` bytes of `total` (0: not known yet) went out. */
  predicate Verdict(q: Query, sent: nat, total: nat, p: seq<Byte>, more: bool)
    requires Sized(q)
  {
    if q.command == FULL_STREAM then
      var r := Moved(q, sent);
      && ResponseValid(r, p)
      && |p| >= 33
      && var incoming := Num(p[29..33]);
         var left := Min((incoming - r.offset) % 0x1_0000_0000, r.maximum);
         (total == 0 || total == incoming) && (|p| - 33 < left <==> more)
    else ResponseValid(q, p) && !more
  }

  // ----- What a stream frame says, field by field ---------------------------------------------------------

  /** The frame names its request: everything before the offset, and its own length. */
  predicate Heads(q: Query, p: seq<Byte>)
    requires Sized(q) && 34 <= |p| <= MAX_RESPONSE
  {
    p[..9] == Header(q, |p| - 9) && p[9..25] == q.nonce
  }

  lemma HeaderIff(q: Query, p: seq<Byte>)
    requires Sized(q) && 9 <= |p| <= MAX_RESPONSE
    ensures p[..9] == Header(q, |p| - 9) <==>
      && p[0] == 79 && p[1] == 80 && p[2] == 1 && p[3] == Marked(q.command)
      && Num(p[4..6]) == q.sequence && Num(p[6..8]) == |p| - 8 && p[8] == 0
  {
    hide LE, Num;
    Powers();
    FieldIs(p[4..6], 2, q.sequence);
    FieldIs(p[6..8], 2, |p| - 8);
    HeaderCuts(p, q.sequence, |p| - 8, Marked(q.command));
  }

  lemma HeaderCuts(p: seq<Byte>, sequence: nat, size: nat, mark: Byte)
    requires |p| >= 9
    ensures p[..9] == [79, 80, 1, mark] + LE(2, sequence) + LE(2, size) + [0] <==>
      && p[0] == 79 && p[1] == 80 && p[2] == 1 && p[3] == mark && p[4..6] == LE(2, sequence) && p[6..8] == LE(2, size)
      && p[8] == 0
  {
    hide LE;
    var h := [79, 80, 1, mark] + LE(2, sequence) + LE(2, size) + [0];
    assert h[4..6] == LE(2, sequence) && h[6..8] == LE(2, size);
    if p[..9] == h {
      assert p[4..6] == p[..9][4..6] && p[6..8] == p[..9][6..8];
      assert p[0] == p[..9][0] && p[1] == p[..9][1] && p[2] == p[..9][2] && p[3] == p[..9][3] && p[8] == p[..9][8];
    }
    if p[0] == 79 && p[1] == 80 && p[2] == 1 && p[3] == mark && p[4..6] == LE(2, sequence) && p[6..8] == LE(2, size)
       && p[8] == 0 {
      assert p[..4] == [79, 80, 1, mark] && p[8..9] == [0];
      Cut(p, 4, 6);
      Cut(p, 6, 8);
      Cut(p, 8, 9);
    }
  }

  /** A stream frame is good exactly when its fields are: nothing of it is free but the total and the data. */
  lemma {:induction false} StreamFrameIff(q: Query, p: seq<Byte>)
    requires Sized(q) && q.command == FULL_STREAM
    ensures ResponseValid(q, p) <==>
      && 34 <= |p| <= MAX_RESPONSE && Heads(q, p) && QueryValid(q) && Num(p[25..29]) == q.offset
      && Container(Num(p[29..33])) && q.offset < Num(p[29..33]) && |p| - 33 == Wanted(q, Num(p[29..33]))
  {
    hide LE, Num, QueryValid, Container;
    if 34 <= |p| <= MAX_RESPONSE {
      var total := Num(p[29..33]);
      HeaderIff(q, p);
      Powers();
      FieldIs(p[25..29], 4, q.offset);
      LEOfNum(p[29..33]);
      StreamCuts(p, Header(q, |p| - 9), q.nonce, LE(4, q.offset), LE(4, total));
    }
  }

  lemma StreamCuts(p: seq<Byte>, head: seq<Byte>, nonce: seq<Byte>, offset: seq<Byte>, total: seq<Byte>)
    requires |p| >= 34 && |head| == 9 && |nonce| == 16 && |offset| == 4 && |total| == 4 && total == p[29..33]
    ensures p == head + nonce + (offset + total) + p[33..] <==>
      p[..9] == head && p[9..25] == nonce && p[25..29] == offset
  {
    CutFive(p, 9, 25, 29, 33, |p|);
    assert p[..|p|] == p && p[33..|p|] == p[33..];
    assert head + nonce + (offset + total) + p[33..] == head + nonce + offset + total + p[33..];
    var f := head + nonce + offset + total + p[33..];
    assert f[..9] == head && f[9..25] == nonce && f[25..29] == offset;
  }

  /** What the codec builds for a stream is good, and says what it was built from. */
  lemma {:induction false} BuiltIsValid(q: Query, total: nat, data: seq<Byte>)
    requires Sized(q) && q.command == FULL_STREAM && ReadResponse(q, 33 + |data|, total, data).Built?
    ensures var p := ReadResponse(q, 33 + |data|, total, data).frame;
      && |p| == 33 + |data| && ResponseValid(q, p) && Num(p[25..29]) == q.offset && Num(p[29..33]) == total
      && p[33..] == data
  {
    hide LE, Num, QueryValid, ResponseValid, Header;
    var p := ReadResponse(q, 33 + |data|, total, data).frame;
    var head := Header(q, 24 + |data|);
    Powers();
    NumOfLE(4, q.offset);
    NumOfLE(4, total);
    BuiltCuts(p, head, q.nonce, LE(4, q.offset), LE(4, total), data);
    StreamFrameIff(q, p);
  }

  lemma BuiltCuts(
      p: seq<Byte>, head: seq<Byte>, nonce: seq<Byte>, offset: seq<Byte>, total: seq<Byte>, data: seq<Byte>)
    requires |head| == 9 && |nonce| == 16 && |offset| == 4 && |total| == 4
    requires p == head + nonce + (offset + total) + data
    ensures |p| == 33 + |data| && p[..9] == head && p[9..25] == nonce && p[25..29] == offset && p[29..33] == total
    ensures p[33..] == data
  {
  }

  // ----- What the broker takes a frame to be --------------------------------------------------------------

  function RequestOf(q: Query): B.Request {
    B.Request(q.command == CATALOG || q.command == FULL_CATALOG, IsFull(q.command), q.command == FULL_STREAM,
              q.sequence, Num(q.nonce), q.offset, q.maximum)
  }

  /** The frame names the request as it then stands, and an object of a possible size. */
  predicate Echoes(q: Query, sent: nat, p: seq<Byte>)
    requires Sized(q)
  {
    34 <= |p| <= MAX_RESPONSE && Heads(q, p) && QueryValid(Moved(q, sent)) && Container(Num(p[29..33]))
  }

  function FrameOf(q: Query, sent: nat, p: seq<Byte>): B.Response
    requires Sized(q)
  {
    if q.command != FULL_STREAM then B.Response(0, 0, 0, ResponseValid(q, p))
    else if |p| < 34 then B.Response(0, 0, 0, false)
    else B.Response(Num(p[25..29]), Num(p[29..33]), |p| - 33, Echoes(q, sent, p))
  }

  /** A valid stream request, moved on by what it may have been sent, does not leave its widths. */
  lemma MovedIs(q: Query, sent: nat)
    requires Sized(q) && QueryValid(q) && q.command == FULL_STREAM && sent <= q.maximum
    ensures Moved(q, sent) == q.(offset := q.offset + sent, maximum := q.maximum - sent) && Sized(Moved(q, sent))
    ensures QueryValid(Moved(q, sent)) ==> sent < q.maximum
  {
  }

  /** The test of the bytes is the test of what they say. */
  lemma {:induction false} VerdictIff(q: Query, sent: nat, total: nat, p: seq<Byte>, more: bool)
    requires Sized(q) && QueryValid(q) && sent <= q.maximum
    ensures Verdict(q, sent, total, p, more) <==> B.FrameOk(RequestOf(q), sent, total, FrameOf(q, sent, p), more)
  {
    hide QueryValid, Num, ResponseValid, Container, Header;
    if q.command == FULL_STREAM {
      var r := Moved(q, sent);
      MovedIs(q, sent);
      StreamFrameIff(r, p);
      if 34 <= |p| <= MAX_RESPONSE {
        SameHead(q, r, p);
        var incoming := Num(p[29..33]);
        if Container(incoming) && r.offset < incoming {
          Powers();
          LeftIs(incoming, r.offset);
        }
      }
    }
  }

  lemma SameHead(q: Query, r: Query, p: seq<Byte>)
    requires Sized(q) && Sized(r) && r == q.(offset := r.offset, maximum := r.maximum) && 34 <= |p| <= MAX_RESPONSE
    ensures Heads(q, p) <==> Heads(r, p)
  {
  }

  lemma LeftIs(incoming: nat, offset: nat)
    requires offset < incoming && Container(incoming)
    ensures (incoming - offset) % 0x1_0000_0000 == incoming - offset
  {
  }

  // ----- What the phone gets ------------------------------------------------------------------------------

  function Data(frames: seq<seq<Byte>>): seq<Byte>
    requires forall k :: 0 <= k < |frames| ==> |frames[k]| >= 33
  {
    if frames == [] then [] else Data(frames[..|frames| - 1]) + frames[|frames| - 1][33..]
  }

  /** The frame is `p`, and its data is what the object holds at the offset it names. */
  predicate Carries(q: Query, before: seq<B.Response>, p: B.Response, frame: seq<Byte>, object_: seq<Byte>)
    requires Sized(q)
  {
    && |frame| >= 34 && p == FrameOf(q, SumLen(before), frame) && p.total == |object_|
    && p.offset + p.len <= |object_| && frame[33..] == object_[p.offset..p.offset + p.len]
  }

  /** What was enqueued were these frames, each filled from the object by whoever built it. */
  predicate Supplied(q: Query, sent: seq<B.Response>, frames: seq<seq<Byte>>, object_: seq<Byte>)
    requires Sized(q)
  {
    |frames| == |sent| && forall k :: 0 <= k < |sent| ==> Carries(q, sent[..k], sent[k], frames[k], object_)
  }

  /** Frames that tile the request, put together, are the object's bytes from the requested offset on. */
  lemma {:induction false} Reassembled(q: Query, sent: seq<B.Response>, frames: seq<seq<Byte>>, object_: seq<Byte>)
    requires Sized(q) && q.command == FULL_STREAM && Tiles(RequestOf(q), sent) && Supplied(q, sent, frames, object_)
    ensures sent != [] ==> q.offset + SumLen(sent) <= |object_|
    ensures Data(frames) == if sent == [] then [] else object_[q.offset..q.offset + SumLen(sent)]
    decreases |sent|
  {
    hide Supplied, Carries;
    OneLess(q, sent, frames, object_);
    if sent != [] {
      var before := sent[..|sent| - 1];
      Reassembled(q, before, frames[..|frames| - 1], object_);
      LastPiece(q, sent, frames, object_);
      Join(object_, q.offset, q.offset + SumLen(before), q.offset + SumLen(sent));
    }
  }

  lemma OneLess(q: Query, sent: seq<B.Response>, frames: seq<seq<Byte>>, object_: seq<Byte>)
    requires Sized(q) && Supplied(q, sent, frames, object_)
    ensures |frames| == |sent| && forall k :: 0 <= k < |frames| ==> |frames[k]| >= 33
    ensures sent != [] ==> Supplied(q, sent[..|sent| - 1], frames[..|frames| - 1], object_)
  {
    hide FrameOf;
    forall k | 0 <= k < |frames| ensures |frames[k]| >= 33 {
      assert Carries(q, sent[..k], sent[k], frames[k], object_);
    }
    if sent != [] {
      var before, front := sent[..|sent| - 1], frames[..|frames| - 1];
      forall k | 0 <= k < |before| ensures Carries(q, before[..k], before[k], front[k], object_) {
        assert Carries(q, sent[..k], sent[k], frames[k], object_) && before[..k] == sent[..k];
      }
    }
  }

  lemma LastPiece(q: Query, sent: seq<B.Response>, frames: seq<seq<Byte>>, object_: seq<Byte>)
    requires Sized(q) && q.command == FULL_STREAM && Supplied(q, sent, frames, object_) && sent != []
    requires Tiles(RequestOf(q), sent) && |frames| == |sent|
    ensures |frames[|frames| - 1]| >= 33
    ensures var at := q.offset + SumLen(sent[..|sent| - 1]);
      && at + sent[|sent| - 1].len <= |object_|
      && frames[|frames| - 1][33..] == object_[at..at + sent[|sent| - 1].len]
  {
    hide FrameOf, SumLen;
    assert Carries(q, sent[..|sent| - 1], sent[|sent| - 1], frames[|frames| - 1], object_);
  }

  /** Over every interleaving: if each enqueued frame was filled from one object, the data the phone got for a
      stream is that object from the requested offset on; and when an unrevoked request is over, it is all that
      was asked for, or all that there is. */
  lemma {:induction false} StreamDelivers(
      w: World, run: seq<Event>, q: Query, frames: seq<seq<Byte>>, object_: seq<Byte>)
    requires Boots(w) && Sized(q) && q.command == FULL_STREAM && Run(w, run).s.asked == RequestOf(q)
    requires Supplied(q, Run(w, run).s.sent, frames, object_)
    ensures var s := Run(w, run).s;
      && (s.sent != [] ==> q.offset + SumLen(s.sent) <= |object_|)
      && Data(frames) == (if s.sent == [] then [] else object_[q.offset..q.offset + SumLen(s.sent)])
      && (s.active && s.committed && !s.revoked && !s.delivering && !s.pending ==>
            q.offset <= |object_|
            && Data(frames) == object_[q.offset..q.offset + Min(q.maximum, |object_| - q.offset)])
  {
    hide Run, FrameOf, Tiles;
    var s := Run(w, run).s;
    StreamsAreExact(w, run);
    Reassembled(q, s.sent, frames, object_);
    if s.sent != [] { LastTotal(q, s.sent, frames, object_); }
  }

  lemma LastTotal(q: Query, sent: seq<B.Response>, frames: seq<seq<Byte>>, object_: seq<Byte>)
    requires Sized(q) && Supplied(q, sent, frames, object_) && sent != []
    ensures sent[|sent| - 1].total == |object_|
  {
    assert Carries(q, sent[..|sent| - 1], sent[|sent| - 1], frames[|frames| - 1], object_);
  }
}
