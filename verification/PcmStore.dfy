/**
 The volatile PCM handoff: frames go in, are sealed, and leave once, in order, in chunks that are
 erased as they leave; 30 seconds after it was begun whatever is left is wiped.
 */
module PcmStore {
  import opened Bytes
  import opened Crc
  import opened Pcm

  const MAX_BYTES: nat := 32000
  const MAX_CHUNK: nat := 64
  const EXPIRY_MS: nat := 30000
  const I64_MAX: nat := 0x7FFF_FFFF_FFFF_FFFF

  datatype Phase = Empty | Capturing | Ready | Drained | Expired

  datatype Result = Ok | Invalid | WrongState | TooLate | Full

  /** A sample as the two bytes of its 16-bit two's complement, low byte first. */
  function Bytes16(x: Sample): seq<Byte> {
    [x % 256, x % 65536 / 256]
  }

  /** A frame in export order. */
  function FrameBytes(frame: seq<Sample>): (b: seq<Byte>)
    ensures |b| == 2 * |frame|
  {
    if frame == [] then [] else FrameBytes(frame[..|frame| - 1]) + Bytes16(frame[|frame| - 1])
  }

  /** The two bytes give the sample back. */
  lemma SampleRoundTrip(x: Sample)
    ensures var b := Bytes16(x); var u: int := (b[0] as int) + 256 * (b[1] as int);
      u == x % 65536 && x == if u >= 32768 then u - 65536 else u
  {
    LowHigh(x);
  }

  lemma LowHigh(x: int)
    ensures x % 256 + 256 * (x % 65536 / 256) == x % 65536
  {
    var q := x / 65536;
    var u := x % 65536;
    assert x == 65536 * q + u;
    assert u % 256 + 256 * (u / 256) == u;
    assert x % 256 == u % 256 by { assert x == 256 * (256 * q) + u; ModShift(256 * q, u); }
  }

  lemma ModShift(k: int, u: int)
    ensures (256 * k + u) % 256 == u % 256
  {
  }

  /** Every sample stands at its place in export order. */
  lemma {:induction false} FrameBytesAt(frame: seq<Sample>, k: nat)
    requires k < |frame|
    ensures FrameBytes(frame)[2 * k..2 * k + 2] == Bytes16(frame[k])
    decreases |frame|
  {
    var before := frame[..|frame| - 1];
    if k < |frame| - 1 {
      FrameBytesAt(before, k);
      assert FrameBytes(frame)[..2 * |before|] == FrameBytes(before);
      assert FrameBytes(frame)[2 * k..2 * k + 2] == FrameBytes(before)[2 * k..2 * k + 2];
    }
  }

  predicate Zero(s: seq<Byte>) { forall i :: 0 <= i < |s| ==> s[i] == 0 }

  /** The bytes not yet taken stand in their places, and everything else is zero. */
  predicate Stored(buffer: seq<Byte>, offset: nat, bytes: seq<Byte>) {
    |bytes| <= |buffer| && forall k :: 0 <= k < |buffer| ==> buffer[k] == if offset <= k < |bytes| then bytes[k] else 0
  }

  lemma StoredMore(before: seq<Byte>, after: seq<Byte>, bytes: seq<Byte>, more: seq<Byte>)
    requires Stored(before, 0, bytes) && |after| == |before| && |bytes| + |more| <= |before|
    requires after[|bytes|..|bytes| + |more|] == more
    requires forall k :: 0 <= k < |after| && !(|bytes| <= k < |bytes| + |more|) ==> after[k] == before[k]
    ensures Stored(after, 0, bytes + more)
  {
    forall k | |bytes| <= k < |bytes| + |more| ensures after[k] == more[k - |bytes|] {
      assert after[|bytes|..|bytes| + |more|][k - |bytes|] == after[k];
    }
  }

  class Store {
    const data: array<Byte>
    var deadline: nat
    var used: nat
    var offset: nat
    var crc32: bv32
    var phase: Phase
    var scrubbed: bool
    /** Every byte appended, and every byte taken, since the last begin. */
    ghost var appended: seq<Byte>
    ghost var taken: seq<Byte>

    ghost predicate Valid()
      reads this, data
    {
      && data.Length == MAX_BYTES && offset <= used <= MAX_BYTES && used % (2 * FRAME_SAMPLES) == 0
      && (phase.Capturing? || phase.Ready? ==>
            used == |appended| && taken == appended[..offset] && Stored(data[..], offset, appended))
      && (phase.Capturing? ==> offset == 0)
      && (phase.Ready? ==> offset < used && crc32 == Crc32(appended))
      && (phase.Drained? ==> taken == appended && used == offset == |appended|)
      && (phase.Empty? || phase.Expired? ==> used == 0 && offset == 0)
      && taken <= appended
      && (scrubbed ==> Zero(data[..]))
      && (phase.Empty? || phase.Drained? || phase.Expired? ==> scrubbed)
    }

    constructor (buffer: array<Byte>)
      requires buffer.Length == MAX_BYTES && Zero(buffer[..])
      ensures Valid() && phase.Empty? && data == buffer && appended == [] && taken == []
    {
      data := buffer;
      deadline, used, offset, crc32, phase, scrubbed := 0, 0, 0, 0, Empty, true;
      appended, taken := [], [];
    }

    method ZeroFrom(start: nat, count: nat)
      requires start + count <= data.Length
      modifies data
      ensures forall k :: 0 <= k < data.Length ==> data[k] == if start <= k < start + count then 0 else old(data[k])
    {
      for i := 0 to count
        invariant forall k :: 0 <= k < data.Length ==> data[k] == if start <= k < start + i then 0 else old(data[k])
      {
        data[start + i] := 0;
      }
    }

    method Wipe(to: Phase)
      requires data.Length == MAX_BYTES
      modifies this, data
      ensures Zero(data[..]) && used == 0 && offset == 0 && phase == to && scrubbed
      ensures appended == old(appended) && taken == old(taken)
    {
      ZeroFrom(0, MAX_BYTES);
      deadline, used, offset, crc32, phase, scrubbed := 0, 0, 0, 0, to, true;
    }

    predicate Live()
      reads this
    {
      phase.Capturing? || phase.Ready?
    }

    method Expire(now: int) returns (late: bool)
      requires Valid()
      modifies this, data
      ensures Valid() && late == phase.Expired? && appended == old(appended) && taken == old(taken)
      ensures old(Live() && now >= deadline) ==> phase.Expired?
      ensures !old(Live() && now >= deadline) ==>
        phase == old(phase) && used == old(used) && offset == old(offset) && deadline == old(deadline)
        && crc32 == old(crc32) && scrubbed == old(scrubbed) && data[..] == old(data[..])
    {
      if Live() && now >= deadline { Wipe(Expired); }
      late := phase.Expired?;
    }

    /** A new recording: nothing of the old one survives. */
    method Begin(now: int) returns (r: Result)
      requires Valid()
      modifies this, data
      ensures Valid() && appended == [] && taken == [] && Zero(data[..])
      ensures r == if 0 <= now <= I64_MAX - EXPIRY_MS then Ok else Invalid
      ensures r.Ok? ==> phase.Capturing? && deadline == now + EXPIRY_MS
      ensures !r.Ok? ==> phase.Empty?
    {
      Wipe(Empty);
      appended, taken := [], [];
      if now < 0 || now > I64_MAX - EXPIRY_MS { return Invalid; }
      deadline := now + EXPIRY_MS;
      phase := Capturing;
      return Ok;
    }

    /** The bytes of one sample go where they belong. */
    method PutSample(at: nat, x: Sample)
      requires at + 2 <= data.Length
      modifies data
      ensures data[at..at + 2] == Bytes16(x)
      ensures forall k :: 0 <= k < data.Length && !(at <= k < at + 2) ==> data[k] == old(data[k])
    {
      var value: int := (x as int) % 65536;
      LowHigh(x);
      data[at] := value % 256;
      data[at + 1] := value / 256;
      assert value % 256 == x % 256;
    }

    method PutFrame(frame: seq<Sample>)
      requires |frame| == FRAME_SAMPLES && used + 2 * FRAME_SAMPLES <= data.Length
      modifies data
      ensures data[used..used + 2 * FRAME_SAMPLES] == FrameBytes(frame)
      ensures forall k :: 0 <= k < data.Length && !(used <= k < used + 2 * FRAME_SAMPLES) ==> data[k] == old(data[k])
    {
      hide Bytes16;
      for i := 0 to |frame|
        invariant data[used..used + 2 * i] == FrameBytes(frame[..i])
        invariant forall k :: 0 <= k < data.Length && !(used <= k < used + 2 * i) ==> data[k] == old(data[k])
      {
        ghost var before := data[used..used + 2 * i];
        PutSample(used + 2 * i, frame[i]);
        assert data[used..used + 2 * i] == before;
        assert frame[..i + 1][..i] == frame[..i];
        Join(data[..], used, used + 2 * i, used + 2 * i + 2);
      }
      assert frame[..|frame|] == frame;
    }

    method Append(frame: seq<Sample>, now: int) returns (r: Result)
      requires Valid()
      modifies this, data
      ensures Valid() && taken == old(taken)
      ensures appended == if r.Ok? then old(appended) + FrameBytes(frame) else old(appended)
      ensures r.Ok? <==> old(phase).Capturing? && now < old(deadline) && |frame| == FRAME_SAMPLES
                         && old(used) <= MAX_BYTES - 2 * FRAME_SAMPLES
      ensures r.TooLate? <==> phase.Expired?
    {
      hide Stored, FrameBytes, Crc32, Zero;
      var late := Expire(now);
      if late { return TooLate; }
      if |frame| != FRAME_SAMPLES { return Invalid; }
      if !phase.Capturing? { return WrongState; }
      if used > MAX_BYTES - 2 * FRAME_SAMPLES { return Full; }
      Extend(frame);
      return Ok;
    }

    /** The frame goes behind what was stored. */
    method Extend(frame: seq<Sample>)
      requires Valid() && phase.Capturing? && |frame| == FRAME_SAMPLES && used <= MAX_BYTES - 2 * FRAME_SAMPLES
      modifies this`used, this`scrubbed, this`appended, data
      ensures Valid() && appended == old(appended) + FrameBytes(frame)
    {
      hide Stored, FrameBytes, Crc32, Zero;
      ghost var before := data[..];
      PutFrame(frame);
      StoredMore(before, data[..], appended, FrameBytes(frame));
      used := used + 2 * FRAME_SAMPLES;
      scrubbed := false;
      appended := appended + FrameBytes(frame);
    }

    /** Sealed with the CRC of everything appended. */
    method Seal(now: int) returns (r: Result)
      requires Valid()
      modifies this, data
      ensures Valid() && appended == old(appended) && taken == old(taken)
      ensures r.Ok? <==> old(phase).Capturing? && now < old(deadline) && old(used) > 0
      ensures r.Ok? ==> phase.Ready? && crc32 == Crc32(appended)
      ensures r.TooLate? <==> phase.Expired?
    {
      var late := Expire(now);
      if late { return TooLate; }
      if !phase.Capturing? { return WrongState; }
      if used == 0 || used > MAX_BYTES || used % (2 * FRAME_SAMPLES) != 0 { return Invalid; }
      assert data[..used] == appended;
      crc32 := NibbleCrc(data, used);
      phase := Ready;
      return Ok;
    }

    /** The next bytes, exactly once: what is returned is gone from the buffer. */
    method Take(at: nat, capacity: nat, now: int) returns (r: Result, out: seq<Byte>)
      requires Valid()
      modifies this, data
      ensures Valid() && appended == old(appended) && taken == old(taken) + out
      ensures r.Ok? <==> old(phase).Ready? && now < old(deadline) && 1 <= capacity <= MAX_CHUNK && at == old(offset)
      ensures r.Ok? ==> 1 <= |out| <= capacity && (phase.Drained? <==> taken == appended)
      ensures !r.Ok? ==> out == []
      ensures r.TooLate? <==> phase.Expired?
    {
      hide Crc32;
      out := [];
      var late := Expire(now);
      if late { return TooLate, []; }
      if capacity == 0 || capacity > MAX_CHUNK { return Invalid, []; }
      if !phase.Ready? { return WrongState, []; }
      if at != offset || offset >= used { return Invalid, []; }
      var count := used - offset;
      if count > capacity { count := capacity; }
      out := Export(count);
      if offset == used {
        ZeroFrom(0, MAX_BYTES);
        scrubbed, phase, deadline := true, Drained, 0;
      }
      return Ok, out;
    }

    /** Copies the next bytes out and erases them. */
    method Export(count: nat) returns (out: seq<Byte>)
      requires Valid() && phase.Ready? && 1 <= count && offset + count <= used
      modifies this`offset, this`taken, data
      ensures out == old(data[offset..offset + count]) == old(appended[offset..offset + count])
      ensures offset == old(offset) + count && taken == old(taken) + out == appended[..offset]
      ensures Stored(data[..], offset, appended)
    {
      out := data[offset..offset + count];
      assert out == appended[offset..offset + count];
      ZeroFrom(offset, count);
      offset := offset + count;
      taken := taken + out;
    }

    method Scrub()
      requires Valid()
      modifies this, data
      ensures Valid() && phase.Empty? && Zero(data[..]) && appended == old(appended) && taken == old(taken)
    {
      Wipe(Empty);
    }
  }
}
