/**
 CRC-32 as section 8 of RFC 1952 defines it, one bit at a time, and the nibble-table form the PCM store
 uses. They agree on every input.
 */
module Crc {
  import opened Bytes

  const POLYNOMIAL: bv32 := 0xedb88320

  function BitStep(c: bv32): bv32 { (c >> 1) ^ (if c & 1 == 1 then POLYNOMIAL else 0) }

  function ByteStep(c: bv32, b: Byte): bv32 {
    var x := c ^ (b as bv32);
    BitStep(BitStep(BitStep(BitStep(BitStep(BitStep(BitStep(BitStep(x))))))))
  }

  /** The register after some bytes, from a given register. */
  function Register(c: bv32, data: seq<Byte>): bv32 {
    if data == [] then c else ByteStep(Register(c, data[..|data| - 1]), data[|data| - 1])
  }

  function Crc32(data: seq<Byte>): bv32 { !Register(0xffff_ffff, data) }

  lemma {:induction false} RegisterSplit(c: bv32, a: seq<Byte>, b: seq<Byte>)
    ensures Register(c, a + b) == Register(Register(c, a), b)
  {
    hide ByteStep;
    if b == [] {
      assert a + b == a;
    } else {
      RegisterSplit(c, a, b[..|b| - 1]);
      assert (a + b)[..|a + b| - 1] == a + b[..|b| - 1];
    }
  }

  // ----- The table --------------------------------------------------------------------------------------

  const TABLE: seq<bv32> := [
    0x00000000, 0x1DB71064, 0x3B6E20C8, 0x26D930AC, 0x76DC4190, 0x6B6B51F4, 0x4DB26158, 0x5005713C,
    0xEDB88320, 0xF00F9344, 0xD6D6A3E8, 0xCB61B38C, 0x9B64C2B0, 0x86D3D2D4, 0xA00AE278, 0xBDBDF21C]

  function NibbleStep(c: bv32): bv32 { (c >> 4) ^ TABLE[(c & 15) as int] }

  /** The entry for each nibble, as bits. */
  function Entry(n: bv32): bv32 {
    (if n & 1 == 1 then 0x1DB71064 else 0) ^ (if n & 2 == 2 then 0x3B6E20C8 else 0)
    ^ (if n & 4 == 4 then 0x76DC4190 else 0) ^ (if n & 8 == 8 then 0xEDB88320 else 0)
  }

  lemma FourBits(c: bv32)
    ensures BitStep(BitStep(BitStep(BitStep(c)))) == (c >> 4) ^ Entry(c & 15)
  {
  }

  lemma TableIs(n: bv32)
    requires n < 16
    ensures TABLE[n as int] == Entry(n)
  {
    if n == 0 {
      assert n as int == 0 && TABLE[0] == Entry(0);
    } else if n == 1 {
      assert n as int == 1 && TABLE[1] == Entry(1);
    } else if n == 2 {
      assert n as int == 2 && TABLE[2] == Entry(2);
    } else if n == 3 {
      assert n as int == 3 && TABLE[3] == Entry(3);
    } else if n == 4 {
      assert n as int == 4 && TABLE[4] == Entry(4);
    } else if n == 5 {
      assert n as int == 5 && TABLE[5] == Entry(5);
    } else if n == 6 {
      assert n as int == 6 && TABLE[6] == Entry(6);
    } else if n == 7 {
      assert n as int == 7 && TABLE[7] == Entry(7);
    } else if n == 8 {
      assert n as int == 8 && TABLE[8] == Entry(8);
    } else if n == 9 {
      assert n as int == 9 && TABLE[9] == Entry(9);
    } else if n == 10 {
      assert n as int == 10 && TABLE[10] == Entry(10);
    } else if n == 11 {
      assert n as int == 11 && TABLE[11] == Entry(11);
    } else if n == 12 {
      assert n as int == 12 && TABLE[12] == Entry(12);
    } else if n == 13 {
      assert n as int == 13 && TABLE[13] == Entry(13);
    } else if n == 14 {
      assert n as int == 14 && TABLE[14] == Entry(14);
    } else if n == 15 {
      assert n as int == 15 && TABLE[15] == Entry(15);
    }
  }

  /** One table step is four bit steps. */
  lemma NibbleIs(c: bv32)
    ensures NibbleStep(c) == BitStep(BitStep(BitStep(BitStep(c))))
  {
    hide BitStep, Entry;
    FourBits(c);
    SmallNibble(c);
    TableIs(c & 15);
  }

  lemma SmallNibble(c: bv32)
    ensures c & 15 < 16
  {
  }

  /** Two table steps are eight bit steps. */
  lemma {:induction false} TwoNibbles(c: bv32, b: Byte)
    ensures NibbleStep(NibbleStep(c ^ (b as bv32))) == ByteStep(c, b)
  {
    hide BitStep, NibbleStep;
    var x := c ^ (b as bv32);
    NibbleIs(x);
    NibbleIs(BitStep(BitStep(BitStep(BitStep(x)))));
  }

  /** One byte through the table. */
  method NibbleByte(c: bv32, b: Byte) returns (crc: bv32)
    ensures crc == ByteStep(c, b)
  {
    hide BitStep, ByteStep, NibbleStep;
    TwoNibbles(c, b);
    crc := c ^ (b as bv32);
    crc := NibbleStep(crc);
    crc := NibbleStep(crc);
  }

  lemma RegisterStep(c: bv32, data: seq<Byte>, i: nat)
    requires i < |data|
    ensures Register(c, data[..i + 1]) == ByteStep(Register(c, data[..i]), data[i])
  {
    hide ByteStep;
    assert data[..i + 1][..i] == data[..i];
  }

  /** mic_pcm_core_crc32: the loop over the table. */
  method NibbleCrc(data: array<Byte>, count: nat) returns (crc: bv32)
    requires count <= data.Length
    ensures crc == Crc32(data[..count])
  {
    hide ByteStep;
    ghost var all := data[..];
    crc := 0xffff_ffff;
    for i := 0 to count
      invariant data[..] == all && crc == Register(0xffff_ffff, all[..i])
    {
      RegisterStep(0xffff_ffff, all, i);
      crc := NibbleByte(crc, data[i]);
    }
    assert all[..count] == data[..count];
    crc := !crc;
  }

  function Steps(c: bv32, n: nat): bv32 { if n == 0 then c else BitStep(Steps(c, n - 1)) }

  lemma EightSteps(c: bv32, b: Byte)
    ensures Steps(c ^ (b as bv32), 8) == ByteStep(c, b)
  {
    hide BitStep;
    var x := c ^ (b as bv32);
    assert Steps(x, 1) == BitStep(Steps(x, 0)) && Steps(x, 0) == x;
    assert Steps(x, 4) == BitStep(Steps(x, 3)) && Steps(x, 3) == BitStep(Steps(x, 2))
      && Steps(x, 2) == BitStep(Steps(x, 1));
    assert Steps(x, 8) == BitStep(Steps(x, 7)) && Steps(x, 7) == BitStep(Steps(x, 6))
      && Steps(x, 6) == BitStep(Steps(x, 5))
      && Steps(x, 5) == BitStep(Steps(x, 4));
  }

  /** One byte, bit by bit. */
  method BitByte(c: bv32, b: Byte) returns (crc: bv32)
    ensures crc == ByteStep(c, b)
  {
    hide BitStep, ByteStep;
    EightSteps(c, b);
    crc := c ^ (b as bv32);
    ghost var x := crc;
    for bit := 0 to 8
      invariant crc == Steps(x, bit)
    {
      crc := BitStep(crc);
    }
  }

  /** crc_update of the backup wire: bit by bit, from a register carried over from earlier rows. */
  method CrcUpdate(start: bv32, data: seq<Byte>) returns (crc: bv32)
    ensures crc == Register(start, data)
  {
    hide ByteStep;
    crc := start;
    for i := 0 to |data|
      invariant crc == Register(start, data[..i])
    {
      RegisterStep(start, data, i);
      crc := BitByte(crc, data[i]);
    }
    assert data[..|data|] == data;
  }
}
