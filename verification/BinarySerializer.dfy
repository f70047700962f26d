/** The byte writer and the bounded byte reader of Common/BinarySerializer.cpp.

    `Put` functions describe the bytes as a parser meets them (value first, then the rest);
    `App` functions describe them as the writer leaves them (buffer first, then the value).
    The AppPut lemmas are the bridge between the two views. */
module BinarySerializer {
  import opened ByteOrder

  /** The result of reading one value from the front of some bytes. */
  datatype Parse<+T> = Short | Parsed(value: T, rest: seq<byte>) {
    predicate IsFailure() {
      Short?
    }
    function PropagateFailure<U>(): Parse<U>
      requires Short?
    {
      Short
    }
    function Extract(): (T, seq<byte>)
      requires Parsed?
    {
      (value, rest)
    }
  }

  // ----- parser view -----

  function Put8(v: byte, rest: seq<byte>): seq<byte> {
    [v] + rest
  }

  function Put16(v: u16, rest: seq<byte>): seq<byte> {
    BigEndian16(v) + rest
  }

  function Put32(v: bv32, rest: seq<byte>): seq<byte> {
    BigEndian32(v) + rest
  }

  function Put64(v: bv64, rest: seq<byte>): seq<byte> {
    BigEndian64(v) + rest
  }

  function Take8(b: seq<byte>): Parse<byte> {
    if |b| < 1 then Short else Parsed(b[0], b[1..])
  }

  function Take16(b: seq<byte>): Parse<u16> {
    if |b| < 2 then Short else Parsed(FromBigEndian16(b[..2]), b[2..])
  }

  function Take32(b: seq<byte>): Parse<bv32> {
    if |b| < 4 then Short else Parsed(FromBigEndian32(b[..4]), b[4..])
  }

  function Take64(b: seq<byte>): Parse<bv64> {
    if |b| < 8 then Short else Parsed(FromBigEndian64(b[..8]), b[8..])
  }

  lemma TakePut8(v: byte, rest: seq<byte>)
    ensures Take8(Put8(v, rest)) == Parsed(v, rest)
  {
  }

  lemma TakePut16(v: u16, rest: seq<byte>)
    ensures Take16(Put16(v, rest)) == Parsed(v, rest)
  {
    ValueOfImage16(v);
    assert Put16(v, rest)[..2] == BigEndian16(v) && Put16(v, rest)[2..] == rest;
  }

  lemma TakePut32(v: bv32, rest: seq<byte>)
    ensures Take32(Put32(v, rest)) == Parsed(v, rest)
  {
    RoundTrip32(v, BigEndian32(v));
    assert Put32(v, rest)[..4] == BigEndian32(v) && Put32(v, rest)[4..] == rest;
  }

  lemma TakePut64(v: bv64, rest: seq<byte>)
    ensures Take64(Put64(v, rest)) == Parsed(v, rest)
  {
    RoundTrip64(v, BigEndian64(v));
    assert Put64(v, rest)[..8] == BigEndian64(v) && Put64(v, rest)[8..] == rest;
  }

  lemma PutTake16(b: seq<byte>)
    requires Take16(b).Parsed?
    ensures Put16(Take16(b).value, Take16(b).rest) == b
  {
    ImageOfValue16(b[..2]);
  }

  lemma PutTake32(b: seq<byte>)
    requires Take32(b).Parsed?
    ensures Put32(Take32(b).value, Take32(b).rest) == b
  {
    RoundTrip32(0, b[..4]);
  }

  lemma PutTake64(b: seq<byte>)
    requires Take64(b).Parsed?
    ensures Put64(Take64(b).value, Take64(b).rest) == b
  {
    RoundTrip64(0, b[..8]);
  }

  // ----- writer view -----

  function App8(buffer: seq<byte>, v: byte): seq<byte> {
    buffer + [v]
  }

  lemma AppPut8(buffer: seq<byte>, v: byte, rest: seq<byte>)
    ensures App8(buffer, v) + rest == buffer + Put8(v, rest)
  {
  }

  function App16(buffer: seq<byte>, v: u16): seq<byte> {
    buffer + BigEndian16(v)
  }

  lemma AppPut16(buffer: seq<byte>, v: u16, rest: seq<byte>)
    ensures App16(buffer, v) + rest == buffer + Put16(v, rest)
  {
  }

  function App32(buffer: seq<byte>, v: bv32): seq<byte> {
    buffer + BigEndian32(v)
  }

  lemma AppPut32(buffer: seq<byte>, v: bv32, rest: seq<byte>)
    ensures App32(buffer, v) + rest == buffer + Put32(v, rest)
  {
  }

  function App64(buffer: seq<byte>, v: bv64): seq<byte> {
    buffer + BigEndian64(v)
  }

  lemma AppPut64(buffer: seq<byte>, v: bv64, rest: seq<byte>)
    ensures App64(buffer, v) + rest == buffer + Put64(v, rest)
  {
  }

  /** Appends values in network order; `littleEndian` is the host's own byte order. */
  class BinaryWriter {
    const littleEndian: bool
    var buffer: seq<byte>

    constructor (littleEndian: bool)
      ensures buffer == [] && this.littleEndian == littleEndian
    {
      this.littleEndian := littleEndian;
      buffer := [];
    }

    method WriteUInt8(value: byte)
      modifies this
      ensures buffer == App8(old(buffer), value)
    {
      buffer := buffer + [value];
    }

    method WriteUInt16(value: u16)
      modifies this
      ensures buffer == App16(old(buffer), value)
    {
      var networkValue := HostToNetwork16(value, littleEndian);
      HostToNetworkIsBigEndian16(value, littleEndian);
      buffer := buffer + Memory16(networkValue, littleEndian);
    }

    method WriteUInt32(value: bv32)
      modifies this
      ensures buffer == App32(old(buffer), value)
    {
      var networkValue := HostToNetwork32(value, littleEndian);
      HostToNetworkIsBigEndian32(value, littleEndian);
      buffer := buffer + Memory32(networkValue, littleEndian);
    }

    method WriteUInt64(value: bv64)
      modifies this
      ensures buffer == App64(old(buffer), value)
    {
      var networkValue := HostToNetwork64(value, littleEndian);
      HostToNetworkIsBigEndian64(value, littleEndian);
      buffer := buffer + Memory64(networkValue, littleEndian);
    }
  }

  /** A cursor over bytes that never reads past their end. */
  class BinaryReader {
    const littleEndian: bool
    const data: seq<byte>
    var offset: nat

    ghost predicate Valid()
      reads this
    {
      offset <= |data|
    }

    function Rest(): seq<byte>
      requires Valid()
      reads this
    {
      data[offset..]
    }

    constructor (data: seq<byte>, littleEndian: bool)
      ensures Valid() && Rest() == data && this.littleEndian == littleEndian
    {
      this.littleEndian := littleEndian;
      this.data := data;
      offset := 0;
    }

    method TryReadUInt8() returns (ok: bool, value: byte)
      requires Valid()
      modifies this
      ensures Valid() && offset >= old(offset)
      ensures ok <==> Take8(old(Rest())).Parsed?
      ensures if ok then Take8(old(Rest())) == Parsed(value, Rest()) else Rest() == old(Rest())
    {
      ok, value := false, 0;
      if offset + 1 <= |data| {
        value := data[offset];
        offset := offset + 1;
        ok := true;
      }
    }

    method TryReadUInt16() returns (ok: bool, value: u16)
      requires Valid()
      modifies this
      ensures Valid() && offset >= old(offset)
      ensures ok <==> Take16(old(Rest())).Parsed?
      ensures if ok then Take16(old(Rest())) == Parsed(value, Rest()) else Rest() == old(Rest())
    {
      ok, value := false, 0;
      if offset + 2 <= |data| {
        var memory := data[offset..offset + 2];
        assert memory == old(Rest())[..2];
        NetworkToHostIsBigEndian16(memory, littleEndian);
        value := HostToNetwork16(Native16(memory, littleEndian), littleEndian);
        offset := offset + 2;
        ok := true;
      }
    }

    method TryReadUInt32() returns (ok: bool, value: bv32)
      requires Valid()
      modifies this
      ensures Valid() && offset >= old(offset)
      ensures ok <==> Take32(old(Rest())).Parsed?
      ensures if ok then Take32(old(Rest())) == Parsed(value, Rest()) else Rest() == old(Rest())
    {
      ok, value := false, 0;
      if offset + 4 <= |data| {
        var memory := data[offset..offset + 4];
        assert memory == old(Rest())[..4];
        NetworkToHostIsBigEndian32(memory, littleEndian);
        value := HostToNetwork32(Native32(memory, littleEndian), littleEndian);
        offset := offset + 4;
        ok := true;
      }
    }

    method TryReadUInt64() returns (ok: bool, value: bv64)
      requires Valid()
      modifies this
      ensures Valid() && offset >= old(offset)
      ensures ok <==> Take64(old(Rest())).Parsed?
      ensures if ok then Take64(old(Rest())) == Parsed(value, Rest()) else Rest() == old(Rest())
    {
      ok, value := false, 0;
      if offset + 8 <= |data| {
        var memory := data[offset..offset + 8];
        assert memory == old(Rest())[..8];
        NetworkToHostIsBigEndian64(memory, littleEndian);
        value := HostToNetwork64(Native64(memory, littleEndian), littleEndian);
        offset := offset + 8;
        ok := true;
      }
    }
  }
}
