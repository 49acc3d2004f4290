/** Messages, their 108-byte encoding on the three platforms, and universal addresses. */
module Messages {
  import opened Numbers
  import opened Bits

  /** A 32-byte universal address, read as a big-endian number. */
  type Address = u256
  type Chain = u16
  type EvmAddress = n: nat | n < 0x1_0000_0000_0000_0000_0000_0000_0000_0000_0000_0000
  type Digest = seq<u8>

  const ZERO: EvmAddress := 0

  datatype Message = Message(
    srcChain: Chain,
    srcAddr: Address,
    sequence: u64,
    dstChain: Chain,
    dstAddr: Address,
    payloadHash: u256)

  // ---------------------------------------------------------------- numbers as bytes

  function BigEndian(n: nat, width: nat): (r: seq<u8>)
    ensures |r| == width
  {
    if width == 0 then [] else BigEndian(n / 256, width - 1) + [n % 256]
  }

  function FromBigEndian(s: seq<u8>): nat {
    if s == [] then 0 else 256 * FromBigEndian(s[..|s| - 1]) + s[|s| - 1]
  }

  /** The little-endian form of an integer, as the Move serialiser writes it. */
  function Bcs(n: nat, width: nat): (r: seq<u8>)
    ensures |r| == width
  {
    if width == 0 then [] else [n % 256] + Bcs(n / 256, width - 1)
  }

  function Reverse<T>(s: seq<T>): (r: seq<T>)
    ensures |r| == |s|
  {
    if s == [] then [] else Reverse(s[1..]) + [s[0]]
  }

  lemma {:induction false} ReversedBcs(n: nat, width: nat)
    ensures Reverse(Bcs(n, width)) == BigEndian(n, width)
  {
    if width > 0 {
      ReversedBcs(n / 256, width - 1);
      assert Bcs(n, width)[1..] == Bcs(n / 256, width - 1);
    }
  }

  lemma {:induction false} ReadBackBigEndian(n: nat, width: nat)
    requires n < Pow2(8 * width)
    ensures FromBigEndian(BigEndian(n, width)) == n
  {
    if width > 0 {
      Pow2Sum(8, 8 * (width - 1));
      assert Pow2(8) == 256;
      ReadBackBigEndian(n / 256, width - 1);
      assert BigEndian(n, width)[..width - 1] == BigEndian(n / 256, width - 1);
    }
  }

  lemma {:induction false} WriteBackBigEndian(s: seq<u8>)
    ensures BigEndian(FromBigEndian(s), |s|) == s
    ensures FromBigEndian(s) < Pow2(8 * |s|)
  {
    if s != [] {
      WriteBackBigEndian(s[..|s| - 1]);
      Pow2Sum(8, 8 * (|s| - 1));
      assert Pow2(8) == 256;
    }
  }

  lemma Width256()
    ensures Pow2(16) == 0x1_0000
    ensures Pow2(64) == 0x1_0000_0000_0000_0000
    ensures Pow2(256) ==
            0x1_0000_0000_0000_0000_0000_0000_0000_0000_0000_0000_0000_0000_0000_0000_0000_0000
  {
    hide Pow2;
    Width8();
    Width128();
    Pow2Doubled(8, 0x100);
    Pow2Doubled(16, 0x1_0000);
    Pow2Doubled(32, 0x1_0000_0000);
    Pow2Doubled(128, 0x1_0000_0000_0000_0000_0000_0000_0000_0000);
  }

  // ---------------------------------------------------------------- the packed encoding

  /** `abi.encodePacked(srcChain, srcAddr, sequence, dstChain, dstAddr, payloadHash)` */
  function Encode(m: Message): (r: seq<u8>)
    ensures |r| == 108
  {
    BigEndian(m.srcChain, 2) + BigEndian(m.srcAddr, 32) + BigEndian(m.sequence, 8)
    + BigEndian(m.dstChain, 2) + BigEndian(m.dstAddr, 32) + BigEndian(m.payloadHash, 32)
  }

  /** The six fields sit at fixed offsets and are read back from there. */
  lemma EncodeFields(m: Message)
    ensures FromBigEndian(Encode(m)[0..2]) == m.srcChain
    ensures FromBigEndian(Encode(m)[2..34]) == m.srcAddr
    ensures FromBigEndian(Encode(m)[34..42]) == m.sequence
    ensures FromBigEndian(Encode(m)[42..44]) == m.dstChain
    ensures FromBigEndian(Encode(m)[44..76]) == m.dstAddr
    ensures FromBigEndian(Encode(m)[76..108]) == m.payloadHash
  {
    hide Pow2, BigEndian, FromBigEndian, Encode;
    Width256();
    EncodeSlices(m);
    ReadBackBigEndian(m.srcChain, 2);
    ReadBackBigEndian(m.srcAddr, 32);
    ReadBackBigEndian(m.sequence, 8);
    ReadBackBigEndian(m.dstChain, 2);
    ReadBackBigEndian(m.dstAddr, 32);
    ReadBackBigEndian(m.payloadHash, 32);
  }

  lemma EncodeSlices(m: Message)
    ensures Encode(m)[0..2] == BigEndian(m.srcChain, 2)
    ensures Encode(m)[2..34] == BigEndian(m.srcAddr, 32)
    ensures Encode(m)[34..42] == BigEndian(m.sequence, 8)
    ensures Encode(m)[42..44] == BigEndian(m.dstChain, 2)
    ensures Encode(m)[44..76] == BigEndian(m.dstAddr, 32)
    ensures Encode(m)[76..108] == BigEndian(m.payloadHash, 32)
  {
    hide BigEndian;
  }

  /** `n >> (8 * k)` */
  function DropBytes(n: nat, k: nat): nat {
    if k == 0 then n else DropBytes(n / 256, k - 1)
  }

  /** Byte j of a field of `width` bytes that holds `n`, the most significant byte first. */
  function ByteOf(n: nat, width: nat, j: nat): nat
    requires j < width
  {
    DropBytes(n, width - 1 - j) % 256
  }

  lemma {:induction false} BigEndianBytes(n: nat, width: nat, j: nat)
    requires j < width
    ensures BigEndian(n, width)[j] == ByteOf(n, width, j)
    decreases width
  {
    if j < width - 1 {
      BigEndianBytes(n / 256, width - 1, j);
    }
  }

  /** The 108 bytes that are hashed: six fields at fixed places, each with its most significant byte first. */
  lemma {:induction false} EncodeBytes(m: Message)
    ensures forall j: nat :: j < 2 ==> Encode(m)[j] == ByteOf(m.srcChain, 2, j)
    ensures forall j: nat :: j < 32 ==> Encode(m)[2 + j] == ByteOf(m.srcAddr, 32, j)
    ensures forall j: nat :: j < 8 ==> Encode(m)[34 + j] == ByteOf(m.sequence, 8, j)
    ensures forall j: nat :: j < 2 ==> Encode(m)[42 + j] == ByteOf(m.dstChain, 2, j)
    ensures forall j: nat :: j < 32 ==> Encode(m)[44 + j] == ByteOf(m.dstAddr, 32, j)
    ensures forall j: nat :: j < 32 ==> Encode(m)[76 + j] == ByteOf(m.payloadHash, 32, j)
  {
    hide BigEndian, Encode, ByteOf;
    EncodeSlices(m);
    FieldBytes(Encode(m), 0, m.srcChain, 2);
    FieldBytes(Encode(m), 2, m.srcAddr, 32);
    FieldBytes(Encode(m), 34, m.sequence, 8);
    FieldBytes(Encode(m), 42, m.dstChain, 2);
    FieldBytes(Encode(m), 44, m.dstAddr, 32);
    FieldBytes(Encode(m), 76, m.payloadHash, 32);
  }

  lemma FieldBytes(bytes: seq<u8>, at: nat, n: nat, width: nat)
    requires at + width <= |bytes| && bytes[at..at + width] == BigEndian(n, width)
    ensures forall j: nat :: j < width ==> bytes[at + j] == ByteOf(n, width, j)
  {
    hide BigEndian, ByteOf;
    forall j: nat | j < width
      ensures bytes[at + j] == ByteOf(n, width, j)
    {
      BigEndianBytes(n, width, j);
      assert bytes[at..at + width][j] == bytes[at + j];
    }
  }

  /** Two messages with one encoding are one message. */
  lemma EncodeInjective(m: Message, n: Message)
    requires Encode(m) == Encode(n)
    ensures m == n
  {
    EncodeFields(m);
    EncodeFields(n);
  }

  /** A hash without collisions: the only thing assumed of keccak256. */
  ghost predicate CollisionFree(hash: seq<u8> -> Digest) {
    forall x, y :: hash(x) == hash(y) ==> x == y
  }

  lemma SameDigest(hash: seq<u8> -> Digest, m: Message, n: Message)
    requires CollisionFree(hash)
    ensures hash(Encode(m)) == hash(Encode(n)) <==> m == n
  {
    if hash(Encode(m)) == hash(Encode(n)) {
      EncodeInjective(m, n);
    }
  }

  /** attestation_info.rs: big-endian fields appended to a byte vector. */
  method RustMessageBytes(m: Message) returns (bytes: seq<u8>)
    ensures bytes == Encode(m)
  {
    bytes := [];
    bytes := bytes + BigEndian(m.srcChain, 2);
    bytes := bytes + BigEndian(m.srcAddr, 32);
    bytes := bytes + BigEndian(m.sequence, 8);
    bytes := bytes + BigEndian(m.dstChain, 2);
    bytes := bytes + BigEndian(m.dstAddr, 32);
    bytes := bytes + BigEndian(m.payloadHash, 32);
  }

  /** The 32 bytes of a Move vector, as a number. */
  function Address32(bytes: seq<u8>): Address
    requires |bytes| == 32
  {
    WriteBackBigEndian(bytes);
    Width256();
    FromBigEndian(bytes)
  }

  /** endpoint.move: length checks, then BCS integers reversed into big-endian order. */
  method MoveMessageBytes(srcChain: Chain, srcAddr: seq<u8>, sequence: u64,
                          dstChain: Chain, dstAddr: seq<u8>, payloadHash: seq<u8>)
    returns (r: Option<seq<u8>>)
    ensures r.Some? <==> |srcAddr| == 32 && |dstAddr| == 32 && |payloadHash| == 32
    ensures r.Some? ==> r.value == Encode(Message(srcChain, Address32(srcAddr), sequence,
                                                  dstChain, Address32(dstAddr), Address32(payloadHash)))
  {
    if |srcAddr| != 32 || |dstAddr| != 32 || |payloadHash| != 32 {
      return None;
    }
    hide Bcs, Reverse, BigEndian, FromBigEndian, Pow2, Address32;
    var bytes := [];
    var v := Bcs(srcChain, 2);
    v := Reverse(v);
    bytes := bytes + v;
    bytes := bytes + srcAddr;
    v := Bcs(sequence, 8);
    v := Reverse(v);
    bytes := bytes + v;
    v := Bcs(dstChain, 2);
    v := Reverse(v);
    bytes := bytes + v;
    bytes := bytes + dstAddr;
    bytes := bytes + payloadHash;
    ReversedBcs(srcChain, 2);
    ReversedBcs(sequence, 8);
    ReversedBcs(dstChain, 2);
    BytesOf32(srcAddr);
    BytesOf32(dstAddr);
    BytesOf32(payloadHash);
    return Some(bytes);
  }

  lemma BytesOf32(bytes: seq<u8>)
    requires |bytes| == 32
    ensures BigEndian(Address32(bytes), 32) == bytes
  {
    WriteBackBigEndian(bytes);
  }

  // ---------------------------------------------------------------- universal addresses

  function FromAddress(a: EvmAddress): Address {
    a
  }

  /** Reverts (None) when the high 96 bits are not zero. */
  function ToAddress(u: Address): (r: Option<EvmAddress>)
    ensures forall a: EvmAddress :: r == Some(a) <==> FromAddress(a) == u
  {
    if u / 0x1_0000_0000_0000_0000_0000_0000_0000_0000_0000_0000 != 0 then None
    else Some(u % 0x1_0000_0000_0000_0000_0000_0000_0000_0000_0000_0000)
  }

  predicate ZerosBefore(padded: seq<u8>, input: seq<u8>) {
    var zeros := |padded| - |input|;
    zeros >= 0 && padded[zeros..] == input && forall k :: 0 <= k < zeros ==> padded[k] == 0
  }

  /** universal_address.move: zero bytes in front; aborts (None) beyond 32 bytes. The number is kept. */
  method PadLeft32(input: seq<u8>) returns (r: Option<seq<u8>>)
    ensures r.Some? <==> |input| <= 32
    ensures r.Some? ==> |r.value| == 32 && FromBigEndian(r.value) == FromBigEndian(input)
    ensures r.Some? && |input| == 32 ==> r.value == input
    ensures r.Some? ==> ZerosBefore(r.value, input)
  {
    if |input| > 32 {
      return None;
    }
    var ret := [];
    var remaining := 32 - |input|;
    while remaining > 0
      invariant 0 <= remaining <= 32 - |input|
      invariant |ret| == 32 - |input| - remaining
      invariant forall k :: 0 <= k < |ret| ==> ret[k] == 0
    {
      ret := ret + [0];
      remaining := remaining - 1;
    }
    LeadingZeros(ret, input);
    return Some(ret + input);
  }

  lemma {:induction false} LeadingZeros(zeros: seq<u8>, s: seq<u8>)
    requires forall k :: 0 <= k < |zeros| ==> zeros[k] == 0
    ensures FromBigEndian(zeros + s) == FromBigEndian(s)
    decreases |zeros| + |s|
  {
    if s != [] {
      LeadingZeros(zeros, s[..|s| - 1]);
      assert (zeros + s)[..|zeros + s| - 1] == zeros + s[..|s| - 1];
    } else if zeros != [] {
      LeadingZeros(zeros[..|zeros| - 1], []);
      assert zeros + s == zeros;
      assert zeros[..|zeros| - 1] + [] == zeros[..|zeros| - 1];
    }
  }
}
