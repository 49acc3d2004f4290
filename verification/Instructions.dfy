/** The adapter instruction codec of AdapterInstructions.sol. */
module Instructions {
  import opened Numbers
  import opened Bits
  import opened Messages

  datatype Instruction = Instruction(index: u8, payload: seq<u8>)

  const NO_INSTRUCTION := Instruction(0, [])

  // ---------------------------------------------------------------- the bytes on the wire

  /** Where instruction k starts: after the count byte and, for each before it, three bytes and its payload. */
  function Offset(list: seq<Instruction>, k: nat): nat
    requires k <= |list|
  {
    if k == 0 then 1 else Offset(list, k - 1) + 3 + |list[k - 1].payload|
  }

  /** At an offset: one byte of index, two of payload length with the high byte first, then the payload. */
  ghost predicate InstructionAt(buffer: seq<u8>, at: nat, i: Instruction) {
    && at + 3 + |i.payload| <= |buffer|
    && buffer[at] == i.index
    && (var high: nat, low: nat := buffer[at + 1], buffer[at + 2]; 256 * high + low == |i.payload|)
    && buffer[at + 3..at + 3 + |i.payload|] == i.payload
  }

  /** The buffer is a count byte and the instructions one after the other, and nothing else. */
  ghost predicate Layout(buffer: seq<u8>, list: seq<Instruction>) {
    && |buffer| == Offset(list, |list|)
    && buffer[0] == |list|
    && forall k :: 0 <= k < |list| ==> InstructionAt(buffer, Offset(list, k), list[k])
  }

  // ---------------------------------------------------------------- encoding

  function EncodeOne(i: Instruction): seq<u8>
    requires |i.payload| <= 0xFFFF
  {
    [i.index] + BigEndian(|i.payload|, 2) + i.payload
  }

  ghost predicate Encodable(list: seq<Instruction>) {
    forall k :: 0 <= k < |list| ==> |list[k].payload| <= 0xFFFF
  }

  function EncodeBody(list: seq<Instruction>): seq<u8>
    requires Encodable(list)
  {
    if list == [] then [] else EncodeOne(list[0]) + EncodeBody(list[1..])
  }

  function EncodeList(list: seq<Instruction>): seq<u8>
    requires |list| <= 255 && Encodable(list)
  {
    [|list|] + EncodeBody(list)
  }

  /** Reverts (None) on too many instructions, or at the first payload that is too long. */
  method EncodeInstructions(list: seq<Instruction>) returns (r: Option<seq<u8>>)
    ensures r.Some? <==> |list| <= 255 && Encodable(list)
    ensures r.Some? ==> r.value == EncodeList(list) && Layout(r.value, list)
  {
    if |list| > 255 {
      return None;
    }
    var encoded: seq<u8> := [];
    for i := 0 to |list|
      invariant Encodable(list[..i]) && encoded == EncodeBody(list[..i])
    {
      if |list[i].payload| > 0xFFFF {
        return None;
      }
      assert list[..i + 1] == list[..i] + [list[i]];
      EncodeAppend(list[..i], list[i]);
      encoded := encoded + EncodeOne(list[i]);
    }
    assert list[..|list|] == list;
    LayoutExactly([|list|] + encoded, list);
    return Some([|list|] + encoded);
  }

  lemma {:induction false} EncodeAppend(list: seq<Instruction>, i: Instruction)
    requires Encodable(list) && |i.payload| <= 0xFFFF
    ensures EncodeBody(list + [i]) == EncodeBody(list) + EncodeOne(i)
  {
    if list == [] {
      assert list + [i] == [i];
    } else {
      EncodeAppend(list[1..], i);
      assert (list + [i])[1..] == list[1..] + [i];
    }
  }

  // ---------------------------------------------------------------- unchecked reads

  /** An unchecked read: the buffer's byte in range, whatever memory holds beyond it. */
  function Read(buffer: seq<u8>, beyond: nat -> u8, at: nat): u8 {
    if at < |buffer| then buffer[at] else beyond(at)
  }

  function ReadSlice(buffer: seq<u8>, beyond: nat -> u8, at: nat, length: nat): (r: seq<u8>)
    ensures |r| == length
    ensures forall k :: 0 <= k < length ==> r[k] == Read(buffer, beyond, at + k)
  {
    seq<u8>(length, k requires 0 <= k => Read(buffer, beyond, at + k))
  }

  function ReadU16(buffer: seq<u8>, beyond: nat -> u8, at: nat): u16 {
    256 * Read(buffer, beyond, at) + Read(buffer, beyond, at + 1)
  }

  /** parseInstructionUnchecked: index, length, payload; and the offset after them. */
  function ReadOne(buffer: seq<u8>, beyond: nat -> u8, at: nat): (r: (Instruction, nat))
    ensures at + 3 <= r.1 <= at + 3 + 0xFFFF
    ensures r.1 == at + 3 + |r.0.payload|
  {
    var length := ReadU16(buffer, beyond, at + 1);
    (Instruction(Read(buffer, beyond, at), ReadSlice(buffer, beyond, at + 3, length)), at + 3 + length)
  }

  /** The instructions a parse with no length check reads from an offset, and the offset where it stops. */
  function ReadMany(buffer: seq<u8>, beyond: nat -> u8, at: nat, count: nat): (r: (seq<Instruction>, nat))
    ensures |r.0| == count && Encodable(r.0)
    ensures at + 3 * count <= r.1 <= at + count * (3 + 0xFFFF)
    decreases count
  {
    if count == 0 then ([], at) else
    var (first, next) := ReadOne(buffer, beyond, at);
    var (rest, end) := ReadMany(buffer, beyond, next, count - 1);
    ([first] + rest, end)
  }

  ghost predicate InRange(list: seq<Instruction>, n: nat) {
    forall k :: 0 <= k < |list| ==> list[k].index < n
  }

  /** The sparse array: one slot per registered adapter, written in order of the instructions. */
  function Sparse(list: seq<Instruction>, n: nat): (r: seq<Instruction>)
    requires InRange(list, n)
    ensures |r| == n
  {
    if list == [] then seq(n, _ => NO_INSTRUCTION) else
    var last := list[|list| - 1];
    Sparse(list[..|list| - 1], n)[last.index := last]
  }

  /** What parseInstructions yields; None is a revert. */
  ghost function Parse(buffer: seq<u8>, beyond: nat -> u8, n: nat): Option<seq<Instruction>> {
    if buffer == [] then Some(Sparse([], n)) else
    var (list, end) := ReadMany(buffer, beyond, 1, buffer[0]);
    if InRange(list, n) && end == |buffer| then Some(Sparse(list, n)) else None
  }

  /** Whether a buffer is accepted for `n` adapters; by DeferredCheckSound no memory beyond it matters. */
  ghost predicate Accepts(buffer: seq<u8>, n: nat) {
    Parse(buffer, _ => 0, n).Some?
  }

  /** parseInstructions: unchecked reads, an index check per instruction and one length check at the end. */
  method ParseInstructions(buffer: seq<u8>, beyond: nat -> u8, n: nat) returns (r: Option<seq<Instruction>>)
    ensures r == Parse(buffer, beyond, n)
    ensures forall result :: r == Some(result) <==> Denotes(buffer, n, result)
  {
    hide ReadMany, ReadOne, Encodable, ReadSlice, ReadU16, Denotes;
    forall result: seq<Instruction>
      ensures Parse(buffer, beyond, n) == Some(result) <==> Denotes(buffer, n, result)
    {
      AcceptedIsEncoding(buffer, beyond, n, result);
    }
    var instructions := new Instruction[n](_ => NO_INSTRUCTION);
    if |buffer| == 0 {
      assert instructions[..] == Sparse([], n);
      return Some(instructions[..]);
    }
    var offset := 0;
    var count := Read(buffer, beyond, offset);
    offset := 1;
    ghost var list := ReadMany(buffer, beyond, 1, count).0;
    ghost var end := ReadMany(buffer, beyond, 1, count).1;
    var i := 0;
    while i < count
      invariant 0 <= i <= count && 0 <= offset
      invariant list[i..] == ReadMany(buffer, beyond, offset, count - i).0
      invariant end == ReadMany(buffer, beyond, offset, count - i).1
      invariant InRange(list[..i], n) && instructions[..] == Sparse(list[..i], n)
    {
      ReadStep(buffer, beyond, offset, list, i);
      var (instruction, next) := ReadOne(buffer, beyond, offset);
      offset := next;
      if instruction.index >= n {
        assert !InRange(list, n);
        return None;
      }
      SparseStep(list, i, n);
      instructions[instruction.index] := instruction;
      i := i + 1;
    }
    assert list[..count] == list;
    if offset != |buffer| {
      return None;
    }
    return Some(instructions[..]);
  }

  lemma ReadStep(buffer: seq<u8>, beyond: nat -> u8, at: nat, list: seq<Instruction>, i: nat)
    requires i < |list| && list[i..] == ReadMany(buffer, beyond, at, |list| - i).0
    ensures var (first, next) := ReadOne(buffer, beyond, at);
            && first == list[i]
            && list[i + 1..] == ReadMany(buffer, beyond, next, |list| - i - 1).0
            && ReadMany(buffer, beyond, at, |list| - i).1 == ReadMany(buffer, beyond, next, |list| - i - 1).1
  {
  }

  lemma SparseStep(list: seq<Instruction>, i: nat, n: nat)
    requires i < |list| && InRange(list[..i], n) && list[i].index < n
    ensures InRange(list[..i + 1], n)
    ensures Sparse(list[..i + 1], n) == Sparse(list[..i], n)[list[i].index := list[i]]
  {
    assert list[..i + 1][..i] == list[..i];
  }

  // ---------------------------------------------------------------- properties

  /** The slot's instruction: the last one for its index, or index 0 and no payload if there is none. */
  ghost predicate SlotHolds(list: seq<Instruction>, slot: nat, i: Instruction) {
    || (i.index == 0 && i.payload == [] && forall k :: 0 <= k < |list| ==> list[k].index != slot)
    || exists k :: 0 <= k < |list| && list[k].index == slot && i == list[k]
                   && forall j :: k < j < |list| ==> list[j].index != slot
  }

  /** The last instruction for an index wins; an index without one has index 0 and an empty payload. */
  lemma {:induction false} LastInstructionWins(list: seq<Instruction>, n: nat, slot: nat)
    requires InRange(list, n) && slot < n
    ensures SlotHolds(list, slot, Sparse(list, n)[slot])
    decreases |list|
  {
    if list != [] {
      var last := |list| - 1;
      LastInstructionWins(list[..last], n, slot);
      if list[last].index != slot {
        var i := Sparse(list[..last], n)[slot];
        if k :| 0 <= k < last && list[..last][k].index == slot && i == list[..last][k]
                && forall j :: k < j < last ==> list[..last][j].index != slot
        {
          assert list[k].index == slot && i == list[k];
          assert forall j :: k < j < |list| && j != last ==> list[j].index == list[..last][j].index;
        }
        assert forall j :: 0 <= j < last ==> list[j].index == list[..last][j].index;
      }
    }
  }

  ghost predicate Filled(list: seq<Instruction>, n: nat, result: seq<Instruction>) {
    |result| == n && forall slot :: 0 <= slot < n ==> SlotHolds(list, slot, result[slot])
  }

  lemma SlotUnique(list: seq<Instruction>, slot: nat, i: Instruction, j: Instruction)
    requires SlotHolds(list, slot, i) && SlotHolds(list, slot, j)
    ensures i == j
  {
  }

  lemma {:induction false} FilledExactly(list: seq<Instruction>, n: nat, result: seq<Instruction>)
    requires InRange(list, n)
    ensures Filled(list, n, result) <==> result == Sparse(list, n)
  {
    forall slot | 0 <= slot < n
      ensures SlotHolds(list, slot, Sparse(list, n)[slot])
    {
      LastInstructionWins(list, n, slot);
    }
    if Filled(list, n, result) {
      forall slot | 0 <= slot < n
        ensures result[slot] == Sparse(list, n)[slot]
      {
        SlotUnique(list, slot, result[slot], Sparse(list, n)[slot]);
      }
    }
  }

  lemma SliceInside(buffer: seq<u8>, beyond: nat -> u8, at: nat, length: nat)
    requires at + length <= |buffer|
    ensures ReadSlice(buffer, beyond, at, length) == buffer[at..at + length]
  {
  }

  lemma ReadOneInside(buffer: seq<u8>, b1: nat -> u8, b2: nat -> u8, at: nat)
    requires ReadOne(buffer, b1, at).1 <= |buffer|
    ensures ReadOne(buffer, b2, at) == ReadOne(buffer, b1, at)
  {
    var length := |ReadOne(buffer, b1, at).0.payload|;
    SliceInside(buffer, b1, at + 3, length);
    SliceInside(buffer, b2, at + 3, length);
  }

  /** Reads that end inside the buffer never look beyond it. */
  lemma {:induction false} ReadsInside(buffer: seq<u8>, b1: nat -> u8, b2: nat -> u8, at: nat, count: nat)
    requires ReadMany(buffer, b1, at, count).1 <= |buffer|
    ensures ReadMany(buffer, b2, at, count) == ReadMany(buffer, b1, at, count)
    decreases count
  {
    if count > 0 {
      hide Encodable, ReadOne;
      ReadOneInside(buffer, b1, b2, at);
      var next := ReadOne(buffer, b1, at).1;
      ReadsInside(buffer, b1, b2, next, count - 1);
    }
  }

  /** The single check at the end suffices: acceptance and result are the same for any memory beyond the buffer. */
  lemma {:induction false} DeferredCheckSound(buffer: seq<u8>, b1: nat -> u8, b2: nat -> u8, n: nat)
    ensures Parse(buffer, b1, n) == Parse(buffer, b2, n)
    ensures buffer != [] && Parse(buffer, b1, n).Some? ==> |buffer| <= 1 + 255 * (3 + 0xFFFF)
  {
    if buffer != [] {
      var end1 := ReadMany(buffer, b1, 1, buffer[0]).1;
      var end2 := ReadMany(buffer, b2, 1, buffer[0]).1;
      if end1 <= |buffer| {
        ReadsInside(buffer, b1, b2, 1, buffer[0]);
      } else if end2 <= |buffer| {
        ReadsInside(buffer, b2, b1, 1, buffer[0]);
      }
    }
  }

  lemma AcceptsAny(buffer: seq<u8>, beyond: nat -> u8, n: nat)
    ensures Accepts(buffer, n) <==> Parse(buffer, beyond, n).Some?
  {
    DeferredCheckSound(buffer, _ => 0, beyond, n);
  }

  ghost predicate HoldsAt(buffer: seq<u8>, at: nat, bytes: seq<u8>) {
    at + |bytes| <= |buffer| && buffer[at..at + |bytes|] == bytes
  }

  lemma {:induction false} ReadEncoded(buffer: seq<u8>, beyond: nat -> u8, at: nat, list: seq<Instruction>)
    requires Encodable(list) && HoldsAt(buffer, at, EncodeBody(list))
    ensures ReadMany(buffer, beyond, at, |list|) == (list, at + |EncodeBody(list)|)
    decreases |list|
  {
    hide EncodeOne, EncodeBody, ReadOne, ReadMany, HoldsAt, Encodable;
    if list == [] {
      ReadNothing(buffer, beyond, at);
    } else {
      EncodeBodyStep(list);
      var one, rest := EncodeOne(list[0]), EncodeBody(list[1..]);
      SplitSlice(buffer, at, one, rest);
      ReadOneEncoded(buffer, beyond, at, list[0]);
      ReadEncoded(buffer, beyond, at + |one|, list[1..]);
      ReadManyCons(buffer, beyond, at, list, at + |one|, at + |one| + |rest|);
    }
  }

  lemma ReadNothing(buffer: seq<u8>, beyond: nat -> u8, at: nat)
    ensures EncodeBody([]) == [] && ReadMany(buffer, beyond, at, 0) == ([], at)
  {
  }

  lemma EncodeBodyStep(list: seq<Instruction>)
    requires Encodable(list) && list != []
    ensures |list[0].payload| <= 0xFFFF && Encodable(list[1..])
    ensures EncodeBody(list) == EncodeOne(list[0]) + EncodeBody(list[1..])
  {
  }

  lemma SplitSlice(buffer: seq<u8>, at: nat, a: seq<u8>, b: seq<u8>)
    requires HoldsAt(buffer, at, a + b)
    ensures HoldsAt(buffer, at, a) && HoldsAt(buffer, at + |a|, b)
  {
    assert buffer[at..at + |a|] == buffer[at..at + |a + b|][..|a|];
    assert buffer[at + |a|..at + |a| + |b|] == buffer[at..at + |a + b|][|a|..];
  }

  lemma ReadManyCons(buffer: seq<u8>, beyond: nat -> u8, at: nat, list: seq<Instruction>, next: nat, end: nat)
    requires list != [] && ReadOne(buffer, beyond, at) == (list[0], next)
    requires ReadMany(buffer, beyond, next, |list| - 1) == (list[1..], end)
    ensures ReadMany(buffer, beyond, at, |list|) == (list, end)
  {
    hide ReadOne, Encodable;
    assert [list[0]] + list[1..] == list;
  }

  lemma ReadOneEncoded(buffer: seq<u8>, beyond: nat -> u8, at: nat, i: Instruction)
    requires |i.payload| <= 0xFFFF && HoldsAt(buffer, at, EncodeOne(i))
    ensures ReadOne(buffer, beyond, at) == (i, at + |EncodeOne(i)|)
  {
    var one := EncodeOne(i);
    TwoBytes(|i.payload|);
    assert buffer[at] == one[0] && buffer[at + 1] == one[1] && buffer[at + 2] == one[2];
    SliceInside(buffer, beyond, at + 3, |i.payload|);
    assert one[3..] == i.payload;
    assert buffer[at + 3..at + |one|] == buffer[at..at + |one|][3..];
  }

  lemma TwoBytes(n: u16)
    ensures BigEndian(n, 2) == [n / 256, n % 256]
  {
  }

  lemma EncodeReadOne(buffer: seq<u8>, beyond: nat -> u8, at: nat)
    requires ReadOne(buffer, beyond, at).1 <= |buffer|
    ensures var (first, next) := ReadOne(buffer, beyond, at);
            buffer[at..next] == EncodeOne(first)
  {
    var (first, next) := ReadOne(buffer, beyond, at);
    TwoBytes(|first.payload|);
    SliceInside(buffer, beyond, at + 3, |first.payload|);
    assert buffer[at..next] == [buffer[at], buffer[at + 1], buffer[at + 2]] + buffer[at + 3..next];
  }

  lemma {:induction false} EncodeRead(buffer: seq<u8>, beyond: nat -> u8, at: nat, count: nat)
    requires ReadMany(buffer, beyond, at, count).1 <= |buffer|
    ensures var (list, end) := ReadMany(buffer, beyond, at, count);
            buffer[at..end] == EncodeBody(list)
    decreases count
  {
    hide EncodeOne, ReadOne, Encodable;
    if count > 0 {
      var (first, next) := ReadOne(buffer, beyond, at);
      var (rest, end) := ReadMany(buffer, beyond, next, count - 1);
      EncodeReadOne(buffer, beyond, at);
      EncodeRead(buffer, beyond, next, count - 1);
      EncodeBodyCons(first, rest);
      JoinSlices(buffer, at, next, end);
    }
  }

  lemma EncodeBodyCons(first: Instruction, rest: seq<Instruction>)
    requires |first.payload| <= 0xFFFF && Encodable(rest)
    ensures Encodable([first] + rest) && EncodeBody([first] + rest) == EncodeOne(first) + EncodeBody(rest)
  {
    hide EncodeOne;
    assert ([first] + rest)[1..] == rest;
  }

  lemma JoinSlices(buffer: seq<u8>, a: nat, b: nat, c: nat)
    requires a <= b <= c <= |buffer|
    ensures buffer[a..c] == buffer[a..b] + buffer[b..c]
  {
  }

  /** Parsing an encoding yields the sparse array of the instructions encoded. */
  lemma {:induction false} RoundTrip(list: seq<Instruction>, beyond: nat -> u8, n: nat)
    requires |list| <= 255 && Encodable(list) && InRange(list, n)
    ensures Parse(EncodeList(list), beyond, n) == Some(Sparse(list, n))
  {
    var buffer := EncodeList(list);
    assert buffer[1..1 + |EncodeBody(list)|] == EncodeBody(list);
    ReadEncoded(buffer, beyond, 1, list);
  }

  // ---------------------------------------------------------------- the codec in bytes

  lemma {:induction false} OffsetTail(list: seq<Instruction>, k: nat)
    requires 0 < k <= |list|
    ensures Offset(list, k) == 3 + |list[0].payload| + Offset(list[1..], k - 1)
    decreases k
  {
    if k > 1 {
      OffsetTail(list, k - 1);
    }
  }

  /** The instructions one after the other from an offset on, up to `end`. */
  ghost predicate LaidOut(buffer: seq<u8>, at: nat, list: seq<Instruction>, end: nat) {
    && end == at + Offset(list, |list|) - 1 && end <= |buffer|
    && forall k :: 0 <= k < |list| ==> PieceAt(buffer, at, list, k)
  }

  ghost predicate PieceAt(buffer: seq<u8>, at: nat, list: seq<Instruction>, k: nat)
    requires k < |list|
  {
    OffsetPositive(list, k);
    InstructionAt(buffer, at + Offset(list, k) - 1, list[k])
  }

  lemma PieceTail(buffer: seq<u8>, at: nat, list: seq<Instruction>, k: nat)
    requires 0 < k < |list|
    ensures PieceAt(buffer, at, list, k) <==> PieceAt(buffer, at + 3 + |list[0].payload|, list[1..], k - 1)
  {
    hide InstructionAt;
    OffsetTail(list, k);
    assert list[1..][k - 1] == list[k];
  }

  lemma LaidOutCons(buffer: seq<u8>, at: nat, list: seq<Instruction>, end: nat)
    requires list != []
    ensures var next := at + 3 + |list[0].payload|;
            LaidOut(buffer, at, list, end) <==>
            InstructionAt(buffer, at, list[0]) && LaidOut(buffer, next, list[1..], end)
  {
    hide PieceAt, Offset;
    var next := at + 3 + |list[0].payload|;
    OffsetTail(list, |list|);
    FirstPiece(buffer, at, list);
    forall k | 0 < k < |list|
      ensures PieceAt(buffer, at, list, k) <==> PieceAt(buffer, next, list[1..], k - 1)
    {
      PieceTail(buffer, at, list, k);
    }
    if LaidOut(buffer, at, list, end) {
      forall k | 0 <= k < |list[1..]|
        ensures PieceAt(buffer, next, list[1..], k)
      {
        assert PieceAt(buffer, at, list, k + 1);
      }
    }
  }

  lemma FirstPiece(buffer: seq<u8>, at: nat, list: seq<Instruction>)
    requires list != []
    ensures PieceAt(buffer, at, list, 0) <==> InstructionAt(buffer, at, list[0])
  {
  }

  lemma OneAt(buffer: seq<u8>, at: nat, i: Instruction)
    requires |i.payload| <= 0xFFFF
    ensures InstructionAt(buffer, at, i) <==> HoldsAt(buffer, at, EncodeOne(i))
  {
    var one, n := EncodeOne(i), |i.payload|;
    TwoBytes(n);
    assert one == [i.index, n / 256, n % 256] + i.payload;
    if HoldsAt(buffer, at, one) {
      SplitSlice(buffer, at, [i.index, n / 256, n % 256], i.payload);
      var head := buffer[at..at + 3];
      assert head == [i.index, n / 256, n % 256];
      assert buffer[at] == head[0] && buffer[at + 1] == head[1] && buffer[at + 2] == head[2];
    }
    if InstructionAt(buffer, at, i) {
      assert buffer[at..at + 3] == [i.index, n / 256, n % 256];
      JoinSlices(buffer, at, at + 3, at + 3 + n);
    }
  }

  lemma JoinHeld(buffer: seq<u8>, at: nat, a: seq<u8>, b: seq<u8>)
    requires HoldsAt(buffer, at, a) && HoldsAt(buffer, at + |a|, b)
    ensures HoldsAt(buffer, at, a + b)
  {
    JoinSlices(buffer, at, at + |a|, at + |a| + |b|);
  }

  lemma {:induction false} BodyAt(buffer: seq<u8>, at: nat, list: seq<Instruction>, end: nat)
    requires Encodable(list)
    ensures LaidOut(buffer, at, list, end) <==>
            end == at + |EncodeBody(list)| && HoldsAt(buffer, at, EncodeBody(list))
    decreases |list|
  {
    hide EncodeOne, EncodeBody, HoldsAt, LaidOut, InstructionAt, Encodable;
    if list == [] {
      NothingAt(buffer, at, end);
    } else {
      EncodeBodyStep(list);
      var one, rest := EncodeOne(list[0]), EncodeBody(list[1..]);
      EncodeOneLength(list[0]);
      LaidOutCons(buffer, at, list, end);
      OneAt(buffer, at, list[0]);
      BodyAt(buffer, at + |one|, list[1..], end);
      if HoldsAt(buffer, at, one + rest) {
        SplitSlice(buffer, at, one, rest);
      }
      if HoldsAt(buffer, at, one) && HoldsAt(buffer, at + |one|, rest) {
        JoinHeld(buffer, at, one, rest);
      }
    }
  }

  lemma EncodeOneLength(i: Instruction)
    requires |i.payload| <= 0xFFFF
    ensures |EncodeOne(i)| == 3 + |i.payload|
  {
  }

  lemma NothingAt(buffer: seq<u8>, at: nat, end: nat)
    ensures LaidOut(buffer, at, [], end) <==> end == at + |EncodeBody([])| && HoldsAt(buffer, at, EncodeBody([]))
  {
  }

  /** The layout in bytes is the encoding, and nothing else is. */
  lemma {:induction false} LayoutExactly(buffer: seq<u8>, list: seq<Instruction>)
    requires Encodable(list)
    ensures Layout(buffer, list) <==> |list| <= 255 && buffer == EncodeList(list)
  {
    hide EncodeBody, Encodable, LaidOut, Layout;
    LayoutIsLaidOut(buffer, list);
    BodyAt(buffer, 1, list, |buffer|);
    var body := EncodeBody(list);
    if |list| <= 255 && buffer == EncodeList(list) {
      assert buffer[1..1 + |body|] == body;
    }
    if buffer != [] {
      assert buffer == [buffer[0]] + buffer[1..];
    }
  }

  lemma LayoutIsLaidOut(buffer: seq<u8>, list: seq<Instruction>)
    ensures Layout(buffer, list) <==> buffer != [] && buffer[0] == |list| && LaidOut(buffer, 1, list, |buffer|)
  {
    hide InstructionAt;
    OffsetPositive(list, |list|);
    forall k | 0 <= k < |list|
      ensures PieceAt(buffer, 1, list, k) <==> InstructionAt(buffer, Offset(list, k), list[k])
    {
    }
  }

  lemma {:induction false} OffsetPositive(list: seq<Instruction>, k: nat)
    requires k <= |list|
    ensures Offset(list, k) > 0
  {
  }

  lemma LayoutEncodable(buffer: seq<u8>, list: seq<Instruction>)
    requires Layout(buffer, list)
    ensures Encodable(list)
  {
    forall k | 0 <= k < |list|
      ensures |list[k].payload| <= 0xFFFF
    {
      assert InstructionAt(buffer, Offset(list, k), list[k]);
    }
  }

  /** What a buffer says: an empty one names no instruction, any other is laid out in bytes. */
  ghost predicate Spells(buffer: seq<u8>, list: seq<Instruction>) {
    if buffer == [] then list == [] else Layout(buffer, list)
  }

  /** The buffer spells in-range instructions, and the result holds the last one for each index. */
  ghost predicate Means(buffer: seq<u8>, list: seq<Instruction>, n: nat, result: seq<Instruction>) {
    Spells(buffer, list) && InRange(list, n) && Filled(list, n, result)
  }

  ghost predicate Denotes(buffer: seq<u8>, n: nat, result: seq<Instruction>) {
    exists list :: Means(buffer, list, n, result)
  }

  /** A buffer is accepted, with a result, exactly when its bytes spell in-range instructions with that result. */
  lemma {:induction false} AcceptedIsEncoding(buffer: seq<u8>, beyond: nat -> u8, n: nat, result: seq<Instruction>)
    ensures Parse(buffer, beyond, n) == Some(result) <==> Denotes(buffer, n, result)
  {
    hide Layout, Sparse, ReadMany, EncodeBody, Filled;
    if Parse(buffer, beyond, n) == Some(result) {
      ghost var list := [];
      if buffer != [] {
        list := ReadMany(buffer, beyond, 1, buffer[0]).0;
        EncodeRead(buffer, beyond, 1, buffer[0]);
        assert buffer == [buffer[0]] + buffer[1..|buffer|];
        LayoutExactly(buffer, list);
      }
      FilledExactly(list, n, result);
      assert Means(buffer, list, n, result);
    }
    if list :| Means(buffer, list, n, result) {
      FilledExactly(list, n, result);
      if buffer != [] {
        LayoutEncodable(buffer, list);
        LayoutExactly(buffer, list);
        RoundTrip(list, beyond, n);
      }
    }
  }

  ghost predicate SpellsInRange(buffer: seq<u8>, n: nat) {
    exists list :: Spells(buffer, list) && InRange(list, n)
  }

  lemma {:induction false} AcceptsExactly(buffer: seq<u8>, n: nat)
    ensures Accepts(buffer, n) <==> SpellsInRange(buffer, n)
  {
    hide Spells, Parse, InRange, Filled;
    if Accepts(buffer, n) {
      AcceptedIsEncoding(buffer, _ => 0, n, Parse(buffer, _ => 0, n).value);
    }
    if list :| Spells(buffer, list) && InRange(list, n) {
      FilledExactly(list, n, Sparse(list, n));
      assert Means(buffer, list, n, Sparse(list, n));
      AcceptedIsEncoding(buffer, _ => 0, n, Sparse(list, n));
    }
  }

  /** The payload for an adapter: that of the last instruction for its index, or no bytes if there is none. */
  ghost predicate PayloadIs(list: seq<Instruction>, slot: nat, payload: seq<u8>) {
    || (payload == [] && forall k :: 0 <= k < |list| ==> list[k].index != slot)
    || exists k :: 0 <= k < |list| && list[k].index == slot && payload == list[k].payload
                   && forall j :: k < j < |list| ==> list[j].index != slot
  }

  /** No buffer spells two lists. */
  lemma {:induction false} SpellsOnce(buffer: seq<u8>, list: seq<Instruction>, other: seq<Instruction>)
    requires Spells(buffer, list) && Spells(buffer, other)
    ensures list == other
  {
    hide Layout, ReadMany, EncodeBody;
    if buffer != [] {
      LayoutEncodable(buffer, list);
      LayoutEncodable(buffer, other);
      LayoutExactly(buffer, list);
      LayoutExactly(buffer, other);
      assert buffer[1..] == EncodeBody(list) && buffer[1..] == EncodeBody(other);
      assert HoldsAt(buffer, 1, EncodeBody(list)) && HoldsAt(buffer, 1, EncodeBody(other));
      ReadEncoded(buffer, _ => 0, 1, list);
      ReadEncoded(buffer, _ => 0, 1, other);
    }
  }
}
