/**
 * The storage of Endpoint.sol, AdapterRegistry.sol and MessageSequence.sol (one contract, one storage),
 * its agreement with the protocol state, and the steps that keep it.
 */
module EvmStorage {
  import opened Numbers
  import opened Bits
  import opened Bitmaps
  import opened Messages
  import opened Instructions
  import opened Protocol
  import opened Agreement
  import opened Reentrancy

  /** msg.sender: the platform never runs a call from the zero address. */
  type EvmCaller = n: nat | 0 < n < 0x1_0000_0000_0000_0000_0000_0000_0000_0000_0000_0000 witness 1

  datatype IntegratorConfig = IntegratorConfig(isInitialized: bool, admin: EvmAddress, pendingAdmin: EvmAddress)

  datatype SendAdapter = SendAdapter(addr: Address, index: u8)

  datatype AttestationInfo = AttestationInfo(executed: bool, numAttested: u8, attestedAdapters: u128)

  datatype AdapterCall = AdapterCall(
    adapter: Address, value: u256, sequence: u64, dstChain: Chain, dstAddr: Address, payloadHash: u256,
    instruction: seq<u8>)

  const NO_CONFIG := IntegratorConfig(false, ZERO, ZERO)
  const NO_ATTESTATION := AttestationInfo(false, 0, 0)

  type AttestationStore = map<(Address, Digest), AttestationInfo>

  // ---------------------------------------------------------------- agreement with the protocol

  function NonZero(a: EvmAddress): Option<Address> {
    if a == ZERO then None else Some(a)
  }

  ghost predicate AdminTie(configs: map<Address, IntegratorConfig>, admins: map<Address, Admins>) {
    && configs.Keys == admins.Keys
    && forall i :: i in configs ==>
         && configs[i].isInitialized
         && admins[i] == Admins(NonZero(configs[i].admin), NonZero(configs[i].pendingAdmin))
         && i < 0x1_0000_0000_0000_0000_0000_0000_0000_0000_0000_0000
  }

  /** A send array lists a set: each member once, with its registry index. */
  ghost predicate Enumerates(entries: seq<SendAdapter>, adapters: seq<Address>, members: set<Address>) {
    && (forall p :: 0 <= p < |entries| ==>
          entries[p].addr in members && entries[p].index < |adapters| && adapters[entries[p].index] == entries[p].addr)
    && (forall p, q :: 0 <= p < q < |entries| ==> entries[p].addr != entries[q].addr)
    && (forall a :: a in members ==> exists p :: 0 <= p < |entries| && entries[p].addr == a)
  }

  ghost predicate SendTie(arrays: map<(Address, Chain), seq<SendAdapter>>, adapters: map<Address, seq<Address>>,
                          enabled: map<Slot, set<Address>>)
  {
    forall i, c :: Enumerates(Lookup(arrays, (i, c), []), AdaptersOf(adapters, i), EnabledAt(enabled, SendSide, i, c))
  }

  function Key(keccak: seq<u8> -> Digest, m: Message): (Address, Digest) {
    (m.dstAddr, keccak(Encode(m)))
  }

  ghost predicate InfoTie(info: AttestationInfo, m: Message, s: State) {
    && RecordTie(info.attestedAdapters, info.executed, m, s)
    && info.numAttested == |Attesters(s.attested, m)|
  }

  ghost predicate AttestationTie(store: AttestationStore, keccak: seq<u8> -> Digest, s: State) {
    forall m: Message :: InfoTie(Lookup(store, Key(keccak, m), NO_ATTESTATION), m, s)
  }

  // ---------------------------------------------------------------- keeping the send arrays in agreement

  lemma EnumeratesPush(entries: seq<SendAdapter>, adapters: seq<Address>, members: set<Address>, a: Address, index: u8)
    requires Enumerates(entries, adapters, members) && a !in members
    requires index < |adapters| && adapters[index] == a
    ensures Enumerates(entries + [SendAdapter(a, index)], adapters, members + {a})
  {
    var after := entries + [SendAdapter(a, index)];
    forall b | b in members + {a}
      ensures exists p :: 0 <= p < |after| && after[p].addr == b
    {
      if b == a {
        assert after[|entries|].addr == b;
      } else {
        var p :| 0 <= p < |entries| && entries[p].addr == b;
        assert after[p].addr == b;
      }
    }
  }

  /** Swap with the last element and pop: exactly the element at `p` goes. */
  lemma EnumeratesSwapPop(entries: seq<SendAdapter>, adapters: seq<Address>, members: set<Address>, p: nat)
    requires Enumerates(entries, adapters, members) && p < |entries|
    ensures Enumerates(entries[p := entries[|entries| - 1]][..|entries| - 1], adapters, members - {entries[p].addr})
  {
    var last := |entries| - 1;
    var after := entries[p := entries[last]][..last];
    forall b | b in members - {entries[p].addr}
      ensures exists q :: 0 <= q < |after| && after[q].addr == b
    {
      var q :| 0 <= q < |entries| && entries[q].addr == b;
      assert after[if q == last then p else q].addr == b;
    }
  }

  lemma {:induction false} EnumeratesCount(entries: seq<SendAdapter>, adapters: seq<Address>, members: set<Address>)
    requires Enumerates(entries, adapters, members)
    ensures |entries| == |members|
    decreases |entries|
  {
    if entries == [] {
      assert members == {};
    } else {
      var last := |entries| - 1;
      EnumeratesSwapPop(entries, adapters, members, last);
      assert entries[last := entries[last]][..last] == entries[..last];
      EnumeratesCount(entries[..last], adapters, members - {entries[last].addr});
    }
  }

  lemma EnumeratesMember(entries: seq<SendAdapter>, adapters: seq<Address>, members: set<Address>, a: Address)
    requires Enumerates(entries, adapters, members)
    ensures a in members <==> exists p :: 0 <= p < |entries| && entries[p].addr == a
  {
  }

  lemma SendTieUpdate(arrays: map<(Address, Chain), seq<SendAdapter>>, adapters: map<Address, seq<Address>>,
                      enabled: map<Slot, set<Address>>, i: Address, c: Chain,
                      entries: seq<SendAdapter>, members: set<Address>)
    requires SendTie(arrays, adapters, enabled) && Enumerates(entries, AdaptersOf(adapters, i), members)
    ensures SendTie(arrays[(i, c) := entries], adapters, enabled[Slot(SendSide, i, c) := members])
  {
  }

  lemma SendTieOtherSide(arrays: map<(Address, Chain), seq<SendAdapter>>, adapters: map<Address, seq<Address>>,
                         enabled: map<Slot, set<Address>>, t: Slot, members: set<Address>)
    requires SendTie(arrays, adapters, enabled) && t.side == RecvSide
    ensures SendTie(arrays, adapters, enabled[t := members])
  {
  }

  lemma SendTieGrow(arrays: map<(Address, Chain), seq<SendAdapter>>, s: State, later: map<Address, seq<Address>>)
    requires SendTie(arrays, s.adapters, s.enabled) && ListsGrow(s.adapters, later)
    ensures SendTie(arrays, later, s.enabled)
  {
  }

  // ---------------------------------------------------------------- keeping the records in agreement

  /** An action that touches no record, or only other messages' records, keeps every info right. */
  lemma InfosKeep(rules: Rules, s: State, act: Action, store: AttestationStore, keccak: seq<u8> -> Digest)
    requires Inv(rules, s) && AttestationTie(store, keccak, s)
    requires !act.Attest? && !act.Recv? && !act.Exec?
    ensures AttestationTie(store, keccak, Next(rules, s, act))
  {
    forall m: Message
      ensures InfoTie(Lookup(store, Key(keccak, m), NO_ATTESTATION), m, Next(rules, s, act))
    {
      var info := Lookup(store, Key(keccak, m), NO_ATTESTATION);
      assert InfoTie(info, m, s);
      RecordTieKeep(rules, s, act, info.attestedAdapters, info.executed, m);
      Frame(rules, s, act);
    }
  }

  /** Writing the record of one message keeps the others: no two messages share a key. */
  lemma InfosWrite(rules: Rules, s: State, act: Action, store: AttestationStore, keccak: seq<u8> -> Digest,
                   info: AttestationInfo)
    requires Inv(rules, s) && AttestationTie(store, keccak, s) && CollisionFree(keccak)
    requires act.Attest? || act.Recv? || act.Exec?
    requires InfoTie(info, act.message, Next(rules, s, act))
    ensures AttestationTie(store[Key(keccak, act.message) := info], keccak, Next(rules, s, act))
  {
    var after := store[Key(keccak, act.message) := info];
    forall m: Message
      ensures InfoTie(Lookup(after, Key(keccak, m), NO_ATTESTATION), m, Next(rules, s, act))
    {
      SameDigest(keccak, m, act.message);
      if m != act.message {
        var other := Lookup(store, Key(keccak, m), NO_ATTESTATION);
        assert Lookup(after, Key(keccak, m), NO_ATTESTATION) == other;
        assert InfoTie(other, m, s);
        RecordTieKeep(rules, s, act, other.attestedAdapters, other.executed, m);
        OtherAttesters(rules, s, act, m);
      }
    }
  }

  lemma OtherAttesters(rules: Rules, s: State, act: Action, m: Message)
    requires act.Attest? || act.Recv? || act.Exec?
    requires act.message != m
    ensures Attesters(Next(rules, s, act).attested, m) == Attesters(s.attested, m)
  {
    hide Next, Enabled;
    RecordKeep(rules, s, act, m);
  }

  // ---------------------------------------------------------------- reading

  /** The registered list, filtered by membership, in order. */
  function Filtered(list: seq<Address>, members: set<Address>): seq<Address> {
    if list == [] then []
    else
      var last := list[|list| - 1];
      Filtered(list[..|list| - 1], members) + if last in members then [last] else []
  }

  lemma {:induction false} FilteredCount(list: seq<Address>, members: set<Address>)
    requires Distinct(list) && forall a :: a in members ==> a in list
    ensures |Filtered(list, members)| == |members|
    decreases |list|
  {
    if list == [] {
      assert members == {};
    } else {
      var last, rest := list[|list| - 1], list[..|list| - 1];
      forall a | a in members - {last}
        ensures a in rest
      {
        var k :| 0 <= k < |list| && list[k] == a;
        assert rest[k] == a;
      }
      FilteredCount(rest, members - {last});
      FilteredSame(rest, members, members - {last});
      assert last !in members ==> members - {last} == members;
    }
  }

  /** The first sequence has exactly the members that the list has, in the list's order. */
  ghost predicate Selects(some: seq<Address>, list: seq<Address>, members: set<Address>) {
    && (forall a :: a in some <==> a in list && a in members)
    && (forall p, q :: 0 <= p < q < |some| ==> Before(list, some[p], some[q]))
  }

  ghost predicate Before(list: seq<Address>, a: Address, b: Address) {
    exists i, j :: 0 <= i < j < |list| && list[i] == a && list[j] == b
  }

  lemma {:induction false} FilteredSelects(list: seq<Address>, members: set<Address>)
    ensures Selects(Filtered(list, members), list, members)
    decreases |list|
  {
    if list != [] {
      var n := |list| - 1;
      var rest, some := Filtered(list[..n], members), Filtered(list, members);
      FilteredSelects(list[..n], members);
      assert forall a :: a in list <==> a in list[..n] || a == list[n];
      forall p, q | 0 <= p < q < |some|
        ensures Before(list, some[p], some[q])
      {
        if q < |rest| {
          assert Before(list[..n], rest[p], rest[q]);
        } else {
          assert rest[p] in list[..n];
          var i :| 0 <= i < n && list[..n][i] == rest[p];
          assert list[i] == some[p] && list[n] == some[q];
        }
      }
    }
  }

  lemma FilteredNone(list: seq<Address>, members: set<Address>)
    ensures Filtered(list[..0], members) == []
  {
  }

  lemma {:induction false} FilteredSame(list: seq<Address>, m1: set<Address>, m2: set<Address>)
    requires forall k :: 0 <= k < |list| ==> (list[k] in m1 <==> list[k] in m2)
    ensures Filtered(list, m1) == Filtered(list, m2)
    decreases |list|
  {
    if list != [] {
      FilteredSame(list[..|list| - 1], m1, m2);
    }
  }

  lemma {:induction false} FilteredPrefix(list: seq<Address>, members: set<Address>, k: nat)
    requires k <= |list|
    ensures |Filtered(list[..k], members)| <= |Filtered(list, members)|
    ensures k < |list| ==>
              Filtered(list[..k + 1], members)
              == Filtered(list[..k], members) + if list[k] in members then [list[k]] else []
    decreases |list|
  {
    if k < |list| {
      assert list[..k + 1][..k] == list[..k];
      assert list[..|list| - 1][..k] == list[..k];
      FilteredPrefix(list[..|list| - 1], members, k);
    } else {
      assert list[..k] == list;
    }
  }

  /** The prices an integrator is quoted: one per enabled adapter, for that adapter's own instruction. */
  function Total(entries: seq<SendAdapter>, instructions: seq<Instruction>, dstChain: Chain,
                 price: (Address, Chain, seq<u8>) -> u256): nat
    requires InEntries(entries, |instructions|)
  {
    if entries == [] then 0
    else
      var last := entries[|entries| - 1];
      Total(entries[..|entries| - 1], instructions, dstChain, price)
      + price(last.addr, dstChain, instructions[last.index].payload)
  }

  function TotalValue(calls: seq<AdapterCall>): nat {
    if calls == [] then 0 else TotalValue(calls[..|calls| - 1]) + calls[|calls| - 1].value
  }

  /** Nothing is asked for no adapter. */
  lemma TotalNone(instructions: seq<Instruction>, dstChain: Chain, price: (Address, Chain, seq<u8>) -> u256)
    ensures InEntries([], |instructions|) && Total([], instructions, dstChain, price) == 0 && TotalValue([]) == 0
  {
  }

  lemma {:induction false} TotalPrefix(entries: seq<SendAdapter>, instructions: seq<Instruction>, dstChain: Chain,
                                       price: (Address, Chain, seq<u8>) -> u256, p: nat)
    requires InEntries(entries, |instructions|)
    requires p <= |entries|
    ensures Total(entries[..p], instructions, dstChain, price) <= Total(entries, instructions, dstChain, price)
    ensures p < |entries| ==>
              Total(entries[..p + 1], instructions, dstChain, price)
              == Total(entries[..p], instructions, dstChain, price)
                 + price(entries[p].addr, dstChain, instructions[entries[p].index].payload)
    decreases |entries|
  {
    if p < |entries| {
      assert entries[..p + 1][..p] == entries[..p];
      assert entries[..|entries| - 1][..p] == entries[..p];
      TotalPrefix(entries[..|entries| - 1], instructions, dstChain, price, p);
    } else {
      assert entries[..p] == entries;
    }
  }

  /** Every enabled adapter is called once, with this message and the instruction for its own index. */
  ghost predicate FanOut(calls: seq<AdapterCall>, adapters: seq<Address>, members: set<Address>,
                         instructions: seq<Instruction>, price: (Address, Chain, seq<u8>) -> u256,
                         sequence: u64, dstChain: Chain, dstAddr: Address, payloadHash: u256)
  {
    && |calls| == |members|
    && (forall p, q :: 0 <= p < q < |calls| ==> calls[p].adapter != calls[q].adapter)
    && (forall p :: 0 <= p < |calls| ==>
          && calls[p].adapter in members
          && calls[p].sequence == sequence && calls[p].dstChain == dstChain
          && calls[p].dstAddr == dstAddr && calls[p].payloadHash == payloadHash
          && calls[p].value == price(calls[p].adapter, dstChain, calls[p].instruction))
    && (forall p, k ::
          0 <= p < |calls| && 0 <= k < |adapters| && k < |instructions| && adapters[k] == calls[p].adapter
          ==> calls[p].instruction == instructions[k].payload)
  }

  /** What a send delivers: the fan-out, and together the value that a quote for the same state returns. */
  ghost predicate Delivered(calls: seq<AdapterCall>, entries: seq<SendAdapter>, adapters: seq<Address>,
                            members: set<Address>, parsed: Option<seq<Instruction>>,
                            price: (Address, Chain, seq<u8>) -> u256,
                            sequence: u64, dstChain: Chain, dstAddr: Address, payloadHash: u256)
  {
    && parsed.Some?
    && FanOut(calls, adapters, members, parsed.value, price, sequence, dstChain, dstAddr, payloadHash)
    && InEntries(entries, |parsed.value|)
    && TotalValue(calls) == Total(entries, parsed.value, dstChain, price)
  }

  lemma EntriesFanOut(calls: seq<AdapterCall>, entries: seq<SendAdapter>, adapters: seq<Address>, members: set<Address>,
                      instructions: seq<Instruction>, price: (Address, Chain, seq<u8>) -> u256,
                      sequence: u64, dstChain: Chain, dstAddr: Address, payloadHash: u256)
    requires Enumerates(entries, adapters, members) && Distinct(adapters) && |instructions| == |adapters|
    requires |calls| == |entries|
    requires Made(calls, entries, instructions, price, sequence, dstChain, dstAddr, payloadHash)
    ensures Delivered(calls, entries, adapters, members, Some(instructions), price,
                      sequence, dstChain, dstAddr, payloadHash)
  {
    EnumeratesCount(entries, adapters, members);
    assert entries[..|entries|] == entries;
  }

  /** Each call carries what the bytes of the buffer spell for the adapter's index; nothing if they do not name it. */
  ghost predicate Instructed(calls: seq<AdapterCall>, adapters: seq<Address>, buffer: seq<u8>) {
    exists list :: Spells(buffer, list) && Carried(calls, adapters, list)
  }

  ghost predicate Carried(calls: seq<AdapterCall>, adapters: seq<Address>, list: seq<Instruction>) {
    forall p, k :: 0 <= p < |calls| && 0 <= k < |adapters| && adapters[k] == calls[p].adapter ==>
      PayloadIs(list, k, calls[p].instruction)
  }

  lemma CallsInstructed(calls: seq<AdapterCall>, entries: seq<SendAdapter>, adapters: seq<Address>,
                        members: set<Address>, instructions: seq<Instruction>, buffer: seq<u8>, beyond: nat -> u8,
                        price: (Address, Chain, seq<u8>) -> u256,
                        sequence: u64, dstChain: Chain, dstAddr: Address, payloadHash: u256)
    requires Enumerates(entries, adapters, members)
    requires Parse(buffer, beyond, |adapters|) == Some(instructions)
    requires Delivered(calls, entries, adapters, members, Some(instructions), price,
                       sequence, dstChain, dstAddr, payloadHash)
    ensures Instructed(calls, adapters, buffer)
    ensures buffer == [] ==> forall p :: 0 <= p < |calls| ==> calls[p].instruction == []
  {
    hide Parse, Spells, InRange;
    AcceptedIsEncoding(buffer, beyond, |adapters|, instructions);
    var list :| Means(buffer, list, |adapters|, instructions);
    forall p, k | 0 <= p < |calls| && 0 <= k < |adapters| && adapters[k] == calls[p].adapter
      ensures PayloadIs(list, k, calls[p].instruction)
    {
      assert SlotHolds(list, k, instructions[k]);
    }
    if buffer == [] {
      SpellsNothing(list);
      forall p | 0 <= p < |calls|
        ensures calls[p].instruction == []
      {
        var q :| 0 <= q < |entries| && entries[q].addr == calls[p].adapter;
        assert PayloadIs(list, entries[q].index, calls[p].instruction);
      }
    }
  }

  lemma SpellsNothing(list: seq<Instruction>)
    requires Spells([], list)
    ensures list == []
  {
  }

  function CallFor(entry: SendAdapter, instructions: seq<Instruction>, price: (Address, Chain, seq<u8>) -> u256,
                   sequence: u64, dstChain: Chain, dstAddr: Address, payloadHash: u256): AdapterCall
    requires entry.index < |instructions|
  {
    var payload := instructions[entry.index].payload;
    AdapterCall(entry.addr, price(entry.addr, dstChain, payload), sequence, dstChain, dstAddr, payloadHash, payload)
  }

  // ---------------------------------------------------------------- the contract's storage

  datatype Storage = Storage(
    configs: map<Address, IntegratorConfig>,
    infos: map<(Address, Address), u8>,
    registered: map<Address, seq<Address>>,
    sendAdapters: map<(Address, Chain), seq<SendAdapter>>,
    recvBitmaps: map<(Address, Chain), u128>,
    attestations: AttestationStore,
    sequences: map<Address, u64>)

  ghost predicate Agrees(our: Chain, keccak: seq<u8> -> Digest, st: Storage, s: State) {
    && CollisionFree(keccak)
    && Inv(Evm(our), s)
    && AdminTie(st.configs, s.admins)
    && IndexTie(st.infos, s.adapters)
    && ListTie(st.registered, s.adapters)
    && SendTie(st.sendAdapters, s.adapters, s.enabled)
    && BitmapTie(st.recvBitmaps, s.adapters, s.enabled, RecvSide)
    && AttestationTie(st.attestations, keccak, s)
    && SequenceTie(st.sequences, s.next)
  }

  predicate OnlyAdmin(configs: map<Address, IntegratorConfig>, i: Address, caller: EvmAddress) {
    var config := Lookup(configs, i, NO_CONFIG);
    config.isInitialized && config.admin == caller
  }

  /** What the storage says of an integrator's admins, in the protocol's terms. */
  lemma AdminFacts(our: Chain, keccak: seq<u8> -> Digest, st: Storage, s: State, i: Address)
    requires Agrees(our, keccak, st, s)
    ensures forall caller: EvmCaller :: OnlyAdmin(st.configs, i, caller) <==> IsAdmin(s, i, caller)
    ensures i in st.configs <==> i in s.admins
    ensures i in st.configs ==>
              && st.configs[i].isInitialized
              && s.admins[i] == Admins(NonZero(st.configs[i].admin), NonZero(st.configs[i].pendingAdmin))
    ensures AdaptersOf(st.registered, i) == AdaptersOf(s.adapters, i)
    ensures |AdaptersOf(s.adapters, i)| <= MAX_ADAPTERS && Distinct(AdaptersOf(s.adapters, i))
    ensures Lookup(st.sequences, i, 0) == Lookup(s.next, i, 0)
  {
  }

  /** What the storage says of an integrator's adapter, in the protocol's terms. */
  lemma AdapterFacts(our: Chain, keccak: seq<u8> -> Digest, st: Storage, s: State, i: Address, c: Chain, a: Address)
    requires Agrees(our, keccak, st, s)
    ensures IndexAt(st.infos, AdaptersOf(s.adapters, i), i, a)
    ensures (i, a) in st.infos ==> a != ZERO && st.infos[(i, a)] < 128
    ensures (i, a) in st.infos ==>
              (Bit(Lookup(st.recvBitmaps, (i, c), 0), st.infos[(i, a)]) <==> a in EnabledAt(s.enabled, RecvSide, i, c))
    ensures a in EnabledAt(s.enabled, RecvSide, i, c) ==> c != 0 && (i, a) in st.infos
    ensures a in EnabledAt(s.enabled, SendSide, i, c) ==> c != 0 && (i, a) in st.infos
  {
  }

  /** What the storage says of a destination chain, in the protocol's terms. */
  lemma SendFacts(our: Chain, keccak: seq<u8> -> Digest, st: Storage, s: State, i: Address, c: Chain)
    requires Agrees(our, keccak, st, s)
    ensures var members := EnabledAt(s.enabled, SendSide, i, c);
            var entries := Lookup(st.sendAdapters, (i, c), []);
            && Enumerates(entries, AdaptersOf(s.adapters, i), members)
            && |entries| == |members|
            && (c == 0 ==> members == {})
  {
    EnabledListed(Evm(our), s, SendSide, i, c);
    EnumeratesCount(Lookup(st.sendAdapters, (i, c), []), AdaptersOf(s.adapters, i),
                    EnabledAt(s.enabled, SendSide, i, c));
  }

  /** What the storage says of a source chain, in the protocol's terms. */
  lemma RecvFacts(our: Chain, keccak: seq<u8> -> Digest, st: Storage, s: State, i: Address, c: Chain)
    requires Agrees(our, keccak, st, s)
    ensures var members := EnabledAt(s.enabled, RecvSide, i, c);
            var bitmap := Lookup(st.recvBitmaps, (i, c), 0);
            && Holds(bitmap, AdaptersOf(s.adapters, i), members)
            && (bitmap == 0 <==> members == {})
            && PopCount(bitmap) == |members|
            && (forall a :: a in members ==> a in AdaptersOf(s.adapters, i))
            && (c == 0 ==> members == {})
  {
    ListedBelow128(Evm(our), s, i);
    EnabledListed(Evm(our), s, RecvSide, i, c);
    var bitmap, members := Lookup(st.recvBitmaps, (i, c), 0), EnabledAt(s.enabled, RecvSide, i, c);
    assert Holds(bitmap, AdaptersOf(s.adapters, i), members);
    HoldsNonempty(bitmap, AdaptersOf(s.adapters, i), members);
    HoldsCount(bitmap, AdaptersOf(s.adapters, i), members);
  }

  /** When the contract accepts an enable or a disable. */
  lemma SetGuard(our: Chain, keccak: seq<u8> -> Digest, st: Storage, s: State, caller: EvmCaller, side: Side,
                 i: Address, c: Chain, a: Address)
    requires Agrees(our, keccak, st, s)
    ensures var may := OnlyAdmin(st.configs, i, caller) && a != ZERO && c != 0 && (i, a) in st.infos;
            && (Enabled(Evm(our), s, Enable(caller, side, i, c, a)) <==> may && a !in EnabledAt(s.enabled, side, i, c))
            && (Enabled(Evm(our), s, Disable(caller, side, i, c, a)) <==> may && a in EnabledAt(s.enabled, side, i, c))
  {
    hide Agrees;
    AdminFacts(our, keccak, st, s, i);
    AdapterFacts(our, keccak, st, s, i, c, a);
  }

  lemma AddGuard(our: Chain, keccak: seq<u8> -> Digest, st: Storage, s: State, caller: EvmCaller, i: Address,
                 a: Address)
    requires Agrees(our, keccak, st, s)
    ensures AdaptersOf(st.registered, i) == AdaptersOf(s.adapters, i) && |AdaptersOf(s.adapters, i)| <= 128
    ensures Enabled(Evm(our), s, AddAdapter(caller, i, a)) <==>
            OnlyAdmin(st.configs, i, caller) && a != ZERO && (i, a) !in st.infos && |AdaptersOf(st.registered, i)| < 128
  {
    hide Agrees;
    AdminFacts(our, keccak, st, s, i);
    AdapterFacts(our, keccak, st, s, i, 0, a);
  }

  lemma ClaimGuard(our: Chain, keccak: seq<u8> -> Digest, st: Storage, s: State, i: Address, caller: EvmCaller)
    requires Agrees(our, keccak, st, s)
    ensures var config := Lookup(st.configs, i, NO_CONFIG);
            Enabled(Evm(our), s, ClaimAdmin(caller, i)) <==>
            config.pendingAdmin != ZERO && (caller == config.admin || caller == config.pendingAdmin)
    ensures Lookup(st.configs, i, NO_CONFIG).pendingAdmin != ZERO ==>
              i in st.configs && st.configs[i].isInitialized
  {
  }

  /** What the storage says of a message, in the protocol's terms. */
  lemma MessageFacts(our: Chain, keccak: seq<u8> -> Digest, st: Storage, s: State, m: Message)
    requires Agrees(our, keccak, st, s)
    ensures var info := Lookup(st.attestations, Key(keccak, m), NO_ATTESTATION);
            && InfoTie(info, m, s)
            && (info.attestedAdapters == 0 <==> Attesters(s.attested, m) == {})
            && info.numAttested == PopCount(info.attestedAdapters) <= |AdaptersOf(s.adapters, m.dstAddr)| <= 128
  {
    var info := Lookup(st.attestations, Key(keccak, m), NO_ATTESTATION);
    assert InfoTie(info, m, s);
    ListedBelow128(Evm(our), s, m.dstAddr);
    AttestersListed(Evm(our), s, m);
    HoldsNonempty(info.attestedAdapters, AdaptersOf(s.adapters, m.dstAddr), Attesters(s.attested, m));
    HoldsCount(info.attestedAdapters, AdaptersOf(s.adapters, m.dstAddr), Attesters(s.attested, m));
  }

  // ---------------------------------------------------------------- steps

  lemma AdminStep(our: Chain, keccak: seq<u8> -> Digest, st: Storage, s: State, act: Action,
                  configs: map<Address, IntegratorConfig>)
    requires Agrees(our, keccak, st, s) && ChangesAdmin(act) && !act.Register?
    requires AdminTie(configs, Next(Evm(our), s, act).admins)
    ensures Agrees(our, keccak, st.(configs := configs), Next(Evm(our), s, act))
  {
    hide Inv, AttestationTie, IndexTie, SendTie, BitmapTie, SequenceTie, AdminTie, CollisionFree, ListTie;
    NextInv(Evm(our), s, act);
    Frame(Evm(our), s, act);
    InfosKeep(Evm(our), s, act, st.attestations, keccak);
  }

  /** Writing one integrator's config. */
  lemma AdminWrite(our: Chain, keccak: seq<u8> -> Digest, st: Storage, s: State, act: Action, config: IntegratorConfig)
    requires Agrees(our, keccak, st, s) && ChangesAdmin(act) && !act.Register? && Enabled(Evm(our), s, act)
    requires config.isInitialized && act.integrator in st.configs
    requires AdminsAfter(act) == Admins(NonZero(config.admin), NonZero(config.pendingAdmin))
    ensures Agrees(our, keccak, st.(configs := st.configs[act.integrator := config]), Next(Evm(our), s, act))
  {
    hide Inv, AttestationTie, IndexTie, SendTie, BitmapTie, SequenceTie, CollisionFree, ListTie, Next;
    AdminEffect(Evm(our), s, act);
    AdminStep(our, keccak, st, s, act, st.configs[act.integrator := config]);
  }

  lemma RegisterTies(our: Chain, st: Storage, s: State, i: EvmAddress, admin: EvmCaller)
    requires Inv(Evm(our), s) && i !in s.admins
    requires AdminTie(st.configs, s.admins) && ListTie(st.registered, s.adapters) && SequenceTie(st.sequences, s.next)
    ensures var t := Next(Evm(our), s, Register(i, admin));
            && AdminTie(st.configs[i := IntegratorConfig(true, admin, ZERO)], t.admins)
            && ListTie(st.registered, t.adapters) && SequenceTie(st.sequences, t.next)
            && i !in s.adapters && t.adapters == s.adapters[i := []]
  {
    RegisteredKeys(Evm(our), s);
  }

  lemma RegisterStep(our: Chain, keccak: seq<u8> -> Digest, st: Storage, s: State, i: EvmAddress, admin: EvmCaller)
    requires Agrees(our, keccak, st, s) && i !in s.admins
    ensures Agrees(our, keccak, st.(configs := st.configs[i := IntegratorConfig(true, admin, ZERO)]),
                   Next(Evm(our), s, Register(i, admin)))
  {
    hide Inv, AttestationTie, IndexTie, SendTie, BitmapTie, CollisionFree, AdminTie, ListTie, SequenceTie, Effect,
         Enabled;
    var act := Register(i, admin);
    var t := Next(Evm(our), s, act);
    RegisterTies(our, st, s, i, admin);
    NextGrown(Evm(our), s, act);
    Frame(Evm(our), s, act);
    InfosKeep(Evm(our), s, act, st.attestations, keccak);
    SendTieGrow(st.sendAdapters, s, t.adapters);
    BitmapTieGrow(Evm(our), s, st.recvBitmaps, RecvSide, t.adapters);
    IndexTieRegister(st.infos, s.adapters, i);
  }

  lemma AddStep(our: Chain, keccak: seq<u8> -> Digest, st: Storage, s: State, act: Action)
    requires Agrees(our, keccak, st, s) && act.AddAdapter? && Enabled(Evm(our), s, act)
    requires |AdaptersOf(s.adapters, act.integrator)| < 128
    ensures var list := AdaptersOf(s.adapters, act.integrator);
            Agrees(our, keccak,
                   st.(infos := st.infos[(act.integrator, act.adapter) := |list|],
                       registered := st.registered[act.integrator := list + [act.adapter]]),
                   Next(Evm(our), s, act))
  {
    hide Inv, AttestationTie, IndexTie, SendTie, BitmapTie, AdminTie, SequenceTie, CollisionFree;
    var t := Next(Evm(our), s, act);
    NextGrown(Evm(our), s, act);
    Frame(Evm(our), s, act);
    InfosKeep(Evm(our), s, act, st.attestations, keccak);
    SendTieGrow(st.sendAdapters, s, t.adapters);
    BitmapTieGrow(Evm(our), s, st.recvBitmaps, RecvSide, t.adapters);
    IndexTieAdd(st.infos, s.adapters, act.integrator, act.adapter);
  }

  lemma RecvStep(our: Chain, keccak: seq<u8> -> Digest, st: Storage, s: State, act: Action, bitmap: u128)
    requires Agrees(our, keccak, st, s) && Enabled(Evm(our), s, act)
    requires (act.Enable? || act.Disable?) && act.side == RecvSide && (act.integrator, act.adapter) in st.infos
    requires var before := Lookup(st.recvBitmaps, (act.integrator, act.chain), 0);
             var index := st.infos[(act.integrator, act.adapter)];
             if act.Enable? then BitSetAt(before, bitmap, index) else BitClearedAt(before, bitmap, index)
    ensures Agrees(our, keccak, st.(recvBitmaps := st.recvBitmaps[(act.integrator, act.chain) := bitmap]),
                   Next(Evm(our), s, act))
  {
    hide Inv, AttestationTie, IndexTie, SendTie, SequenceTie, AdminTie, CollisionFree, ListTie, BitmapTie, Enabled,
         Effect;
    var i, c := act.integrator, act.chain;
    AdapterFacts(our, keccak, st, s, i, c, act.adapter);
    NextInv(Evm(our), s, act);
    Frame(Evm(our), s, act);
    InfosKeep(Evm(our), s, act, st.attestations, keccak);
    BitmapTieSet(Evm(our), s, act, st.recvBitmaps, bitmap, st.infos[(i, act.adapter)]);
    SetEffect(Evm(our), s, act);
    SendTieOtherSide(st.sendAdapters, s.adapters, s.enabled, Slot(RecvSide, i, c),
                     EnabledAt(Next(Evm(our), s, act).enabled, RecvSide, i, c));
  }

  lemma SendSetStep(our: Chain, keccak: seq<u8> -> Digest, st: Storage, s: State, act: Action,
                    entries: seq<SendAdapter>)
    requires Agrees(our, keccak, st, s) && Enabled(Evm(our), s, act)
    requires (act.Enable? || act.Disable?) && act.side == SendSide
    requires Enumerates(entries, AdaptersOf(s.adapters, act.integrator),
                        EnabledAt(Next(Evm(our), s, act).enabled, SendSide, act.integrator, act.chain))
    ensures Agrees(our, keccak, st.(sendAdapters := st.sendAdapters[(act.integrator, act.chain) := entries]),
                   Next(Evm(our), s, act))
  {
    hide Inv, AttestationTie, IndexTie, BitmapTie, SendTie, SequenceTie, AdminTie, CollisionFree, ListTie, Enumerates;
    var i, c := act.integrator, act.chain;
    var members := EnabledAt(Next(Evm(our), s, act).enabled, SendSide, i, c);
    NextInv(Evm(our), s, act);
    Frame(Evm(our), s, act);
    InfosKeep(Evm(our), s, act, st.attestations, keccak);
    SendTieUpdate(st.sendAdapters, s.adapters, s.enabled, i, c, entries, members);
    BitmapTieOtherSide(st.recvBitmaps, s.adapters, s.enabled, RecvSide, Slot(SendSide, i, c), members);
  }

  lemma RecordStep(our: Chain, keccak: seq<u8> -> Digest, st: Storage, s: State, act: Action, info: AttestationInfo)
    requires Agrees(our, keccak, st, s) && (act.Attest? || act.Recv? || act.Exec?)
    requires InfoTie(info, act.message, Next(Evm(our), s, act))
    ensures Agrees(our, keccak, st.(attestations := st.attestations[Key(keccak, act.message) := info]),
                   Next(Evm(our), s, act))
  {
    hide Inv, AttestationTie, IndexTie, BitmapTie, SendTie, SequenceTie, AdminTie, CollisionFree, ListTie, InfoTie;
    NextInv(Evm(our), s, act);
    Frame(Evm(our), s, act);
    InfosWrite(Evm(our), s, act, st.attestations, keccak, info);
  }

  lemma AttestStep(our: Chain, keccak: seq<u8> -> Digest, st: Storage, s: State, act: Action, bits: u128)
    requires Agrees(our, keccak, st, s) && act.Attest? && Enabled(Evm(our), s, act)
    requires (act.message.dstAddr, act.caller) in st.infos
    requires var info := Lookup(st.attestations, Key(keccak, act.message), NO_ATTESTATION);
             BitSetAt(info.attestedAdapters, bits, st.infos[(act.message.dstAddr, act.caller)])
    ensures var info := Lookup(st.attestations, Key(keccak, act.message), NO_ATTESTATION);
            && info.numAttested < 128
            && Agrees(our, keccak,
                      st.(attestations := st.attestations[
                            Key(keccak, act.message) := AttestationInfo(info.executed, info.numAttested + 1, bits)]),
                      Next(Evm(our), s, act))
  {
    hide AttestationTie, IndexTie, BitmapTie, SendTie, SequenceTie, AdminTie, CollisionFree, ListTie, Inv;
    var m := act.message;
    var info := Lookup(st.attestations, Key(keccak, m), NO_ATTESTATION);
    var t := Next(Evm(our), s, act);
    AdapterFacts(our, keccak, st, s, m.dstAddr, m.srcChain, act.caller);
    MessageFacts(our, keccak, st, s, m);
    RecordTieAttest(Evm(our), s, act, info.attestedAdapters, bits, info.executed, st.infos[(m.dstAddr, act.caller)]);
    NextInv(Evm(our), s, act);
    ListedBelow128(Evm(our), t, m.dstAddr);
    AttestersListed(Evm(our), t, m);
    HoldsCount(bits, AdaptersOf(t.adapters, m.dstAddr), Attesters(t.attested, m));
    RecordStep(our, keccak, st, s, act, AttestationInfo(info.executed, info.numAttested + 1, bits));
  }

  /** An attester's bit is set already exactly when setting it changes nothing. */
  lemma AttestedBit(our: Chain, keccak: seq<u8> -> Digest, st: Storage, s: State, m: Message, a: Address, updated: u128)
    requires Agrees(our, keccak, st, s) && (m.dstAddr, a) in st.infos
    requires BitSetAt(Lookup(st.attestations, Key(keccak, m), NO_ATTESTATION).attestedAdapters, updated,
                      st.infos[(m.dstAddr, a)])
    ensures updated == Lookup(st.attestations, Key(keccak, m), NO_ATTESTATION).attestedAdapters
            <==> a in Attesters(s.attested, m)
  {
    hide Agrees;
    var bits := Lookup(st.attestations, Key(keccak, m), NO_ATTESTATION).attestedAdapters;
    MessageFacts(our, keccak, st, s, m);
    AdapterFacts(our, keccak, st, s, m.dstAddr, 0, a);
    assert Bit(bits, st.infos[(m.dstAddr, a)]) <==> a in Attesters(s.attested, m);
    if a in Attesters(s.attested, m) {
      SameBits(bits, updated);
    }
  }

  /**
   * When the contract accepts a receive or an execution: some adapter is enabled, some adapter attested and
   * the message was not executed; an execution needs only the last.
   */
  lemma RecvGuard(our: Chain, keccak: seq<u8> -> Digest, st: Storage, s: State, m: Message)
    requires Agrees(our, keccak, st, s)
    ensures var info := Lookup(st.attestations, Key(keccak, m), NO_ATTESTATION);
            && (Enabled(Evm(our), s, Recv(m)) <==>
                Lookup(st.recvBitmaps, (m.dstAddr, m.srcChain), 0) != 0 && info.attestedAdapters != 0 && !info.executed)
            && (Enabled(Evm(our), s, Exec(m)) <==> !info.executed)
  {
    hide Agrees, Holds;
    RecvFacts(our, keccak, st, s, m.dstAddr, m.srcChain);
    MessageFacts(our, keccak, st, s, m);
  }

  /** When the contract accepts an attestation. */
  lemma AttestGuard(our: Chain, keccak: seq<u8> -> Digest, st: Storage, s: State, m: Message, a: Address)
    requires Agrees(our, keccak, st, s)
    ensures (m.dstAddr, a) in st.infos ==>
              st.infos[(m.dstAddr, a)] < 128 && m.dstAddr < 0x1_0000_0000_0000_0000_0000_0000_0000_0000_0000_0000
    ensures Enabled(Evm(our), s, Attest(a, m)) <==>
            && m.dstChain == our && (m.dstAddr, a) in st.infos && m.srcChain != 0
            && Bit(Lookup(st.recvBitmaps, (m.dstAddr, m.srcChain), 0), st.infos[(m.dstAddr, a)])
            && a !in Attesters(s.attested, m)
  {
    hide Agrees, Bit;
    AdapterFacts(our, keccak, st, s, m.dstAddr, m.srcChain, a);
    ListedIsEvm(our, keccak, st, s, m.dstAddr, a);
  }

  /** Only EVM addresses ever list adapters. */
  lemma ListedIsEvm(our: Chain, keccak: seq<u8> -> Digest, st: Storage, s: State, i: Address, a: Address)
    requires Agrees(our, keccak, st, s)
    ensures a in AdaptersOf(s.adapters, i) ==> i < 0x1_0000_0000_0000_0000_0000_0000_0000_0000_0000_0000
  {
  }

  lemma ExecuteStep(our: Chain, keccak: seq<u8> -> Digest, st: Storage, s: State, act: Action)
    requires Agrees(our, keccak, st, s) && (act.Recv? || act.Exec?) && Enabled(Evm(our), s, act)
    ensures var info := Lookup(st.attestations, Key(keccak, act.message), NO_ATTESTATION);
            Agrees(our, keccak,
                   st.(attestations := st.attestations[Key(keccak, act.message) := info.(executed := true)]),
                   Next(Evm(our), s, act))
  {
    hide Agrees, Enabled, Next;
    var info := Lookup(st.attestations, Key(keccak, act.message), NO_ATTESTATION);
    MessageFacts(our, keccak, st, s, act.message);
    RecordTieExecute(Evm(our), s, act, info.attestedAdapters, act.message);
    SameAttesters(Evm(our), s, act);
    RecordStep(our, keccak, st, s, act, info.(executed := true));
  }

  lemma SameAttesters(rules: Rules, s: State, act: Action)
    requires act.Recv? || act.Exec?
    ensures Next(rules, s, act).attested == s.attested
  {
  }

  lemma SendSequence(rules: Rules, s: State, act: Action)
    requires act.Send? && Enabled(rules, s, act)
    ensures Lookup(s.next, act.caller, 0) < MAX_U64
    ensures Next(rules, s, act).next == s.next[act.caller := Lookup(s.next, act.caller, 0) + 1]
    ensures rules.pushes ==> Next(rules, s, act).outbox == s.outbox
  {
  }

  lemma SequenceStep(our: Chain, keccak: seq<u8> -> Digest, st: Storage, s: State, act: Action)
    requires Agrees(our, keccak, st, s) && act.Send? && Enabled(Evm(our), s, act)
    ensures Lookup(st.sequences, act.caller, 0) < MAX_U64
    ensures Agrees(our, keccak,
                   st.(sequences := st.sequences[act.caller := Lookup(st.sequences, act.caller, 0) + 1]),
                   Next(Evm(our), s, act))
  {
    hide Inv, AttestationTie, IndexTie, SendTie, BitmapTie, AdminTie, SequenceTie, CollisionFree, ListTie, Enabled,
         Effect;
    AdminFacts(our, keccak, st, s, act.caller);
    SendSequence(Evm(our), s, act);
    SequenceTieUse(st.sequences, s.next, act.caller);
    NextInv(Evm(our), s, act);
    Frame(Evm(our), s, act);
    InfosKeep(Evm(our), s, act, st.attestations, keccak);
  }

  lemma RegisteredKeys(rules: Rules, s: State)
    requires Inv(rules, s)
    ensures s.admins.Keys == s.adapters.Keys == s.next.Keys
  {
  }

  // ---------------------------------------------------------------- the loops over the send array

  ghost predicate InEntries(entries: seq<SendAdapter>, n: nat) {
    forall p :: 0 <= p < |entries| ==> entries[p].index < n
  }

  /** A registry index is always within the sparse instruction array. */
  lemma EnumeratesInRange(entries: seq<SendAdapter>, adapters: seq<Address>, members: set<Address>)
    requires Enumerates(entries, adapters, members)
    ensures InEntries(entries, |adapters|)
  {
  }

  lemma ParsedLength(buffer: seq<u8>, beyond: nat -> u8, n: nat)
    ensures Parse(buffer, beyond, n).Some? ==> |Parse(buffer, beyond, n).value| == n
  {
  }

  /** The calls made so far: one per entry, in order, each as CallFor says, with the prices adding up. */
  ghost predicate Made(calls: seq<AdapterCall>, entries: seq<SendAdapter>, instructions: seq<Instruction>,
                       price: (Address, Chain, seq<u8>) -> u256,
                       sequence: u64, dstChain: Chain, dstAddr: Address, payloadHash: u256)
  {
    && InEntries(entries, |instructions|)
    && |calls| <= |entries|
    && (forall p :: 0 <= p < |calls| ==>
          calls[p] == CallFor(entries[p], instructions, price, sequence, dstChain, dstAddr, payloadHash))
    && TotalValue(calls) == Total(entries[..|calls|], instructions, dstChain, price)
  }

  lemma MadeNothing(entries: seq<SendAdapter>, instructions: seq<Instruction>,
                    price: (Address, Chain, seq<u8>) -> u256,
                    sequence: u64, dstChain: Chain, dstAddr: Address, payloadHash: u256)
    requires InEntries(entries, |instructions|)
    ensures Made([], entries, instructions, price, sequence, dstChain, dstAddr, payloadHash)
  {
  }

  lemma EntryInRange(entries: seq<SendAdapter>, instructions: seq<Instruction>, p: nat)
    requires InEntries(entries, |instructions|) && p < |entries|
    ensures entries[p].index < |instructions|
  {
  }

  lemma MadeOneMore(calls: seq<AdapterCall>, entries: seq<SendAdapter>, instructions: seq<Instruction>,
                    price: (Address, Chain, seq<u8>) -> u256,
                    sequence: u64, dstChain: Chain, dstAddr: Address, payloadHash: u256)
    requires Made(calls, entries, instructions, price, sequence, dstChain, dstAddr, payloadHash)
    requires |calls| < |entries|
    ensures var call := CallFor(entries[|calls|], instructions, price, sequence, dstChain, dstAddr, payloadHash);
            Made(calls + [call], entries, instructions, price, sequence, dstChain, dstAddr, payloadHash)
  {
    var n := |calls|;
    var call := CallFor(entries[n], instructions, price, sequence, dstChain, dstAddr, payloadHash);
    TotalPrefix(entries, instructions, dstChain, price, n);
    assert (calls + [call])[..n] == calls;
  }

  method SumPrices(entries: seq<SendAdapter>, instructions: seq<Instruction>, dstChain: Chain,
                   price: (Address, Chain, seq<u8>) -> u256)
    returns (r: Option<u256>)
    requires InEntries(entries, |instructions|)
    ensures r == if Total(entries, instructions, dstChain, price) <= MAX_U256
                 then Some(Total(entries, instructions, dstChain, price)) else None
  {
    var total: nat := 0;
    for p := 0 to |entries|
      invariant total == Total(entries[..p], instructions, dstChain, price) <= MAX_U256
    {
      TotalPrefix(entries, instructions, dstChain, price, p);
      TotalPrefix(entries, instructions, dstChain, price, p + 1);
      total := total + price(entries[p].addr, dstChain, instructions[entries[p].index].payload);
      if total > MAX_U256 {
        return None;
      }
    }
    assert entries[..|entries|] == entries;
    return Some(total);
  }

  // ---------------------------------------------------------------- whole runs

  /** Actions an EVM transaction can express: 20-byte addresses, a caller that is not zero, this chain. */
  predicate Expressible(our: Chain, act: Action) {
    match act
    case Register(c, a) => IsCaller(c) && IsEvm(a)
    case UpdateAdmin(c, i, a) => IsCaller(c) && IsEvm(i) && IsEvm(a)
    case TransferAdmin(c, i, a) => IsCaller(c) && IsEvm(i) && IsEvm(a)
    case ClaimAdmin(c, i) => IsCaller(c) && IsEvm(i)
    case DiscardAdmin(c, i) => IsCaller(c) && IsEvm(i)
    case AddAdapter(c, i, a) => IsCaller(c) && IsEvm(i) && IsEvm(a)
    case Enable(c, _, i, _, a) => IsCaller(c) && IsEvm(i) && IsEvm(a)
    case Disable(c, _, i, _, a) => IsCaller(c) && IsEvm(i) && IsEvm(a)
    case Attest(c, _) => IsCaller(c)
    case Recv(m) => m.dstChain == our && IsCaller(m.dstAddr)
    case Exec(m) => m.dstChain == our && IsCaller(m.dstAddr)
    case Send(c, _, _, _, _) => IsCaller(c)
    case PickUp(_, _, _) => false
  }

  predicate IsEvm(a: Address) {
    a < 0x1_0000_0000_0000_0000_0000_0000_0000_0000_0000_0000
  }

  predicate IsCaller(a: Address) {
    a != ZERO && IsEvm(a)
  }

  /** The same for a call and all calls nested in it. */
  predicate ExpressibleTx(our: Chain, tx: Tx)
    decreases tx, 0
  {
    Expressible(our, tx.act) && ExpressibleCallbacks(our, tx.callbacks)
  }

  predicate ExpressibleCallbacks(our: Chain, callbacks: seq<Callback>)
    decreases callbacks, 0
  {
    forall p :: 0 <= p < |callbacks| ==> ExpressibleTxs(our, callbacks[p].calls)
  }

  predicate ExpressibleTxs(our: Chain, txs: seq<Tx>)
    decreases txs, 1
  {
    forall k :: 0 <= k < |txs| ==> ExpressibleTx(our, txs[k])
  }
}
