/** endpoint.move and integrator.move: the tables of the endpoint account and of each integrator. */
module AptosEndpoint {
  import opened Numbers
  import opened Bits
  import opened Bitmaps
  import opened Messages
  import opened Protocol
  import opened Agreement
  import opened History

  datatype AttestationInfo = AttestationInfo(executed: bool, attestedAdapters: u128)

  const NO_ATTESTATION := AttestationInfo(false, 0)
  const NO_MESSAGE := Message(0, 0, 0, 0, 0, 0)
  const NO_OUTBOX_MESSAGE := OutboxMessage(0, 0, 0, 0, 0, 0)

  function View(info: AttestationInfo): (bool, u128) {
    (info.executed, info.attestedAdapters)
  }

  datatype Storage = Storage(
    adminConfigs: map<Address, Admins>,
    capabilities: map<Address, u64>,                  // IntegratorCapability.sequence
    adapters: map<Address, seq<Address>>,
    indices: map<(Address, Address), u8>,
    sendBitmaps: map<(Address, Chain), u128>,
    recvBitmaps: map<(Address, Chain), u128>,
    outbox: map<OutboxKey, OutboxMessage>,
    attestations: map<Digest, AttestationInfo>)

  // ---------------------------------------------------------------- agreement with the protocol

  ghost predicate OutboxAt(outbox: map<OutboxKey, OutboxMessage>, s: State, k: OutboxKey) {
    && (k in outbox <==> k in s.outbox)
    && (k in outbox ==>
          KeyOf(outbox[k]) == k && ParcelTie(outbox[k], s.outbox[k], AdaptersOf(s.adapters, k.integrator)))
  }

  ghost predicate OutboxTie(outbox: map<OutboxKey, OutboxMessage>, s: State) {
    forall k: OutboxKey :: OutboxAt(outbox, s, k)
  }

  ghost predicate RegistryTie(st: Storage, s: State) {
    && st.adminConfigs == s.admins
    && st.adapters == s.adapters
    && st.capabilities.Keys == s.next.Keys && SequenceTie(st.capabilities, s.next)
    && IndexTie(st.indices, s.adapters)
  }

  ghost predicate Agrees(keccak: seq<u8> -> Digest, st: Storage, s: State) {
    && CollisionFree(keccak)
    && Inv(APTOS, s)
    && RegistryTie(st, s)
    && BitmapTie(st.sendBitmaps, s.adapters, s.enabled, SendSide)
    && BitmapTie(st.recvBitmaps, s.adapters, s.enabled, RecvSide)
    && OutboxTie(st.outbox, s)
    && Stored(st.attestations, View, keccak, s)
  }

  function BitmapsOf(st: Storage, side: Side): map<(Address, Chain), u128> {
    if side == SendSide then st.sendBitmaps else st.recvBitmaps
  }

  function WithBitmaps(st: Storage, side: Side, bitmaps: map<(Address, Chain), u128>): Storage {
    if side == SendSide then st.(sendBitmaps := bitmaps) else st.(recvBitmaps := bitmaps)
  }

  /** What the tables say of an integrator, in the protocol's terms. */
  lemma IntegratorFacts(keccak: seq<u8> -> Digest, st: Storage, s: State, i: Address)
    requires Agrees(keccak, st, s)
    ensures st.adminConfigs == s.admins && st.adapters == s.adapters
    ensures i in st.adapters <==> i in s.admins
    ensures i in st.capabilities <==> i in s.admins
    ensures |AdaptersOf(s.adapters, i)| <= MAX_ADAPTERS && Distinct(AdaptersOf(s.adapters, i))
    ensures Lookup(st.capabilities, i, 0) == Lookup(s.next, i, 0)
  {
  }

  /** What the tables say of an adapter, in the protocol's terms. */
  lemma AdapterFacts(keccak: seq<u8> -> Digest, st: Storage, s: State, side: Side, i: Address, c: Chain, a: Address)
    requires Agrees(keccak, st, s)
    ensures IndexAt(st.indices, AdaptersOf(s.adapters, i), i, a)
    ensures (i, a) in st.indices ==> i in s.admins && st.indices[(i, a)] < 128
    ensures (i, a) in st.indices ==>
              (Bit(Lookup(BitmapsOf(st, side), (i, c), 0), st.indices[(i, a)])
               <==> a in EnabledAt(s.enabled, side, i, c))
    ensures a in EnabledAt(s.enabled, side, i, c) ==> (i, a) in st.indices
  {
  }

  lemma ChainFacts(keccak: seq<u8> -> Digest, st: Storage, s: State, side: Side, i: Address, c: Chain)
    requires Agrees(keccak, st, s)
    ensures var bitmap, members := Lookup(BitmapsOf(st, side), (i, c), 0), EnabledAt(s.enabled, side, i, c);
            && Holds(bitmap, AdaptersOf(s.adapters, i), members)
            && (bitmap == 0 <==> members == {})
            && (members != {} ==> i in s.admins)
  {
    var bitmap, members := Lookup(BitmapsOf(st, side), (i, c), 0), EnabledAt(s.enabled, side, i, c);
    EnabledListed(APTOS, s, side, i, c);
    assert BitmapTie(BitmapsOf(st, side), s.adapters, s.enabled, side);
    assert Holds(bitmap, AdaptersOf(s.adapters, i), members);
    HoldsNonempty(bitmap, AdaptersOf(s.adapters, i), members);
    if members != {} {
      SenderRegistered(APTOS, s, side, i, c);
    }
  }

  // ---------------------------------------------------------------- steps

  /** An outbox the action does not touch stays right. */
  lemma OutboxKeep(s: State, act: Action, outbox: map<OutboxKey, OutboxMessage>)
    requires Inv(APTOS, s) && OutboxTie(outbox, s) && !act.Send? && !act.PickUp?
    ensures OutboxTie(outbox, Next(APTOS, s, act))
  {
    hide Inv, ParcelTie, Enabled, Effect;
    NextGrown(APTOS, s, act);
    Frame(APTOS, s, act);
    forall k: OutboxKey
      ensures OutboxAt(outbox, Next(APTOS, s, act), k)
    {
      assert OutboxAt(outbox, s, k);
      if k in outbox {
        ParcelTieGrow(s, APTOS, Next(APTOS, s, act).adapters, outbox[k], k);
      }
    }
  }

  lemma AdminStep(keccak: seq<u8> -> Digest, st: Storage, s: State, act: Action)
    requires Agrees(keccak, st, s) && ChangesAdmin(act) && !act.Register? && Enabled(APTOS, s, act)
    ensures Agrees(keccak, st.(adminConfigs := st.adminConfigs[act.integrator := AdminsAfter(act)]),
                   Next(APTOS, s, act))
  {
    hide Inv, IndexTie, BitmapTie, SequenceTie, CollisionFree, OutboxTie, Stored, Enabled, Effect;
    NextInv(APTOS, s, act);
    Frame(APTOS, s, act);
    AdminEffect(APTOS, s, act);
    OutboxKeep(s, act, st.outbox);
    StoredKeep(APTOS, s, act, st.attestations, View, keccak);
  }

  lemma RegisterStep(keccak: seq<u8> -> Digest, st: Storage, s: State, i: Address, admin: Address)
    requires Agrees(keccak, st, s) && Enabled(APTOS, s, Register(i, admin))
    ensures Agrees(keccak, st.(adminConfigs := st.adminConfigs[i := Admins(Some(admin), None)],
                               capabilities := st.capabilities[i := 0], adapters := st.adapters[i := []]),
                   Next(APTOS, s, Register(i, admin)))
  {
    hide Inv, IndexTie, BitmapTie, SequenceTie, CollisionFree, OutboxTie, Stored;
    var act := Register(i, admin);
    var t := Next(APTOS, s, act);
    IntegratorFacts(keccak, st, s, i);
    NextGrown(APTOS, s, act);
    Frame(APTOS, s, act);
    BitmapTieGrow(APTOS, s, st.sendBitmaps, SendSide, t.adapters);
    BitmapTieGrow(APTOS, s, st.recvBitmaps, RecvSide, t.adapters);
    IndexTieRegister(st.indices, s.adapters, i);
    SequenceTieRegister(st.capabilities, s.next, i);
    OutboxKeep(s, act, st.outbox);
    StoredKeep(APTOS, s, act, st.attestations, View, keccak);
  }

  lemma AddStep(keccak: seq<u8> -> Digest, st: Storage, s: State, act: Action)
    requires Agrees(keccak, st, s) && act.AddAdapter? && Enabled(APTOS, s, act)
    requires |AdaptersOf(s.adapters, act.integrator)| < 128
    ensures var list := AdaptersOf(s.adapters, act.integrator);
            Agrees(keccak,
                   st.(adapters := st.adapters[act.integrator := list + [act.adapter]],
                       indices := st.indices[(act.integrator, act.adapter) := |list|]),
                   Next(APTOS, s, act))
  {
    hide Inv, IndexTie, BitmapTie, CollisionFree, OutboxTie, Stored, SequenceTie;
    var t := Next(APTOS, s, act);
    NextGrown(APTOS, s, act);
    Frame(APTOS, s, act);
    BitmapTieGrow(APTOS, s, st.sendBitmaps, SendSide, t.adapters);
    BitmapTieGrow(APTOS, s, st.recvBitmaps, RecvSide, t.adapters);
    IndexTieAdd(st.indices, s.adapters, act.integrator, act.adapter);
    OutboxKeep(s, act, st.outbox);
    StoredKeep(APTOS, s, act, st.attestations, View, keccak);
  }

  lemma SetStep(keccak: seq<u8> -> Digest, st: Storage, s: State, act: Action, bitmap: u128)
    requires Agrees(keccak, st, s) && (act.Enable? || act.Disable?) && Enabled(APTOS, s, act)
    requires (act.integrator, act.adapter) in st.indices
    requires var before := Lookup(BitmapsOf(st, act.side), (act.integrator, act.chain), 0);
             var index := st.indices[(act.integrator, act.adapter)];
             if act.Enable? then BitSetAt(before, bitmap, index) else BitClearedAt(before, bitmap, index)
    ensures Agrees(keccak, WithBitmaps(st, act.side, BitmapsOf(st, act.side)[(act.integrator, act.chain) := bitmap]),
                   Next(APTOS, s, act))
  {
    hide Inv, IndexTie, BitmapTie, SequenceTie, CollisionFree, OutboxTie, Stored, Enabled, Effect, BitSetAt,
         BitClearedAt;
    AdapterFacts(keccak, st, s, act.side, act.integrator, act.chain, act.adapter);
    NextInv(APTOS, s, act);
    Frame(APTOS, s, act);
    OutboxKeep(s, act, st.outbox);
    StoredKeep(APTOS, s, act, st.attestations, View, keccak);
    var other := if act.side == SendSide then RecvSide else SendSide;
    BitmapTieSet(APTOS, s, act, BitmapsOf(st, act.side), bitmap, st.indices[(act.integrator, act.adapter)]);
    BitmapTieUnset(APTOS, s, act, BitmapsOf(st, other), other);
  }

  lemma SendStep(keccak: seq<u8> -> Digest, st: Storage, s: State, act: Action, o: OutboxMessage)
    requires Agrees(keccak, st, s) && act.Send? && Enabled(APTOS, s, act)
    requires o == OutboxMessage(act.caller, Lookup(st.capabilities, act.caller, 0), act.dstChain, act.dstAddr,
                                act.payloadHash, Lookup(st.sendBitmaps, (act.caller, act.dstChain), 0))
    ensures KeyOf(o) !in st.outbox && o.sequence < MAX_U64
    ensures Agrees(keccak, st.(capabilities := st.capabilities[act.caller := o.sequence + 1],
                               outbox := st.outbox[KeyOf(o) := o]),
                   Next(APTOS, s, act))
  {
    hide Inv, IndexTie, BitmapTie, SequenceTie, CollisionFree, Stored, Effect, Holds;
    var t := Next(APTOS, s, act);
    IntegratorFacts(keccak, st, s, act.caller);
    ChainFacts(keccak, st, s, SendSide, act.caller, act.dstChain);
    SequenceTieUse(st.capabilities, s.next, act.caller);
    NextInv(APTOS, s, act);
    Frame(APTOS, s, act);
    SendEffect(APTOS, s, act);
    StoredKeep(APTOS, s, act, st.attestations, View, keccak);
    assert OutboxAt(st.outbox, s, KeyOf(o));
    var outbox := st.outbox[KeyOf(o) := o];
    forall k: OutboxKey
      ensures OutboxAt(outbox, t, k)
    {
      assert OutboxAt(st.outbox, s, k);
    }
  }

  /** The parcel of the key as it was sent, with the outstanding adapters but the one that picks it up. */
  ghost predicate PickedUp(o: OutboxMessage, s: State, k: OutboxKey, a: Address) {
    && k in s.outbox && o.srcAddr == k.integrator && o.sequence == k.sequence
    && o.dstChain == s.outbox[k].dstChain && o.dstAddr == s.outbox[k].dstAddr
    && o.payloadHash == s.outbox[k].payloadHash
    && Holds(o.outstanding, AdaptersOf(s.adapters, k.integrator), s.outbox[k].outstanding - {a})
  }

  lemma PickUpStep(keccak: seq<u8> -> Digest, st: Storage, s: State, act: Action, bits: u128)
    requires Agrees(keccak, st, s) && act.PickUp? && Enabled(APTOS, s, act)
    requires var k := OutboxKey(act.integrator, act.sequence);
             && k in st.outbox && (act.integrator, act.caller) in st.indices
             && BitClearedAt(st.outbox[k].outstanding, bits, st.indices[(act.integrator, act.caller)])
    ensures var k := OutboxKey(act.integrator, act.sequence);
            Agrees(keccak,
                   st.(outbox := if bits == 0 then st.outbox - {k}
                                 else st.outbox[k := st.outbox[k].(outstanding := bits)]),
                   Next(APTOS, s, act))
            && PickedUp(st.outbox[k].(outstanding := bits), s, k, act.caller)
  {
    hide Inv, IndexTie, BitmapTie, SequenceTie, CollisionFree, Stored, Enabled, Effect, Holds, BitClearedAt;
    var k, t := OutboxKey(act.integrator, act.sequence), Next(APTOS, s, act);
    AdapterFacts(keccak, st, s, SendSide, act.integrator, 0, act.caller);
    NextInv(APTOS, s, act);
    Frame(APTOS, s, act);
    PickUpEffect(APTOS, s, act);
    StoredKeep(APTOS, s, act, st.attestations, View, keccak);
    assert OutboxAt(st.outbox, s, k);
    PickUpBit(APTOS, s, act, st.outbox[k], bits, st.indices[(act.integrator, act.caller)]);
    var outbox := if bits == 0 then st.outbox - {k} else st.outbox[k := st.outbox[k].(outstanding := bits)];
    forall j: OutboxKey
      ensures OutboxAt(outbox, t, j)
    {
      assert OutboxAt(st.outbox, s, j);
    }
  }

  lemma RecordStep(keccak: seq<u8> -> Digest, st: Storage, s: State, act: Action, info: AttestationInfo)
    requires Agrees(keccak, st, s) && (act.Attest? || act.Recv? || act.Exec?) && Enabled(APTOS, s, act)
    requires RecordTie(info.attestedAdapters, info.executed, act.message, Next(APTOS, s, act))
    ensures Agrees(keccak, st.(attestations := st.attestations[keccak(Encode(act.message)) := info]),
                   Next(APTOS, s, act))
  {
    hide Inv, IndexTie, BitmapTie, SequenceTie, CollisionFree, OutboxTie, Stored, Enabled, Effect, RecordTie;
    NextInv(APTOS, s, act);
    Frame(APTOS, s, act);
    OutboxKeep(s, act, st.outbox);
    StoredWrite(APTOS, s, act, st.attestations, View, keccak, info);
  }

  /** What the store says of a message, in the protocol's terms; a missing record reads as zeros. */
  lemma MessageFacts(keccak: seq<u8> -> Digest, st: Storage, s: State, m: Message)
    requires Agrees(keccak, st, s)
    ensures var d := keccak(Encode(m));
            var info := Lookup(st.attestations, d, NO_ATTESTATION);
            && RecordTie(info.attestedAdapters, info.executed, m, s)
            && (d in st.attestations <==> Attesters(s.attested, m) != {} || m in s.executed)
  {
    StoredFacts(APTOS, s, st.attestations, View, keccak, m);
  }

  lemma AttestStep(keccak: seq<u8> -> Digest, st: Storage, s: State, act: Action, bits: u128)
    requires Agrees(keccak, st, s) && act.Attest? && Enabled(APTOS, s, act)
    requires (act.message.dstAddr, act.caller) in st.indices
    requires var info := Lookup(st.attestations, keccak(Encode(act.message)), NO_ATTESTATION);
             BitSetAt(info.attestedAdapters, bits, st.indices[(act.message.dstAddr, act.caller)])
    ensures var info := Lookup(st.attestations, keccak(Encode(act.message)), NO_ATTESTATION);
            Agrees(keccak, st.(attestations := st.attestations[
                                 keccak(Encode(act.message)) := info.(attestedAdapters := bits)]),
                   Next(APTOS, s, act))
  {
    hide IndexTie, BitmapTie, SequenceTie, CollisionFree, OutboxTie, Stored, Inv, Enabled, Effect, BitSetAt, RecordTie;
    var m := act.message;
    var info := Lookup(st.attestations, keccak(Encode(m)), NO_ATTESTATION);
    AdapterFacts(keccak, st, s, RecvSide, m.dstAddr, m.srcChain, act.caller);
    MessageFacts(keccak, st, s, m);
    RecordTieAttest(APTOS, s, act, info.attestedAdapters, bits, info.executed, st.indices[(m.dstAddr, act.caller)]);
    RecordStep(keccak, st, s, act, info.(attestedAdapters := bits));
  }

  lemma ExecuteStep(keccak: seq<u8> -> Digest, st: Storage, s: State, act: Action)
    requires Agrees(keccak, st, s) && (act.Recv? || act.Exec?) && Enabled(APTOS, s, act)
    ensures var info := Lookup(st.attestations, keccak(Encode(act.message)), NO_ATTESTATION);
            Agrees(keccak, st.(attestations := st.attestations[keccak(Encode(act.message)) := info.(executed := true)]),
                   Next(APTOS, s, act))
  {
    hide Agrees, Enabled, Next, Holds;
    var info := Lookup(st.attestations, keccak(Encode(act.message)), NO_ATTESTATION);
    MessageFacts(keccak, st, s, act.message);
    RecordTieExecute(APTOS, s, act, info.attestedAdapters, act.message);
    RecordStep(keccak, st, s, act, info.(executed := true));
  }

  // ---------------------------------------------------------------- the modules

  class Endpoint {
    const keccak: seq<u8> -> Digest

    var adminConfigs: map<Address, Admins>
    var capabilities: map<Address, u64>
    var adapters: map<Address, seq<Address>>
    var indices: map<(Address, Address), u8>
    var sendBitmaps: map<(Address, Chain), u128>
    var recvBitmaps: map<(Address, Chain), u128>
    var outbox: map<OutboxKey, OutboxMessage>
    var attestations: map<Digest, AttestationInfo>

    ghost var model: State

    ghost function Store(): Storage
      reads this
    {
      Storage(adminConfigs, capabilities, adapters, indices, sendBitmaps, recvBitmaps, outbox, attestations)
    }

    ghost predicate Valid()
      reads this
    {
      Agrees(keccak, Store(), model)
    }

    constructor (keccak: seq<u8> -> Digest)
      requires CollisionFree(keccak)
      ensures Valid() && model == INITIAL && this.keccak == keccak
    {
      this.keccak := keccak;
      adminConfigs, capabilities, adapters, indices := map[], map[], map[], map[];
      sendBitmaps, recvBitmaps, outbox, attestations := map[], map[], map[], map[];
      model := INITIAL;
      new;
      InitialInv(APTOS);
      HoldsEmpty<Address>([]);
    }

    // ---------------------------------------------------------------- admin functions

    method Register(caller: Address, admin: Address) returns (ok: bool)
      requires Valid()
      modifies `adminConfigs, `capabilities, `adapters, `model
      ensures Valid()
      ensures Stepped(APTOS, old(model), Protocol.Register(caller, admin), ok, model)
      ensures adminConfigs == if ok then old(adminConfigs)[caller := Admins(Some(admin), None)] else old(adminConfigs)
    {
      hide Agrees, Effect;
      IntegratorFacts(keccak, Store(), model, caller);
      if caller in capabilities || admin == ZERO {
        return false;
      }
      RegisterStep(keccak, Store(), model, caller, admin);
      capabilities := capabilities[caller := 0];
      adminConfigs := adminConfigs[caller := Admins(Some(admin), None)];
      adapters := adapters[caller := []];
      model := Next(APTOS, model, Protocol.Register(caller, admin));
      return true;
    }

    /** The two assertions before every change by an admin. */
    predicate Authorized(i: Address, caller: Address)
      reads this
    {
      i in adminConfigs && adminConfigs[i].admin == Some(caller) && adminConfigs[i].pending.None?
    }

    method UpdateAdmin(caller: Address, integrator: Address, newAdmin: Address) returns (ok: bool)
      requires Valid()
      modifies `adminConfigs, `model
      ensures Valid()
      ensures Stepped(APTOS, old(model), Protocol.UpdateAdmin(caller, integrator, newAdmin), ok, model)
      ensures !ok ==> adminConfigs == old(adminConfigs)
      ensures ok ==> adminConfigs == old(adminConfigs)[integrator := Admins(Some(newAdmin), None)]
    {
      hide Agrees, Effect;
      IntegratorFacts(keccak, Store(), model, integrator);
      if !Authorized(integrator, caller) || newAdmin == ZERO {
        return false;
      }
      ghost var act := Protocol.UpdateAdmin(caller, integrator, newAdmin);
      AdminStep(keccak, Store(), model, act);
      adminConfigs := adminConfigs[integrator := adminConfigs[integrator].(admin := Some(newAdmin))];
      model := Next(APTOS, model, act);
      return true;
    }

    method TransferAdmin(caller: Address, integrator: Address, newAdmin: Address) returns (ok: bool)
      requires Valid()
      modifies `adminConfigs, `model
      ensures Valid()
      ensures Stepped(APTOS, old(model), Protocol.TransferAdmin(caller, integrator, newAdmin), ok, model)
      ensures !ok ==> adminConfigs == old(adminConfigs)
      ensures ok ==> adminConfigs == old(adminConfigs)[integrator := Admins(Some(caller), Some(newAdmin))]
    {
      hide Agrees, Effect;
      IntegratorFacts(keccak, Store(), model, integrator);
      if !Authorized(integrator, caller) || newAdmin == ZERO {
        return false;
      }
      ghost var act := Protocol.TransferAdmin(caller, integrator, newAdmin);
      AdminStep(keccak, Store(), model, act);
      adminConfigs := adminConfigs[integrator := adminConfigs[integrator].(pending := Some(newAdmin))];
      model := Next(APTOS, model, act);
      return true;
    }

    method ClaimAdmin(caller: Address, integrator: Address) returns (ok: bool)
      requires Valid()
      modifies `adminConfigs, `model
      ensures Valid()
      ensures Stepped(APTOS, old(model), Protocol.ClaimAdmin(caller, integrator), ok, model)
      ensures !ok ==> adminConfigs == old(adminConfigs)
      ensures ok ==> adminConfigs == old(adminConfigs)[integrator := Admins(Some(caller), None)]
    {
      hide Agrees, Effect;
      IntegratorFacts(keccak, Store(), model, integrator);
      if integrator !in adminConfigs || adminConfigs[integrator].pending.None? {
        return false;
      }
      var config := adminConfigs[integrator];
      if config.admin != Some(caller) && config.pending != Some(caller) {
        return false;
      }
      ghost var act := Protocol.ClaimAdmin(caller, integrator);
      AdminStep(keccak, Store(), model, act);
      adminConfigs := adminConfigs[integrator := Admins(Some(caller), None)];
      model := Next(APTOS, model, act);
      return true;
    }

    method DiscardAdmin(caller: Address, integrator: Address) returns (ok: bool)
      requires Valid()
      modifies `adminConfigs, `model
      ensures Valid()
      ensures Stepped(APTOS, old(model), Protocol.DiscardAdmin(caller, integrator), ok, model)
      ensures !ok ==> adminConfigs == old(adminConfigs)
      ensures ok ==> adminConfigs == old(adminConfigs)[integrator := Admins(None, None)]
    {
      hide Agrees, Effect;
      IntegratorFacts(keccak, Store(), model, integrator);
      if !Authorized(integrator, caller) {
        return false;
      }
      ghost var act := Protocol.DiscardAdmin(caller, integrator);
      AdminStep(keccak, Store(), model, act);
      adminConfigs := adminConfigs[integrator := adminConfigs[integrator].(admin := None)];
      model := Next(APTOS, model, act);
      return true;
    }

    // ---------------------------------------------------------------- adapter functions

    method AddAdapter(caller: Address, integrator: Address, adapter: Address) returns (ok: bool)
      requires Valid()
      modifies `adapters, `indices, `model
      ensures Valid()
      ensures Stepped(APTOS, old(model), Protocol.AddAdapter(caller, integrator, adapter), ok, model)
    {
      hide Agrees, Effect;
      IntegratorFacts(keccak, Store(), model, integrator);
      AdapterFacts(keccak, Store(), model, SendSide, integrator, 0, adapter);
      if !Authorized(integrator, caller) {
        return false;
      }
      var list := adapters[integrator];
      if adapter in list || |list| >= MAX_ADAPTERS {
        return false;
      }
      ghost var act := Protocol.AddAdapter(caller, integrator, adapter);
      AddStep(keccak, Store(), model, act);
      adapters := adapters[integrator := list + [adapter]];
      assert (integrator, adapter) !in indices;         // table::add never meets an existing key
      indices := indices[(integrator, adapter) := |list|];
      model := Next(APTOS, model, act);
      return true;
    }

    /** enable_send_adapter and enable_recv_adapter differ only in the table they change. */
    method EnableAdapter(caller: Address, side: Side, integrator: Address, chain: Chain, adapter: Address)
      returns (ok: bool)
      requires Valid()
      modifies `sendBitmaps, `recvBitmaps, `model
      ensures Valid()
      ensures Stepped(APTOS, old(model), Enable(caller, side, integrator, chain, adapter), ok, model)
    {
      hide Agrees, Effect, BitSetAt;
      IntegratorFacts(keccak, Store(), model, integrator);
      AdapterFacts(keccak, Store(), model, side, integrator, chain, adapter);
      if !Authorized(integrator, caller) || (integrator, adapter) !in indices {
        return false;
      }
      var table := if side == SendSide then sendBitmaps else recvBitmaps;
      var bitmap := MoveEnable(Lookup(table, (integrator, chain), 0), indices[(integrator, adapter)]);
      if bitmap.None? {
        return false;
      }
      ghost var act := Enable(caller, side, integrator, chain, adapter);
      SetStep(keccak, Store(), model, act, bitmap.value);
      if side == SendSide {
        sendBitmaps := sendBitmaps[(integrator, chain) := bitmap.value];
      } else {
        recvBitmaps := recvBitmaps[(integrator, chain) := bitmap.value];
      }
      model := Next(APTOS, model, act);
      return true;
    }

    /** disable_send_adapter and disable_recv_adapter. */
    method DisableAdapter(caller: Address, side: Side, integrator: Address, chain: Chain, adapter: Address)
      returns (ok: bool)
      requires Valid()
      modifies `sendBitmaps, `recvBitmaps, `model
      ensures Valid()
      ensures Stepped(APTOS, old(model), Disable(caller, side, integrator, chain, adapter), ok, model)
    {
      hide Agrees, Effect, BitClearedAt;
      IntegratorFacts(keccak, Store(), model, integrator);
      AdapterFacts(keccak, Store(), model, side, integrator, chain, adapter);
      if !Authorized(integrator, caller) || (integrator, adapter) !in indices {
        return false;
      }
      var table := if side == SendSide then sendBitmaps else recvBitmaps;
      var bitmap := MoveDisable(Lookup(table, (integrator, chain), 0), indices[(integrator, adapter)]);
      if bitmap.None? {
        return false;
      }
      ghost var act := Disable(caller, side, integrator, chain, adapter);
      SetStep(keccak, Store(), model, act, bitmap.value);
      if side == SendSide {
        sendBitmaps := sendBitmaps[(integrator, chain) := bitmap.value];
      } else {
        recvBitmaps := recvBitmaps[(integrator, chain) := bitmap.value];
      }
      model := Next(APTOS, model, act);
      return true;
    }

    // ---------------------------------------------------------------- sending

    method SendMessage(caller: Address, dstChain: Chain, dstAddr: Address, payloadHash: seq<u8>)
      returns (ok: bool, sequence: u64)
      requires Valid()
      modifies `capabilities, `outbox, `model
      ensures Valid()
      ensures |payloadHash| != 32 ==> !ok && model == old(model)
      ensures |payloadHash| == 32 ==>
                Stepped(APTOS, old(model), Send(caller, dstChain, dstAddr, Address32(payloadHash), []), ok, model)
      ensures ok ==> sequence == Lookup(old(model).next, caller, 0)
    {
      hide Agrees, Effect, Enabled;
      if |payloadHash| != 32 {
        return false, 0;
      }
      ghost var act := Send(caller, dstChain, dstAddr, Address32(payloadHash), []);
      SendGuard(keccak, Store(), model, act);
      var outstanding := Lookup(sendBitmaps, (caller, dstChain), 0);
      if caller !in capabilities || outstanding == 0 || capabilities[caller] == MAX_U64 {
        return false, 0;
      }
      sequence := capabilities[caller];
      var o := OutboxMessage(caller, sequence, dstChain, dstAddr, Address32(payloadHash), outstanding);
      SendStep(keccak, Store(), model, act, o);
      capabilities := capabilities[caller := sequence + 1];
      assert OutboxKey(caller, sequence) !in outbox;    // table::add never meets an existing key
      outbox := outbox[OutboxKey(caller, sequence) := o];
      model := Next(APTOS, model, act);
      return true, sequence;
    }

    /** Returns the message with the adapters that remain. */
    method PickUpMessage(caller: Address, integrator: Address, sequence: u64)
      returns (ok: bool, message: OutboxMessage)
      requires Valid()
      modifies `outbox, `model
      ensures Valid()
      ensures Stepped(APTOS, old(model), PickUp(caller, integrator, sequence), ok, model)
      ensures ok ==> PickedUp(message, old(model), OutboxKey(integrator, sequence), caller)
    {
      hide Agrees, Effect, Enabled, BitClearedAt, MoveDisable, Bit, PickedUp;
      var key := OutboxKey(integrator, sequence);
      message := NO_OUTBOX_MESSAGE;
      PickUpGuard(keccak, Store(), model, caller, key);
      if key !in outbox || (integrator, caller) !in indices {
        return false, message;
      }
      var outstanding := MoveDisable(outbox[key].outstanding, indices[(integrator, caller)]);
      if outstanding.None? {
        return false, message;
      }
      PickUpStep(keccak, Store(), model, PickUp(caller, integrator, sequence), outstanding.value);
      message := outbox[key].(outstanding := outstanding.value);
      if outstanding.value == 0 {
        outbox := outbox - {key};
      } else {
        outbox := outbox[key := message];
      }
      model := Next(APTOS, model, PickUp(caller, integrator, sequence));
      return true, message;
    }

    // ---------------------------------------------------------------- receiving

    method AttestMessage(caller: Address, srcChain: Chain, srcAddr: seq<u8>, sequence: u64,
                         dstChain: Chain, dstAddr: seq<u8>, payloadHash: seq<u8>)
      returns (ok: bool)
      requires Valid()
      modifies `attestations, `model
      ensures Valid()
      ensures |srcAddr| != 32 || |dstAddr| != 32 || |payloadHash| != 32 ==> !ok && model == old(model)
      ensures |srcAddr| == |dstAddr| == |payloadHash| == 32 ==>
                Stepped(APTOS, old(model),
                        Attest(caller, Message(srcChain, Address32(srcAddr), sequence, dstChain, Address32(dstAddr),
                                               Address32(payloadHash))), ok, model)
    {
      hide Agrees, Enabled, Effect, BitSetAt, Bit, Encode, FromBigEndian, Address32, MoveGet, MoveEnable, ZerosBefore;
      var padded := PadLeft32(dstAddr);
      if padded.None? {
        return false;
      }
      var integrator := Address32(padded.value);
      ghost var m := NO_MESSAGE;
      if |srcAddr| == |dstAddr| == |payloadHash| == 32 {
        m := Message(srcChain, Address32(srcAddr), sequence, dstChain, integrator, Address32(payloadHash));
        AttestGuard(keccak, Store(), model, m, caller);
      }
      if (integrator, caller) !in indices {
        return false;
      }
      var index := indices[(integrator, caller)];
      var enabled := MoveGet(Lookup(recvBitmaps, (integrator, srcChain), 0), index);
      if enabled != Some(true) {
        return false;
      }
      var bytes := MoveMessageBytes(srcChain, srcAddr, sequence, dstChain, dstAddr, payloadHash);
      if bytes.None? {
        return false;
      }
      var hash := keccak(bytes.value);
      var info := Lookup(attestations, hash, NO_ATTESTATION);
      var attested := MoveEnable(info.attestedAdapters, index);
      if attested.None? {
        return false;
      }
      AttestStep(keccak, Store(), model, Attest(caller, m), attested.value);
      attestations := attestations[hash := info.(attestedAdapters := attested.value)];
      model := Next(APTOS, model, Attest(caller, m));
      return true;
    }

    method RecvMessage(caller: Address, srcChain: Chain, srcAddr: seq<u8>, sequence: u64,
                       dstChain: Chain, payloadHash: seq<u8>)
      returns (ok: bool, enabled: u128, attested: u128)
      requires Valid()
      modifies `attestations, `model
      ensures Valid()
      ensures |srcAddr| != 32 || |payloadHash| != 32 ==> !ok && model == old(model)
      ensures |srcAddr| == |payloadHash| == 32 ==>
                var m := Message(srcChain, Address32(srcAddr), sequence, dstChain, caller, Address32(payloadHash));
                && Stepped(APTOS, old(model), Recv(m), ok, model)
                && (ok ==>
                      && Holds(enabled, AdaptersOf(old(model).adapters, caller),
                               EnabledAt(old(model).enabled, RecvSide, caller, srcChain))
                      && Holds(attested, AdaptersOf(old(model).adapters, caller), Attesters(old(model).attested, m)))
                && (var d := keccak(Encode(m));
                    ok <==> caller in capabilities && d in old(attestations) && !old(attestations)[d].executed)
    {
      hide Agrees, Enabled, Effect, Holds, Encode, FromBigEndian, BigEndian;
      var dstAddr := BigEndian(caller, 32);
      BytesOfAddress(caller);
      var bytes := MoveMessageBytes(srcChain, srcAddr, sequence, dstChain, dstAddr, payloadHash);
      if bytes.None? {
        return false, 0, 0;
      }
      ghost var m := Message(srcChain, Address32(srcAddr), sequence, dstChain, caller, Address32(payloadHash));
      var hash := keccak(bytes.value);
      IntegratorFacts(keccak, Store(), model, caller);
      ChainFacts(keccak, Store(), model, RecvSide, caller, srcChain);
      MessageFacts(keccak, Store(), model, m);
      RecvGuard(keccak, Store(), model, m);
      // the last table read, of the enabled adapters, aborts for an integrator that never registered
      if hash !in attestations || attestations[hash].executed || caller !in capabilities {
        return false, 0, 0;
      }
      ExecuteStep(keccak, Store(), model, Recv(m));
      attested := attestations[hash].attestedAdapters;
      attestations := attestations[hash := attestations[hash].(executed := true)];
      model := Next(APTOS, model, Recv(m));
      return true, Lookup(recvBitmaps, (caller, srcChain), 0), attested;
    }

    method ExecMessage(caller: Address, srcChain: Chain, srcAddr: seq<u8>, sequence: u64,
                       dstChain: Chain, payloadHash: seq<u8>)
      returns (ok: bool)
      requires Valid()
      modifies `attestations, `model
      ensures Valid()
      ensures |srcAddr| != 32 || |payloadHash| != 32 ==> !ok && model == old(model)
      ensures |srcAddr| == |payloadHash| == 32 ==>
                Stepped(APTOS, old(model),
                        Exec(Message(srcChain, Address32(srcAddr), sequence, dstChain, caller, Address32(payloadHash))),
                        ok, model)
    {
      hide Agrees, Effect, Holds, Encode, FromBigEndian, BigEndian;
      var dstAddr := BigEndian(caller, 32);
      BytesOfAddress(caller);
      var bytes := MoveMessageBytes(srcChain, srcAddr, sequence, dstChain, dstAddr, payloadHash);
      if bytes.None? {
        return false;
      }
      ghost var m := Message(srcChain, Address32(srcAddr), sequence, dstChain, caller, Address32(payloadHash));
      var hash := keccak(bytes.value);
      MessageFacts(keccak, Store(), model, m);
      var info := Lookup(attestations, hash, NO_ATTESTATION);
      if info.executed {
        return false;
      }
      ExecuteStep(keccak, Store(), model, Exec(m));
      attestations := attestations[hash := info.(executed := true)];
      model := Next(APTOS, model, Exec(m));
      return true;
    }

    // ---------------------------------------------------------------- whole runs

    /** One transaction. */
    method Execute(act: Action) returns (ok: bool)
      requires Valid() && (act.Send? ==> act.instructions == []) && (act.PickUp? ==> act.sequence <= MAX_U64)
      modifies this
      ensures Valid()
      ensures Stepped(APTOS, old(model), act, ok, model)
    {
      hide Agrees, Enabled, Next, Effect, BigEndian, FromBigEndian, Address32;
      match act
      case Register(c, a) => ok := Register(c, a);
      case UpdateAdmin(c, i, a) => ok := UpdateAdmin(c, i, a);
      case TransferAdmin(c, i, a) => ok := TransferAdmin(c, i, a);
      case ClaimAdmin(c, i) => ok := ClaimAdmin(c, i);
      case DiscardAdmin(c, i) => ok := DiscardAdmin(c, i);
      case AddAdapter(c, i, a) => ok := AddAdapter(c, i, a);
      case Enable(c, side, i, chain, a) => ok := EnableAdapter(c, side, i, chain, a);
      case Disable(c, side, i, chain, a) => ok := DisableAdapter(c, side, i, chain, a);
      case Attest(c, m) =>
        BytesOfAddress(m.srcAddr);
        BytesOfAddress(m.dstAddr);
        BytesOfAddress(m.payloadHash);
        ok := AttestMessage(c, m.srcChain, BigEndian(m.srcAddr, 32), m.sequence, m.dstChain,
                            BigEndian(m.dstAddr, 32), BigEndian(m.payloadHash, 32));
      case Recv(m) =>
        BytesOfAddress(m.srcAddr);
        BytesOfAddress(m.payloadHash);
        var enabled, attested;
        ok, enabled, attested := RecvMessage(m.dstAddr, m.srcChain, BigEndian(m.srcAddr, 32), m.sequence, m.dstChain,
                                             BigEndian(m.payloadHash, 32));
      case Exec(m) =>
        BytesOfAddress(m.srcAddr);
        BytesOfAddress(m.payloadHash);
        ok := ExecMessage(m.dstAddr, m.srcChain, BigEndian(m.srcAddr, 32), m.sequence, m.dstChain,
                          BigEndian(m.payloadHash, 32));
      case Send(c, chain, dstAddr, payloadHash, _) =>
        BytesOfAddress(payloadHash);
        var sequence;
        ok, sequence := SendMessage(c, chain, dstAddr, BigEndian(payloadHash, 32));
      case PickUp(c, i, n) =>
        var message;
        ok, message := PickUpMessage(c, i, n);
    }

    /**
     * Any sequence of transactions does to the tables what the protocol does to the sets, and the same
     * transactions succeed.
     */
    method RunAll(acts: seq<Action>) returns (oks: seq<bool>)
      requires Valid()
      requires forall k :: 0 <= k < |acts| ==>
                 (acts[k].Send? ==> acts[k].instructions == []) && (acts[k].PickUp? ==> acts[k].sequence <= MAX_U64)
      modifies this
      ensures Valid()
      ensures model == Run(APTOS, old(model), acts)
      ensures |oks| == |acts| && forall k :: 0 <= k < |acts| ==> oks[k] == Accepted(APTOS, old(model), acts, k)
      ensures old(model) == INITIAL ==>
                forall k :: 0 <= k < |acts| ==> oks[k] == Allowed(Aptos, LogOf(Aptos, acts[..k]), acts[k])
    {
      hide Agrees, Enabled, Next, Allowed, LogOf, Reflects, Inv;
      RunIsHistory(Aptos, acts);
      oks := [];
      for k := 0 to |acts|
        invariant Valid() && model == Run(APTOS, old(model), acts[..k])
        invariant |oks| == k && forall j :: 0 <= j < k ==> oks[j] == Accepted(APTOS, old(model), acts, j)
      {
        var ok := Execute(acts[k]);
        oks := oks + [ok];
        assert acts[..k + 1][..k] == acts[..k];
      }
      assert acts[..|acts|] == acts;
    }
  }

  // ---------------------------------------------------------------- facts about single bits

  /** When the module accepts a receive: the record exists and is not executed, and the integrator registered. */
  lemma RecvGuard(keccak: seq<u8> -> Digest, st: Storage, s: State, m: Message)
    requires Agrees(keccak, st, s)
    ensures var d := keccak(Encode(m));
            Enabled(APTOS, s, Recv(m)) <==>
            m.dstAddr in st.capabilities && d in st.attestations && !st.attestations[d].executed
  {
    hide Agrees, Holds, Encode;
    IntegratorFacts(keccak, st, s, m.dstAddr);
    MessageFacts(keccak, st, s, m);
  }

  lemma PickUpGuard(keccak: seq<u8> -> Digest, st: Storage, s: State, a: Address, k: OutboxKey)
    requires Agrees(keccak, st, s)
    ensures Enabled(APTOS, s, PickUp(a, k.integrator, k.sequence)) <==>
            k in st.outbox && (k.integrator, a) in st.indices
            && Bit(st.outbox[k].outstanding, st.indices[(k.integrator, a)])
    ensures (k.integrator, a) in st.indices ==> st.indices[(k.integrator, a)] < 128
  {
    hide Agrees, Bit;
    AdapterFacts(keccak, st, s, SendSide, k.integrator, 0, a);
    ParcelFacts(keccak, st, s, k, a);
  }

  lemma SendGuard(keccak: seq<u8> -> Digest, st: Storage, s: State, act: Action)
    requires Agrees(keccak, st, s) && act.Send?
    ensures Enabled(APTOS, s, act) <==>
            act.caller in st.capabilities && Lookup(st.sendBitmaps, (act.caller, act.dstChain), 0) != 0
            && st.capabilities[act.caller] < MAX_U64
    ensures Lookup(st.capabilities, act.caller, 0) == Lookup(s.next, act.caller, 0)
  {
    hide Agrees, Holds;
    IntegratorFacts(keccak, st, s, act.caller);
    ChainFacts(keccak, st, s, SendSide, act.caller, act.dstChain);
  }

  lemma ParcelFacts(keccak: seq<u8> -> Digest, st: Storage, s: State, k: OutboxKey, a: Address)
    requires Agrees(keccak, st, s)
    ensures k in st.outbox <==> k in s.outbox
    ensures k in st.outbox && a in s.outbox[k].outstanding ==> (k.integrator, a) in st.indices
    ensures k in st.outbox && (k.integrator, a) in st.indices ==>
              (Bit(st.outbox[k].outstanding, st.indices[(k.integrator, a)]) <==> a in s.outbox[k].outstanding)
  {
    assert OutboxAt(st.outbox, s, k);
    AdapterFacts(keccak, st, s, SendSide, k.integrator, 0, a);
  }

  /** The adapter is listed, its bit is set for the source chain and clear in the record. */
  predicate AttestBits(keccak: seq<u8> -> Digest, st: Storage, m: Message, a: Address) {
    && (m.dstAddr, a) in st.indices
    && Bit(Lookup(st.recvBitmaps, (m.dstAddr, m.srcChain), 0), st.indices[(m.dstAddr, a)])
    && !Bit(Lookup(st.attestations, keccak(Encode(m)), NO_ATTESTATION).attestedAdapters, st.indices[(m.dstAddr, a)])
  }

  /** When the module accepts an attestation. */
  lemma AttestGuard(keccak: seq<u8> -> Digest, st: Storage, s: State, m: Message, a: Address)
    requires Agrees(keccak, st, s)
    ensures AttestBits(keccak, st, m, a) <==> Enabled(APTOS, s, Attest(a, m))
    ensures (m.dstAddr, a) in st.indices ==> st.indices[(m.dstAddr, a)] < 128
  {
    hide Agrees, Bit;
    MessageFacts(keccak, st, s, m);
    AdapterFacts(keccak, st, s, RecvSide, m.dstAddr, m.srcChain, a);
  }

  /** An address written as 32 bytes reads back. */
  lemma BytesOfAddress(a: Address)
    ensures Address32(BigEndian(a, 32)) == a
  {
    Width256();
    ReadBackBigEndian(a, 32);
  }
}
