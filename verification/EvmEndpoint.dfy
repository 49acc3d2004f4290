/** Endpoint.sol, AdapterRegistry.sol and MessageSequence.sol: the contract. */
module EvmEndpoint {
  import opened Numbers
  import opened Bits
  import opened Bitmaps
  import opened Messages
  import opened Instructions
  import opened Protocol
  import opened Agreement
  import opened Reentrancy
  import opened EvmStorage
  import opened History

  class Endpoint {
    const ourChain: Chain
    const keccak: seq<u8> -> Digest

    var configs: map<Address, IntegratorConfig>
    var infos: map<(Address, Address), u8>            // AdapterInfo.index; an entry means `registered`
    var registered: map<Address, seq<Address>>
    var sendAdapters: map<(Address, Chain), seq<SendAdapter>>
    var recvBitmaps: map<(Address, Chain), u128>
    var attestations: AttestationStore
    var sequences: map<Address, u64>

    ghost var model: State

    ghost function Store(): Storage
      reads this
    {
      Storage(configs, infos, registered, sendAdapters, recvBitmaps, attestations, sequences)
    }

    ghost predicate Valid()
      reads this
    {
      Agrees(ourChain, keccak, Store(), model)
    }

    constructor (ourChain: Chain, keccak: seq<u8> -> Digest)
      requires CollisionFree(keccak)
      ensures Valid() && model == INITIAL && this.ourChain == ourChain && this.keccak == keccak
    {
      this.ourChain, this.keccak := ourChain, keccak;
      configs, infos, registered, sendAdapters, recvBitmaps := map[], map[], map[], map[], map[];
      attestations, sequences := map[], map[];
      model := INITIAL;
      new;
      InitialInv(Evm(ourChain));
      HoldsEmpty<Address>([]);
    }

    // ---------------------------------------------------------------- admin functions

    method Register(caller: EvmCaller, initialAdmin: EvmAddress) returns (ok: bool)
      requires Valid()
      modifies `configs, `model
      ensures Valid()
      ensures Stepped(Evm(ourChain), old(model), Protocol.Register(caller, initialAdmin), ok, model)
      ensures configs == if ok then old(configs)[caller := IntegratorConfig(true, initialAdmin, 0)] else old(configs)
    {
      hide Agrees, Effect;
      AdminFacts(ourChain, keccak, Store(), model, caller);
      if initialAdmin == ZERO || Lookup(configs, caller, NO_CONFIG).isInitialized {
        return false;
      }
      RegisterStep(ourChain, keccak, Store(), model, caller, initialAdmin);
      configs := configs[caller := IntegratorConfig(true, initialAdmin, ZERO)];
      model := Next(Evm(ourChain), model, Protocol.Register(caller, initialAdmin));
      return true;
    }

    method UpdateAdmin(caller: EvmCaller, integrator: EvmAddress, newAdmin: EvmAddress) returns (ok: bool)
      requires Valid()
      modifies `configs, `model
      ensures Valid()
      ensures Stepped(Evm(ourChain), old(model), Protocol.UpdateAdmin(caller, integrator, newAdmin), ok, model)
      ensures configs == if ok then old(configs)[integrator := IntegratorConfig(true, newAdmin, 0)] else old(configs)
    {
      hide Agrees, Effect;
      AdminFacts(ourChain, keccak, Store(), model, integrator);
      if !OnlyAdmin(configs, integrator, caller) || newAdmin == ZERO || configs[integrator].pendingAdmin != ZERO {
        return false;
      }
      ghost var act := Protocol.UpdateAdmin(caller, integrator, newAdmin);
      AdminWrite(ourChain, keccak, Store(), model, act, configs[integrator].(admin := newAdmin));
      configs := configs[integrator := configs[integrator].(admin := newAdmin)];
      model := Next(Evm(ourChain), model, act);
      return true;
    }

    method TransferAdmin(caller: EvmCaller, integrator: EvmAddress, newAdmin: EvmAddress) returns (ok: bool)
      requires Valid()
      modifies `configs, `model
      ensures Valid()
      ensures Stepped(Evm(ourChain), old(model), Protocol.TransferAdmin(caller, integrator, newAdmin), ok, model)
      ensures !ok ==> configs == old(configs)
      ensures ok ==> configs == old(configs)[integrator := IntegratorConfig(true, caller, newAdmin)]
    {
      hide Agrees, Effect;
      AdminFacts(ourChain, keccak, Store(), model, integrator);
      if !OnlyAdmin(configs, integrator, caller) || newAdmin == ZERO || configs[integrator].pendingAdmin != ZERO {
        return false;
      }
      ghost var act := Protocol.TransferAdmin(caller, integrator, newAdmin);
      AdminWrite(ourChain, keccak, Store(), model, act, configs[integrator].(pendingAdmin := newAdmin));
      configs := configs[integrator := configs[integrator].(pendingAdmin := newAdmin)];
      model := Next(Evm(ourChain), model, act);
      return true;
    }

    method ClaimAdmin(caller: EvmCaller, integrator: EvmAddress) returns (ok: bool)
      requires Valid()
      modifies `configs, `model
      ensures Valid()
      ensures Stepped(Evm(ourChain), old(model), Protocol.ClaimAdmin(caller, integrator), ok, model)
      ensures configs == if ok then old(configs)[integrator := IntegratorConfig(true, caller, 0)] else old(configs)
    {
      hide Agrees, Effect, Enabled;
      ClaimGuard(ourChain, keccak, Store(), model, integrator, caller);
      var config := Lookup(configs, integrator, NO_CONFIG);
      if config.pendingAdmin == ZERO || (caller != config.admin && caller != config.pendingAdmin) {
        return false;
      }
      ghost var act := Protocol.ClaimAdmin(caller, integrator);
      AdminWrite(ourChain, keccak, Store(), model, act, config.(admin := caller, pendingAdmin := ZERO));
      configs := configs[integrator := config.(admin := caller, pendingAdmin := ZERO)];
      model := Next(Evm(ourChain), model, act);
      return true;
    }

    method DiscardAdmin(caller: EvmCaller, integrator: EvmAddress) returns (ok: bool)
      requires Valid()
      modifies `configs, `model
      ensures Valid()
      ensures Stepped(Evm(ourChain), old(model), Protocol.DiscardAdmin(caller, integrator), ok, model)
      ensures configs == if ok then old(configs)[integrator := IntegratorConfig(true, 0, 0)] else old(configs)
    {
      hide Agrees, Effect;
      AdminFacts(ourChain, keccak, Store(), model, integrator);
      if !OnlyAdmin(configs, integrator, caller) || configs[integrator].pendingAdmin != ZERO {
        return false;
      }
      ghost var act := Protocol.DiscardAdmin(caller, integrator);
      AdminWrite(ourChain, keccak, Store(), model, act, configs[integrator].(admin := ZERO));
      configs := configs[integrator := configs[integrator].(admin := ZERO)];
      model := Next(Evm(ourChain), model, act);
      return true;
    }

    // ---------------------------------------------------------------- adapter functions

    method AddAdapter(caller: EvmCaller, integrator: EvmAddress, adapter: EvmAddress) returns (ok: bool, index: u8)
      requires Valid()
      modifies `infos, `registered, `model
      ensures Valid()
      ensures Stepped(Evm(ourChain), old(model), Protocol.AddAdapter(caller, integrator, adapter), ok, model)
      ensures ok ==> index == |AdaptersOf(old(model).adapters, integrator)|
    {
      hide Agrees, Effect, Enabled;
      AddGuard(ourChain, keccak, Store(), model, caller, integrator, adapter);
      if !OnlyAdmin(configs, integrator, caller) || adapter == ZERO || (integrator, adapter) in infos {
        return false, 0;
      }
      var list := Lookup(registered, integrator, []);
      var length := |list| % 256;
      if length >= MAX_ADAPTERS {
        return false, 0;
      }
      ghost var act := Protocol.AddAdapter(caller, integrator, adapter);
      AddStep(ourChain, keccak, Store(), model, act);
      infos := infos[(integrator, adapter) := length];
      registered := registered[integrator := list + [adapter]];
      model := Next(Evm(ourChain), model, act);
      return true, infos[(integrator, adapter)];
    }

    /** _isSendAdapterEnabledForChain: a linear search. */
    method IsSendAdapterEnabled(integrator: Address, chain: Chain, adapter: Address) returns (found: bool)
      requires Valid()
      ensures found <==> adapter in EnabledAt(model.enabled, SendSide, integrator, chain)
    {
      hide Agrees;
      SendFacts(ourChain, keccak, Store(), model, integrator, chain);
      var entries := Lookup(sendAdapters, (integrator, chain), []);
      for p := 0 to |entries|
        invariant forall q :: 0 <= q < p ==> entries[q].addr != adapter
      {
        if entries[p].addr == adapter {
          return true;
        }
      }
      return false;
    }

    method EnableSendAdapter(caller: EvmCaller, integrator: EvmAddress, chain: Chain, adapter: EvmAddress)
      returns (ok: bool)
      requires Valid()
      modifies `sendAdapters, `model
      ensures Valid()
      ensures Stepped(Evm(ourChain), old(model), Enable(caller, SendSide, integrator, chain, adapter), ok, model)
    {
      hide Agrees, Enabled, Enumerates, Effect;
      SetGuard(ourChain, keccak, Store(), model, caller, SendSide, integrator, chain, adapter);
      AdapterFacts(ourChain, keccak, Store(), model, integrator, chain, adapter);
      if !OnlyAdmin(configs, integrator, caller) || adapter == ZERO || chain == 0 || (integrator, adapter) !in infos {
        return false;
      }
      var enabled := IsSendAdapterEnabled(integrator, chain, adapter);
      if enabled {
        return false;
      }
      var index := infos[(integrator, adapter)];
      var entries := Lookup(sendAdapters, (integrator, chain), []);
      ghost var act := Enable(caller, SendSide, integrator, chain, adapter);
      SendFacts(ourChain, keccak, Store(), model, integrator, chain);
      SetEffect(Evm(ourChain), model, act);
      EnumeratesPush(entries, AdaptersOf(model.adapters, integrator),
                     EnabledAt(model.enabled, SendSide, integrator, chain), adapter, index);
      SendSetStep(ourChain, keccak, Store(), model, act, entries + [SendAdapter(adapter, index)]);
      sendAdapters := sendAdapters[(integrator, chain) := entries + [SendAdapter(adapter, index)]];
      model := Next(Evm(ourChain), model, act);
      return true;
    }

    /** _disableSendAdapter: find the adapter, overwrite it with the last element, pop. */
    method DisableSendAdapter(caller: EvmCaller, integrator: EvmAddress, chain: Chain, adapter: EvmAddress)
      returns (ok: bool)
      requires Valid()
      modifies `sendAdapters, `model
      ensures Valid()
      ensures Stepped(Evm(ourChain), old(model), Disable(caller, SendSide, integrator, chain, adapter), ok, model)
    {
      hide Agrees, Enabled, Enumerates, Effect;
      SetGuard(ourChain, keccak, Store(), model, caller, SendSide, integrator, chain, adapter);
      AdapterFacts(ourChain, keccak, Store(), model, integrator, chain, adapter);
      if !OnlyAdmin(configs, integrator, caller) || adapter == ZERO || chain == 0 || (integrator, adapter) !in infos {
        return false;
      }
      SendFacts(ourChain, keccak, Store(), model, integrator, chain);
      ghost var members := EnabledAt(model.enabled, SendSide, integrator, chain);
      var entries := Lookup(sendAdapters, (integrator, chain), []);
      var p := 0;
      while p < |entries| && entries[p].addr != adapter
        invariant 0 <= p <= |entries|
        invariant forall q :: 0 <= q < p ==> entries[q].addr != adapter
      {
        p := p + 1;
      }
      EnumeratesMember(entries, AdaptersOf(model.adapters, integrator), members, adapter);
      if p == |entries| {
        return false;
      }
      EnumeratesSwapPop(entries, AdaptersOf(model.adapters, integrator), members, p);
      var last := |entries| - 1;
      ghost var act := Disable(caller, SendSide, integrator, chain, adapter);
      SetEffect(Evm(ourChain), model, act);
      SendSetStep(ourChain, keccak, Store(), model, act, entries[p := entries[last]][..last]);
      entries := entries[p := entries[last]];
      entries := entries[..last];
      sendAdapters := sendAdapters[(integrator, chain) := entries];
      model := Next(Evm(ourChain), model, act);
      return true;
    }

    method EnableRecvAdapter(caller: EvmCaller, integrator: EvmAddress, chain: Chain, adapter: EvmAddress)
      returns (ok: bool)
      requires Valid()
      modifies `recvBitmaps, `model
      ensures Valid()
      ensures Stepped(Evm(ourChain), old(model), Enable(caller, RecvSide, integrator, chain, adapter), ok, model)
    {
      hide Agrees, Enabled, Effect, BitSetAt;
      SetGuard(ourChain, keccak, Store(), model, caller, RecvSide, integrator, chain, adapter);
      AdapterFacts(ourChain, keccak, Store(), model, integrator, chain, adapter);
      if !OnlyAdmin(configs, integrator, caller) || adapter == ZERO || chain == 0 || (integrator, adapter) !in infos {
        return false;
      }
      var index := infos[(integrator, adapter)];
      var bitmap := Lookup(recvBitmaps, (integrator, chain), 0);
      if EvmGet(bitmap, index) {
        return false;
      }
      ghost var act := Enable(caller, RecvSide, integrator, chain, adapter);
      RecvStep(ourChain, keccak, Store(), model, act, EvmSet(bitmap, index));
      recvBitmaps := recvBitmaps[(integrator, chain) := EvmSet(bitmap, index)];
      model := Next(Evm(ourChain), model, act);
      return true;
    }

    method DisableRecvAdapter(caller: EvmCaller, integrator: EvmAddress, chain: Chain, adapter: EvmAddress)
      returns (ok: bool)
      requires Valid()
      modifies `recvBitmaps, `model
      ensures Valid()
      ensures Stepped(Evm(ourChain), old(model), Disable(caller, RecvSide, integrator, chain, adapter), ok, model)
    {
      hide Agrees, Enabled, Effect, BitClearedAt;
      SetGuard(ourChain, keccak, Store(), model, caller, RecvSide, integrator, chain, adapter);
      AdapterFacts(ourChain, keccak, Store(), model, integrator, chain, adapter);
      if !OnlyAdmin(configs, integrator, caller) || adapter == ZERO || chain == 0 || (integrator, adapter) !in infos {
        return false;
      }
      var bitmap := Lookup(recvBitmaps, (integrator, chain), 0);
      var updated := EvmClear(bitmap, infos[(integrator, adapter)]);
      if updated >= bitmap {
        return false;
      }
      ghost var act := Disable(caller, RecvSide, integrator, chain, adapter);
      RecvStep(ourChain, keccak, Store(), model, act, updated);
      recvBitmaps := recvBitmaps[(integrator, chain) := updated];
      model := Next(Evm(ourChain), model, act);
      return true;
    }

    // ---------------------------------------------------------------- message functions

    method AttestMessage(caller: EvmCaller, m: Message) returns (ok: bool)
      requires Valid()
      modifies `attestations, `model
      ensures Valid()
      ensures Stepped(Evm(ourChain), old(model), Attest(caller, m), ok, model)
    {
      hide Agrees, Enabled, Effect, BitSetAt, EvmSet, EvmGet, Encode;
      AttestGuard(ourChain, keccak, Store(), model, m, caller);
      var to := ToAddress(m.dstAddr);
      if to.None? || m.dstChain != ourChain || (to.value, caller) !in infos || m.srcChain == 0 {
        return false;
      }
      var integrator, index := to.value, infos[(to.value, caller)];
      if !EvmGet(Lookup(recvBitmaps, (integrator, m.srcChain), 0), index) {
        return false;
      }
      var key := (integrator, keccak(Encode(m)));
      var info := Lookup(attestations, key, NO_ATTESTATION);
      var updated := EvmSet(info.attestedAdapters, index);
      AttestedBit(ourChain, keccak, Store(), model, m, caller, updated);
      if updated == info.attestedAdapters {
        return false;
      }
      AttestStep(ourChain, keccak, Store(), model, Attest(caller, m), updated);
      attestations := attestations[key := AttestationInfo(info.executed, info.numAttested + 1, updated)];
      model := Next(Evm(ourChain), model, Attest(caller, m));
      return true;
    }

    method RecvMessage(caller: EvmCaller, srcChain: Chain, srcAddr: Address, sequence: u64, payloadHash: u256)
      returns (ok: bool, enabledBitmap: u128, attestedBitmap: u128, numAttested: u8)
      requires Valid()
      modifies `attestations, `model
      ensures Valid()
      ensures var m := Message(srcChain, srcAddr, sequence, ourChain, caller, payloadHash);
              && Stepped(Evm(ourChain), old(model), Recv(m), ok, model)
              && (ok ==>
                    && Holds(enabledBitmap, AdaptersOf(old(model).adapters, caller),
                             EnabledAt(old(model).enabled, RecvSide, caller, srcChain))
                    && Holds(attestedBitmap, AdaptersOf(old(model).adapters, caller), Attesters(old(model).attested, m))
                    && 0 < numAttested == PopCount(attestedBitmap) == |Attesters(old(model).attested, m)|)
      ensures var m := Message(srcChain, srcAddr, sequence, ourChain, caller, payloadHash);
              var info := Lookup(old(attestations), Key(keccak, m), NO_ATTESTATION);
              ok <==> Lookup(recvBitmaps, (caller, srcChain), 0) != 0 && info.attestedAdapters != 0 && !info.executed
    {
      hide Agrees, Enabled, Effect, Holds, Encode;
      enabledBitmap, attestedBitmap, numAttested := 0, 0, 0;
      var m := Message(srcChain, srcAddr, sequence, ourChain, FromAddress(caller), payloadHash);
      RecvFacts(ourChain, keccak, Store(), model, caller, srcChain);
      MessageFacts(ourChain, keccak, Store(), model, m);
      RecvGuard(ourChain, keccak, Store(), model, m);
      if srcChain == 0 {
        return false, 0, 0, 0;
      }
      enabledBitmap := Lookup(recvBitmaps, (caller, srcChain), 0);
      if enabledBitmap == 0 {
        return false, 0, 0, 0;
      }
      var key := (caller, keccak(Encode(m)));
      var info := Lookup(attestations, key, NO_ATTESTATION);
      if (info.attestedAdapters == 0 && !info.executed) || info.executed {
        return false, 0, 0, 0;
      }
      ExecuteStep(ourChain, keccak, Store(), model, Recv(m));
      attestations := attestations[key := info.(executed := true)];
      model := Next(Evm(ourChain), model, Recv(m));
      return true, enabledBitmap, info.attestedAdapters, info.numAttested;
    }

    method ExecMessage(caller: EvmCaller, srcChain: Chain, srcAddr: Address, sequence: u64, payloadHash: u256)
      returns (ok: bool)
      requires Valid()
      modifies `attestations, `model
      ensures Valid()
      ensures Stepped(Evm(ourChain), old(model),
                      Exec(Message(srcChain, srcAddr, sequence, ourChain, caller, payloadHash)), ok, model)
      ensures var m := Message(srcChain, srcAddr, sequence, ourChain, caller, payloadHash);
              ok <==> !Lookup(old(attestations), Key(keccak, m), NO_ATTESTATION).executed
    {
      hide Agrees, Enabled, Effect, Encode;
      var m := Message(srcChain, srcAddr, sequence, ourChain, FromAddress(caller), payloadHash);
      RecvGuard(ourChain, keccak, Store(), model, m);
      var key := (caller, keccak(Encode(m)));
      var info := Lookup(attestations, key, NO_ATTESTATION);
      if info.executed {
        return false;
      }
      ExecuteStep(ourChain, keccak, Store(), model, Exec(m));
      attestations := attestations[key := info.(executed := true)];
      model := Next(Evm(ourChain), model, Exec(m));
      return true;
    }

    /** The checks of _sendMessage, and copies of the send array and the parsed instructions. */
    method PrepareSend(caller: EvmCaller, dstChain: Chain, dstAddr: Address, payloadHash: u256, buffer: seq<u8>,
                       beyond: nat -> u8)
      returns (ok: bool, entries: seq<SendAdapter>, instructions: seq<Instruction>)
      requires Valid()
      ensures ok == Enabled(Evm(ourChain), model, Send(caller, dstChain, dstAddr, payloadHash, buffer))
      ensures ok ==>
                && entries == Lookup(sendAdapters, (caller, dstChain), [])
                && Parse(buffer, beyond, |AdaptersOf(model.adapters, caller)|) == Some(instructions)
                && InEntries(entries, |instructions|)
                && |entries| == |EnabledAt(model.enabled, SendSide, caller, dstChain)|
                && Enumerates(entries, AdaptersOf(model.adapters, caller),
                              EnabledAt(model.enabled, SendSide, caller, dstChain))
                && Distinct(AdaptersOf(model.adapters, caller))
                && |instructions| == |AdaptersOf(model.adapters, caller)|
    {
      hide Agrees, Effect, Enumerates, Parse, InEntries, Accepts, Distinct, Denotes;
      entries, instructions := [], [];
      AdminFacts(ourChain, keccak, Store(), model, caller);
      SendFacts(ourChain, keccak, Store(), model, caller, dstChain);
      var parsed := ParseInstructions(buffer, beyond, |Lookup(registered, caller, [])|);
      AcceptsAny(buffer, beyond, |AdaptersOf(model.adapters, caller)|);
      if parsed.None? || dstChain == 0 {
        return false, [], [];
      }
      entries := Lookup(sendAdapters, (caller, dstChain), []);
      if |entries| == 0 || Lookup(sequences, caller, 0) == MAX_U64 {
        return false, [], [];
      }
      ParsedLength(buffer, beyond, |AdaptersOf(model.adapters, caller)|);
      EnumeratesInRange(entries, AdaptersOf(model.adapters, caller),
                        EnabledAt(model.enabled, SendSide, caller, dstChain));
      return true, entries, parsed.value;
    }

    /**
     * _sendMessage: the sequence is consumed before the adapters are called, from copies of the send array
     * and the parsed instructions; `beyond` is whatever memory follows the instruction buffer. An adapter
     * may call back into the endpoint (`callbacks`) or fail (`failsAt`), which undoes the whole call.
     */
    method SendMessage(caller: EvmCaller, dstChain: Chain, dstAddr: Address, payloadHash: u256, buffer: seq<u8>,
                       beyond: nat -> u8, price: (Address, Chain, seq<u8>) -> u256,
                       callbacks: seq<Callback>, failsAt: Option<nat>)
      returns (ok: bool, sequence: u64, calls: seq<AdapterCall>)
      requires Valid() && ExpressibleCallbacks(ourChain, callbacks)
      modifies this
      ensures Valid()
      ensures var tx := Tx(Send(caller, dstChain, dstAddr, payloadHash, buffer), callbacks, failsAt);
              && model == Perform(Evm(ourChain), old(model), tx)
              && ok == (Enabled(Evm(ourChain), old(model), tx.act) && !Reverts(old(model), tx))
      ensures ok ==> sequence == Lookup(old(model).next, caller, 0)
      ensures ok ==> Delivered(calls, old(Lookup(sendAdapters, (caller, dstChain), [])),
                               AdaptersOf(old(model).adapters, caller),
                               EnabledAt(old(model).enabled, SendSide, caller, dstChain),
                               Parse(buffer, beyond, |AdaptersOf(old(model).adapters, caller)|),
                               price, sequence, dstChain, dstAddr, payloadHash)
      ensures ok ==> Instructed(calls, AdaptersOf(old(model).adapters, caller), buffer)
      ensures ok && buffer == [] ==> forall p :: 0 <= p < |calls| ==> calls[p].instruction == []
      decreases callbacks, 2
    {
      hide Agrees, Effect, Enumerates, Parse, Delivered, Enabled, InEntries, Made, ExpressibleCallbacks, Distinct,
           PerformLoop, Perform, Next, Instructed;
      ghost var before, act := model, Send(caller, dstChain, dstAddr, payloadHash, buffer);
      PerformSend(Evm(ourChain), before, Tx(act, callbacks, failsAt));
      var entries, instructions;
      ok, entries, instructions := PrepareSend(caller, dstChain, dstAddr, payloadHash, buffer, beyond);
      if !ok {
        return false, 0, [];
      }
      var saved := Storage(configs, infos, registered, sendAdapters, recvBitmaps, attestations, sequences);
      sequence := UseMessageSequence(caller, act);
      ok, calls := CallAdapters(entries, instructions, beyond, price, sequence, dstChain, dstAddr, payloadHash,
                                callbacks, failsAt);
      if !ok {
        Restore(saved, before);
        return false, 0, [];
      }
      EntriesFanOut(calls, entries, AdaptersOf(before.adapters, caller),
                    EnabledAt(before.enabled, SendSide, caller, dstChain),
                    instructions, price, sequence, dstChain, dstAddr, payloadHash);
      CallsInstructed(calls, entries, AdaptersOf(before.adapters, caller),
                      EnabledAt(before.enabled, SendSide, caller, dstChain), instructions, buffer, beyond,
                      price, sequence, dstChain, dstAddr, payloadHash);
      return true, sequence, calls;
    }

    /** Returns the sender's next sequence and consumes it. */
    method UseMessageSequence(sender: EvmCaller, ghost send: Action) returns (sequence: u64)
      requires Valid() && send.Send? && send.caller == sender && Enabled(Evm(ourChain), model, send)
      modifies `sequences, `model
      ensures Valid() && model == Next(Evm(ourChain), old(model), send)
      ensures sequence == Lookup(old(model).next, sender, 0)
    {
      hide Agrees, Enabled, Effect, Next, Distinct, IsAdmin, OnlyAdmin;
      AdminFacts(ourChain, keccak, Store(), model, sender);
      SequenceStep(ourChain, keccak, Store(), model, send);
      sequence := Lookup(sequences, sender, 0);
      sequences := sequences[sender := sequence + 1];
      model := Next(Evm(ourChain), model, send);
    }

    /** A failed call undoes everything done in it. */
    method Restore(saved: Storage, ghost before: State)
      requires Agrees(ourChain, keccak, saved, before)
      modifies this
      ensures Valid() && Store() == saved && model == before
    {
      hide Agrees;
      configs, infos, registered := saved.configs, saved.infos, saved.registered;
      sendAdapters, recvBitmaps := saved.sendAdapters, saved.recvBitmaps;
      attestations, sequences := saved.attestations, saved.sequences;
      model := before;
    }

    /** The loop over the copied send array: quote, call the adapter, and whatever the adapter calls. */
    method CallAdapters(entries: seq<SendAdapter>, instructions: seq<Instruction>, beyond: nat -> u8,
                        price: (Address, Chain, seq<u8>) -> u256,
                        sequence: u64, dstChain: Chain, dstAddr: Address, payloadHash: u256,
                        callbacks: seq<Callback>, failsAt: Option<nat>)
      returns (done: bool, calls: seq<AdapterCall>)
      requires Valid() && InEntries(entries, |instructions|) && ExpressibleCallbacks(ourChain, callbacks)
      modifies this
      ensures Valid()
      ensures done <==> !(failsAt.Some? && failsAt.value < |entries|)
      ensures done ==>
                && |calls| == |entries|
                && Made(calls, entries, instructions, price, sequence, dstChain, dstAddr, payloadHash)
                && model == PerformLoop(Evm(ourChain), old(model), callbacks, |entries|)
      decreases callbacks, 1
    {
      hide Agrees, Effect, Enabled, InEntries, Made;
      calls := [];
      MadeNothing(entries, instructions, price, sequence, dstChain, dstAddr, payloadHash);
      for p := 0 to |entries|
        invariant Valid() && |calls| == p
        invariant failsAt.Some? ==> p <= failsAt.value
        invariant Made(calls, entries, instructions, price, sequence, dstChain, dstAddr, payloadHash)
        invariant model == PerformLoop(Evm(ourChain), old(model), callbacks, p)
      {
        EntryInRange(entries, instructions, p);
        var payload := instructions[entries[p].index].payload;
        var deliveryPrice := price(entries[p].addr, dstChain, payload);
        if failsAt == Some(p) {
          return false, [];
        }
        MadeOneMore(calls, entries, instructions, price, sequence, dstChain, dstAddr, payloadHash);
        calls := calls + [AdapterCall(entries[p].addr, deliveryPrice, sequence, dstChain, dstAddr, payloadHash,
                                      payload)];
        if p < |callbacks| {
          var oks := RunNested(callbacks[p].calls, beyond, price);
        }
      }
      return true, calls;
    }

    /** Calls into the endpoint, one after the other, each with the calls nested in it. */
    method RunNested(txs: seq<Tx>, beyond: nat -> u8, price: (Address, Chain, seq<u8>) -> u256)
      returns (oks: seq<bool>)
      requires Valid() && ExpressibleTxs(ourChain, txs)
      modifies this
      ensures Valid()
      ensures model == PerformAll(Evm(ourChain), old(model), txs) && oks == Outcomes(Evm(ourChain), old(model), txs)
      decreases txs, 1
    {
      hide Agrees, Effect, Enabled, Perform, ExpressibleTx;
      if txs == [] {
        return [];
      }
      var ok := Transact(txs[0], beyond, price);
      var rest := RunNested(txs[1..], beyond, price);
      return [ok] + rest;
    }

    /** One call with the calls nested in it. */
    method Transact(tx: Tx, beyond: nat -> u8, price: (Address, Chain, seq<u8>) -> u256) returns (ok: bool)
      requires Valid() && ExpressibleTx(ourChain, tx)
      modifies this
      ensures Valid()
      ensures model == Perform(Evm(ourChain), old(model), tx)
      ensures ok == (Enabled(Evm(ourChain), old(model), tx.act) && !Reverts(old(model), tx))
      decreases tx, 3
    {
      hide Agrees, Effect, Enabled, Called, Delivered, Parse, Instructed;
      if tx.act.Send? {
        var sequence, calls;
        ok, sequence, calls := SendMessage(tx.act.caller, tx.act.dstChain, tx.act.dstAddr, tx.act.payloadHash,
                                           tx.act.instructions, beyond, price, tx.callbacks, tx.failsAt);
      } else {
        ok := ExecuteOther(tx.act);
      }
    }

    /** _quoteDeliveryPrice; a total beyond 256 bits reverts. */
    method QuoteDeliveryPrice(integrator: Address, dstChain: Chain, buffer: seq<u8>,
                              beyond: nat -> u8, price: (Address, Chain, seq<u8>) -> u256)
      returns (r: Option<u256>)
      requires Valid()
      ensures var parsed := Parse(buffer, beyond, |AdaptersOf(model.adapters, integrator)|);
              var entries := Lookup(sendAdapters, (integrator, dstChain), []);
              && (parsed.Some? ==> InEntries(entries, |parsed.value|))
              && (r.Some? <==>
                  parsed.Some? && dstChain != 0 && Total(entries, parsed.value, dstChain, price) < Pow2(256))
              && (r.Some? ==> r.value == Total(entries, parsed.value, dstChain, price))
              && (r.Some? && EnabledAt(model.enabled, SendSide, integrator, dstChain) == {} ==> r.value == 0)
    {
      hide Agrees, Enumerates, Parse, Denotes, Total;
      AdminFacts(ourChain, keccak, Store(), model, integrator);
      SendFacts(ourChain, keccak, Store(), model, integrator, dstChain);
      var parsed := ParseInstructions(buffer, beyond, |Lookup(registered, integrator, [])|);
      ParsedLength(buffer, beyond, |AdaptersOf(model.adapters, integrator)|);
      var entries := Lookup(sendAdapters, (integrator, dstChain), []);
      EnumeratesInRange(entries, AdaptersOf(model.adapters, integrator),
                        EnabledAt(model.enabled, SendSide, integrator, dstChain));
      if parsed.None? || dstChain == 0 {
        return None;
      }
      TotalNone(parsed.value, dstChain, price);
      Width256();
      var total := SumPrices(entries, parsed.value, dstChain, price);
      return total;
    }

    // ---------------------------------------------------------------- views

    method GetMessageStatus(srcChain: Chain, srcAddr: Address, sequence: u64, dstAddr: Address, payloadHash: u256)
      returns (ok: bool, enabledBitmap: u128, attestedBitmap: u128, numAttested: u8, executed: bool)
      requires Valid()
      ensures ok <==> IsEvm(dstAddr) && srcChain != 0
      ensures var m := Message(srcChain, srcAddr, sequence, ourChain, dstAddr, payloadHash);
              ok ==>
                && Holds(enabledBitmap, AdaptersOf(model.adapters, dstAddr),
                         EnabledAt(model.enabled, RecvSide, dstAddr, srcChain))
                && Holds(attestedBitmap, AdaptersOf(model.adapters, dstAddr), Attesters(model.attested, m))
                && numAttested == PopCount(attestedBitmap) == |Attesters(model.attested, m)|
                && numAttested <= |AdaptersOf(model.adapters, dstAddr)|
                && (executed <==> m in model.executed)
    {
      hide Agrees, Holds;
      var m := Message(srcChain, srcAddr, sequence, ourChain, dstAddr, payloadHash);
      RecvFacts(ourChain, keccak, Store(), model, dstAddr, srcChain);
      MessageFacts(ourChain, keccak, Store(), model, m);
      var to := ToAddress(dstAddr);
      if to.None? || srcChain == 0 {
        return false, 0, 0, 0, false;
      }
      var info := Lookup(attestations, (to.value, keccak(Encode(m))), NO_ATTESTATION);
      return true, Lookup(recvBitmaps, (to.value, srcChain), 0),
             info.attestedAdapters, info.numAttested, info.executed;
    }

    /** _isRecvAdapterEnabledForChain, for a listed adapter: its index, then its bit. */
    method IsRecvAdapterEnabled(integrator: Address, chain: Chain, adapter: Address) returns (enabled: bool)
      requires Valid() && adapter in AdaptersOf(model.adapters, integrator)
      ensures enabled <==> adapter in EnabledAt(model.enabled, RecvSide, integrator, chain)
    {
      hide Agrees;
      AdapterFacts(ourChain, keccak, Store(), model, integrator, chain, adapter);
      return EvmGet(Lookup(recvBitmaps, (integrator, chain), 0), infos[(integrator, adapter)]);
    }

    /** getRecvAdaptersByChain: an array sized by popcount, filled by a loop over the registered list. */
    method GetRecvAdaptersByChain(integrator: Address, chain: Chain) returns (r: Option<seq<Address>>)
      requires Valid()
      ensures r.None? <==> chain == 0
      ensures r.Some? ==> r.value == Filtered(AdaptersOf(model.adapters, integrator),
                                              EnabledAt(model.enabled, RecvSide, integrator, chain))
      ensures r.Some? ==> Selects(r.value, AdaptersOf(model.adapters, integrator),
                                  EnabledAt(model.enabled, RecvSide, integrator, chain))
    {
      hide Selects;
      FilteredSelects(AdaptersOf(model.adapters, integrator), EnabledAt(model.enabled, RecvSide, integrator, chain));
      hide Agrees, Holds, Filtered, Distinct, IsAdmin, OnlyAdmin;
      AdminFacts(ourChain, keccak, Store(), model, integrator);
      RecvFacts(ourChain, keccak, Store(), model, integrator, chain);
      if chain == 0 {
        return None;
      }
      var all := Lookup(registered, integrator, []);
      var bitmap := Lookup(recvBitmaps, (integrator, chain), 0);
      ghost var members := EnabledAt(model.enabled, RecvSide, integrator, chain);
      var count := CountBits(bitmap);
      FilteredCount(all, members);
      FilteredNone(all, members);
      var result := new Address[count](_ => 0);
      var length := 0;
      for k := 0 to |all|
        invariant length == |Filtered(all[..k], members)| <= count
        invariant result[..length] == Filtered(all[..k], members)
      {
        FilteredPrefix(all, members, k);
        FilteredPrefix(all, members, k + 1);
        var enabled := IsRecvAdapterEnabled(integrator, chain, all[k]);
        if enabled {
          result[length] := all[k];
          length := length + 1;
        }
      }
      assert all[..|all|] == all;
      assert result[..length] == result[..];
      return Some(result[..]);
    }

    // ---------------------------------------------------------------- whole runs

    /** One transaction other than a send. */
    method ExecuteOther(act: Action) returns (ok: bool)
      requires Valid() && Expressible(ourChain, act) && !act.Send?
      modifies this
      ensures Valid()
      ensures Stepped(Evm(ourChain), old(model), act, ok, model)
    {
      hide Agrees, Enabled, Next, Effect;
      match act
      case Register(c, a) => ok := Register(c, a);
      case UpdateAdmin(c, i, a) => ok := UpdateAdmin(c, i, a);
      case TransferAdmin(c, i, a) => ok := TransferAdmin(c, i, a);
      case ClaimAdmin(c, i) => ok := ClaimAdmin(c, i);
      case DiscardAdmin(c, i) => ok := DiscardAdmin(c, i);
      case AddAdapter(c, i, a) =>
        var index;
        ok, index := AddAdapter(c, i, a);
      case Enable(c, side, i, chain, a) =>
        if side == SendSide {
          ok := EnableSendAdapter(c, i, chain, a);
        } else {
          ok := EnableRecvAdapter(c, i, chain, a);
        }
      case Disable(c, side, i, chain, a) =>
        if side == SendSide {
          ok := DisableSendAdapter(c, i, chain, a);
        } else {
          ok := DisableRecvAdapter(c, i, chain, a);
        }
      case Attest(c, m) => ok := AttestMessage(c, m);
      case Recv(m) =>
        var enabled, attested, num;
        ok, enabled, attested, num := RecvMessage(m.dstAddr, m.srcChain, m.srcAddr, m.sequence, m.payloadHash);
      case Exec(m) => ok := ExecMessage(m.dstAddr, m.srcChain, m.srcAddr, m.sequence, m.payloadHash);
    }

    /** One transaction without calls nested in it. */
    method Execute(act: Action) returns (ok: bool)
      requires Valid() && Expressible(ourChain, act)
      modifies this
      ensures Valid()
      ensures Stepped(Evm(ourChain), old(model), act, ok, model)
    {
      hide Agrees, Enabled, Effect;
      PlainSend(Evm(ourChain), model, act);
      ok := Transact(Tx(act, [], None), _ => 0, (_, _, _) => 0);
    }

    /**
     * Any sequence of transactions does to the storage what the protocol does to the sets, and the same
     * transactions succeed.
     */
    method RunAll(acts: seq<Action>) returns (oks: seq<bool>)
      requires Valid() && forall k :: 0 <= k < |acts| ==> Expressible(ourChain, acts[k])
      modifies this
      ensures Valid()
      ensures model == Run(Evm(ourChain), old(model), acts)
      ensures |oks| == |acts| && forall k :: 0 <= k < |acts| ==> oks[k] == Accepted(Evm(ourChain), old(model), acts, k)
      ensures old(model) == INITIAL ==>
                forall k :: 0 <= k < |acts| ==>
                  oks[k] == Allowed(Ethereum(ourChain), LogOf(Ethereum(ourChain), acts[..k]), acts[k])
    {
      hide Agrees, Enabled, Next, Allowed, LogOf, Reflects, Inv;
      RunIsHistory(Ethereum(ourChain), acts);
      oks := [];
      for k := 0 to |acts|
        invariant Valid() && model == Run(Evm(ourChain), old(model), acts[..k])
        invariant |oks| == k && forall j :: 0 <= j < k ==> oks[j] == Accepted(Evm(ourChain), old(model), acts, j)
      {
        var ok := Execute(acts[k]);
        oks := oks + [ok];
        assert acts[..k + 1][..k] == acts[..k];
      }
      assert acts[..|acts|] == acts;
    }
  }
}
