/** The Solana program: its accounts as maps, an `init` constraint as an absent key. */
module SvmEndpoint {
  import opened Numbers
  import opened Bits
  import opened Bitmaps
  import opened Messages
  import opened Protocol
  import opened Agreement
  import opened History

  const CHAIN_ID: Chain := 1

  datatype IntegratorConfig = IntegratorConfig(
    admin: Option<Address>, pendingAdmin: Option<Address>, adapterInfos: seq<Address>)

  datatype IntegratorChainConfig = IntegratorChainConfig(chainId: Chain, sendBitmap: u128, recvBitmap: u128)

  datatype AttestationInfo = AttestationInfo(
    messageHash: Digest, message: Message, executed: bool, attestedAdapters: u128)

  /** An account that was just allocated holds zeros. */
  const ZEROED_CHAIN := IntegratorChainConfig(0, 0, 0)
  const ZEROED_INFO := AttestationInfo([], Message(0, 0, 0, 0, 0, 0), false, 0)

  function View(info: AttestationInfo): (bool, u128) {
    (info.executed, info.attestedAdapters)
  }

  datatype Storage = Storage(
    configs: map<Address, IntegratorConfig>,
    trackers: map<Address, u64>,
    adapterInfos: map<(Address, Address), u8>,        // AdapterInfo.index
    chainConfigs: map<(Address, Chain), IntegratorChainConfig>,
    attestations: map<Digest, AttestationInfo>,
    outbox: map<Address, OutboxMessage>)              // by account, not by sequence

  // ---------------------------------------------------------------- agreement with the protocol

  ghost predicate ConfigTie(st: Storage, s: State) {
    && st.configs.Keys == s.admins.Keys
    && (forall i :: i in st.configs ==>
          && s.admins[i] == Admins(st.configs[i].admin, st.configs[i].pendingAdmin)
          && AdaptersOf(s.adapters, i) == st.configs[i].adapterInfos)
    && st.trackers.Keys == s.next.Keys && SequenceTie(st.trackers, s.next)
  }

  function BitsOf(config: IntegratorChainConfig, side: Side): u128 {
    if side == SendSide then config.sendBitmap else config.recvBitmap
  }

  ghost predicate ChainAt(chains: map<(Address, Chain), IntegratorChainConfig>, s: State, i: Address, c: Chain) {
    var config := Lookup(chains, (i, c), ZEROED_CHAIN);
    && ((i, c) in chains <==> (i, c) in s.configured)
    && ((i, c) in chains ==> config.chainId == c != 0)
    && Holds(config.sendBitmap, AdaptersOf(s.adapters, i), EnabledAt(s.enabled, SendSide, i, c))
    && Holds(config.recvBitmap, AdaptersOf(s.adapters, i), EnabledAt(s.enabled, RecvSide, i, c))
  }

  ghost predicate ChainTie(chains: map<(Address, Chain), IntegratorChainConfig>, s: State) {
    forall i, c :: ChainAt(chains, s, i, c)
  }

  /** A stored record's fields are the arguments that located it. */
  ghost predicate Labelled(store: map<Digest, AttestationInfo>, keccak: seq<u8> -> Digest) {
    forall m: Message :: LabelAt(store, keccak(Encode(m)), m)
  }

  ghost predicate LabelAt(store: map<Digest, AttestationInfo>, d: Digest, m: Message) {
    d in store ==> store[d].message == m && store[d].messageHash == d
  }

  ghost predicate OutboxAt(outbox: map<Address, OutboxMessage>, s: State, x: Address) {
    x in outbox ==>
      && KeyOf(outbox[x]) in s.outbox
      && ParcelTie(outbox[x], s.outbox[KeyOf(outbox[x])], AdaptersOf(s.adapters, outbox[x].srcAddr))
  }

  /** Live accounts and live parcels correspond one to one. */
  ghost predicate OutboxTie(outbox: map<Address, OutboxMessage>, s: State) {
    && (forall x: Address :: OutboxAt(outbox, s, x))
    && (forall x, y :: x in outbox && y in outbox && x != y ==> KeyOf(outbox[x]) != KeyOf(outbox[y]))
    && (forall k :: k in s.outbox ==> exists x :: x in outbox && KeyOf(outbox[x]) == k)
  }

  ghost predicate Agrees(keccak: seq<u8> -> Digest, st: Storage, s: State) {
    && CollisionFree(keccak)
    && Inv(SVM, s)
    && ConfigTie(st, s)
    && IndexTie(st.adapterInfos, s.adapters)
    && ChainTie(st.chainConfigs, s)
    && OutboxTie(st.outbox, s)
    && Stored(st.attestations, View, keccak, s)
    && Labelled(st.attestations, keccak)
  }

  lemma IntegratorFacts(keccak: seq<u8> -> Digest, st: Storage, s: State, i: Address)
    requires Agrees(keccak, st, s)
    ensures i in st.configs <==> i in s.admins
    ensures i in st.trackers <==> i in s.admins
    ensures i in s.adapters <==> i in s.admins
    ensures i in st.configs ==>
              && s.admins[i] == Admins(st.configs[i].admin, st.configs[i].pendingAdmin)
              && AdaptersOf(s.adapters, i) == st.configs[i].adapterInfos
              && (s.admins[i].pending.Some? ==> s.admins[i].admin.Some?)
    ensures |AdaptersOf(s.adapters, i)| <= MAX_ADAPTERS && Distinct(AdaptersOf(s.adapters, i))
    ensures Lookup(st.trackers, i, 0) == Lookup(s.next, i, 0)
  {
    ListedBelow128(SVM, s, i);
  }

  lemma AdapterFacts(keccak: seq<u8> -> Digest, st: Storage, s: State, side: Side, i: Address, c: Chain, a: Address)
    requires Agrees(keccak, st, s)
    ensures IndexAt(st.adapterInfos, AdaptersOf(s.adapters, i), i, a)
    ensures (i, a) in st.adapterInfos ==> st.adapterInfos[(i, a)] < 128
    ensures (i, a) in st.adapterInfos ==>
              (Bit(BitsOf(Lookup(st.chainConfigs, (i, c), ZEROED_CHAIN), side), st.adapterInfos[(i, a)])
               <==> a in EnabledAt(s.enabled, side, i, c))
    ensures a in EnabledAt(s.enabled, side, i, c) ==> (i, a) in st.adapterInfos && (i, c) in st.chainConfigs && c != 0
  {
    ListedBelow128(SVM, s, i);
    EnabledListed(SVM, s, side, i, c);
    assert IndexAt(st.adapterInfos, AdaptersOf(s.adapters, i), i, a);
    assert ChainAt(st.chainConfigs, s, i, c);
  }

  lemma ChainFacts(keccak: seq<u8> -> Digest, st: Storage, s: State, side: Side, i: Address, c: Chain)
    requires Agrees(keccak, st, s)
    ensures (i, c) in st.chainConfigs <==> (i, c) in s.configured
    ensures (i, c) in st.chainConfigs ==> st.chainConfigs[(i, c)].chainId == c != 0
    ensures var bitmap := BitsOf(Lookup(st.chainConfigs, (i, c), ZEROED_CHAIN), side);
            var members := EnabledAt(s.enabled, side, i, c);
            && Holds(bitmap, AdaptersOf(s.adapters, i), members)
            && (bitmap == 0 <==> members == {})
            && (members != {} ==> i in s.admins)
  {
    assert ChainAt(st.chainConfigs, s, i, c);
    EnabledListed(SVM, s, side, i, c);
    HoldsNonempty(BitsOf(Lookup(st.chainConfigs, (i, c), ZEROED_CHAIN), side), AdaptersOf(s.adapters, i),
                  EnabledAt(s.enabled, side, i, c));
    if EnabledAt(s.enabled, side, i, c) != {} {
      SenderRegistered(SVM, s, side, i, c);
    }
  }

  /**
   * The `src_chain == 0` test tells a fresh account from a stored one: no stored record ever holds
   * source chain 0, so the initialisation never overwrites one. And a stored record that is not
   * executed has an attestation, for this chain.
   */
  lemma StoredIsInitialised(keccak: seq<u8> -> Digest, st: Storage, s: State, m: Message)
    requires Agrees(keccak, st, s)
    ensures var d := keccak(Encode(m));
            && (Lookup(st.attestations, d, ZEROED_INFO).message.srcChain == 0 <==> d !in st.attestations)
            && (d in st.attestations ==> st.attestations[d].message == m && st.attestations[d].messageHash == d
                                         && m.srcChain != 0 && m.dstChain != 0)
            && (d in st.attestations && !st.attestations[d].executed ==>
                  st.attestations[d].attestedAdapters != 0 && Attesters(s.attested, m) != {} && m.dstChain == CHAIN_ID)
  {
    var d := keccak(Encode(m));
    StoredFacts(SVM, s, st.attestations, View, keccak, m);
    AttestersListed(SVM, s, m);
    assert LabelAt(st.attestations, d, m);
  }

  lemma MessageFacts(keccak: seq<u8> -> Digest, st: Storage, s: State, m: Message)
    requires Agrees(keccak, st, s)
    ensures var d := keccak(Encode(m));
            var info := Lookup(st.attestations, d, ZEROED_INFO);
            && RecordTie(info.attestedAdapters, info.executed, m, s)
            && (d in st.attestations <==> Attesters(s.attested, m) != {} || m in s.executed)
  {
    StoredFacts(SVM, s, st.attestations, View, keccak, m);
  }

  lemma AttesterBit(keccak: seq<u8> -> Digest, st: Storage, s: State, m: Message, a: Address)
    requires Agrees(keccak, st, s) && (m.dstAddr, a) in st.adapterInfos
    ensures Bit(Lookup(st.attestations, keccak(Encode(m)), ZEROED_INFO).attestedAdapters,
                st.adapterInfos[(m.dstAddr, a)])
            <==> a in Attesters(s.attested, m)
  {
    hide Agrees;
    MessageFacts(keccak, st, s, m);
    AdapterFacts(keccak, st, s, RecvSide, m.dstAddr, 0, a);
  }

  lemma ParcelFacts(keccak: seq<u8> -> Digest, st: Storage, s: State, x: Address, a: Address)
    requires Agrees(keccak, st, s) && x in st.outbox
    ensures KeyOf(st.outbox[x]) in s.outbox
    ensures var o := st.outbox[x];
            && (a in s.outbox[KeyOf(o)].outstanding ==> (o.srcAddr, a) in st.adapterInfos)
            && ((o.srcAddr, a) in st.adapterInfos ==>
                  (Bit(o.outstanding, st.adapterInfos[(o.srcAddr, a)]) <==> a in s.outbox[KeyOf(o)].outstanding))
  {
    assert OutboxAt(st.outbox, s, x);
    AdapterFacts(keccak, st, s, SendSide, st.outbox[x].srcAddr, 0, a);
  }

  // ---------------------------------------------------------------- steps

  lemma OutboxKeep(s: State, act: Action, outbox: map<Address, OutboxMessage>)
    requires Inv(SVM, s) && OutboxTie(outbox, s) && !act.Send? && !act.PickUp?
    ensures OutboxTie(outbox, Next(SVM, s, act))
  {
    hide Inv, ParcelTie, Enabled, Effect;
    NextGrown(SVM, s, act);
    Frame(SVM, s, act);
    forall x: Address
      ensures OutboxAt(outbox, Next(SVM, s, act), x)
    {
      assert OutboxAt(outbox, s, x);
      if x in outbox {
        ParcelTieGrow(s, SVM, Next(SVM, s, act).adapters, outbox[x], KeyOf(outbox[x]));
      }
    }
  }

  /** Chain configs the action does not touch stay right. */
  lemma ChainKeep(s: State, act: Action, chains: map<(Address, Chain), IntegratorChainConfig>)
    requires Inv(SVM, s) && ChainTie(chains, s) && !act.Enable? && !act.Disable?
    ensures ChainTie(chains, Next(SVM, s, act))
  {
    hide Inv, Enabled, Effect, Holds;
    var t := Next(SVM, s, act);
    NextGrown(SVM, s, act);
    Frame(SVM, s, act);
    forall i: Address, c: Chain
      ensures ChainAt(chains, t, i, c)
    {
      assert ChainAt(chains, s, i, c);
      var config := Lookup(chains, (i, c), ZEROED_CHAIN);
      EnabledListed(SVM, s, SendSide, i, c);
      EnabledListed(SVM, s, RecvSide, i, c);
      HoldsExtend(config.sendBitmap, AdaptersOf(s.adapters, i), AdaptersOf(t.adapters, i),
                  EnabledAt(s.enabled, SendSide, i, c));
      HoldsExtend(config.recvBitmap, AdaptersOf(s.adapters, i), AdaptersOf(t.adapters, i),
                  EnabledAt(s.enabled, RecvSide, i, c));
    }
  }

  lemma AdminConfig(st: Storage, s: State, act: Action)
    requires ConfigTie(st, s) && ChangesAdmin(act) && !act.Register? && Enabled(SVM, s, act)
    requires act.integrator in st.configs
    ensures var admins := AdminsAfter(act);
            var after := st.configs[act.integrator].(admin := admins.admin, pendingAdmin := admins.pending);
            ConfigTie(st.(configs := st.configs[act.integrator := after]), Next(SVM, s, act))
  {
    hide Enabled, Effect, Next, SequenceTie, AdaptersOf, AdminsAfter;
    Frame(SVM, s, act);
    AdminEffect(SVM, s, act);
  }

  lemma AdminStep(keccak: seq<u8> -> Digest, st: Storage, s: State, act: Action)
    requires Agrees(keccak, st, s) && ChangesAdmin(act) && !act.Register? && Enabled(SVM, s, act)
    requires act.integrator in st.configs
    ensures var admins := AdminsAfter(act);
            var after := st.configs[act.integrator].(admin := admins.admin, pendingAdmin := admins.pending);
            Agrees(keccak, st.(configs := st.configs[act.integrator := after]), Next(SVM, s, act))
  {
    hide Inv, IndexTie, ChainTie, ConfigTie, CollisionFree, OutboxTie, Stored, Labelled, Enabled, Effect;
    NextInv(SVM, s, act);
    Frame(SVM, s, act);
    AdminConfig(st, s, act);
    OutboxKeep(s, act, st.outbox);
    ChainKeep(s, act, st.chainConfigs);
    StoredKeep(SVM, s, act, st.attestations, View, keccak);
  }

  lemma RegisterStep(keccak: seq<u8> -> Digest, st: Storage, s: State, i: Address, admin: Address)
    requires Agrees(keccak, st, s) && Enabled(SVM, s, Register(i, admin))
    ensures Agrees(keccak, st.(configs := st.configs[i := IntegratorConfig(Some(admin), None, [])],
                               trackers := st.trackers[i := 0]),
                   Next(SVM, s, Register(i, admin)))
  {
    hide Inv, IndexTie, ChainTie, SequenceTie, CollisionFree, OutboxTie, Stored, Labelled;
    var act := Register(i, admin);
    IntegratorFacts(keccak, st, s, i);
    NextInv(SVM, s, act);
    Frame(SVM, s, act);
    IndexTieRegister(st.adapterInfos, s.adapters, i);
    SequenceTieRegister(st.trackers, s.next, i);
    OutboxKeep(s, act, st.outbox);
    ChainKeep(s, act, st.chainConfigs);
    StoredKeep(SVM, s, act, st.attestations, View, keccak);
  }

  lemma AddConfig(st: Storage, s: State, act: Action, infos: map<(Address, Address), u8>)
    requires ConfigTie(st, s) && act.AddAdapter? && Enabled(SVM, s, act) && act.integrator in st.configs
    ensures var config := st.configs[act.integrator];
            var after := config.(adapterInfos := config.adapterInfos + [act.adapter]);
            ConfigTie(st.(configs := st.configs[act.integrator := after], adapterInfos := infos), Next(SVM, s, act))
  {
    hide Enabled, Effect, Next, SequenceTie;
    Frame(SVM, s, act);
    AddEffect(SVM, s, act);
  }

  lemma AddStep(keccak: seq<u8> -> Digest, st: Storage, s: State, act: Action)
    requires Agrees(keccak, st, s) && act.AddAdapter? && Enabled(SVM, s, act) && act.integrator in st.configs
    requires |st.configs[act.integrator].adapterInfos| < 128
    ensures var config := st.configs[act.integrator];
            Agrees(keccak,
                   st.(configs := st.configs[
                         act.integrator := config.(adapterInfos := config.adapterInfos + [act.adapter])],
                       adapterInfos := st.adapterInfos[(act.integrator, act.adapter) := |config.adapterInfos|]),
                   Next(SVM, s, act))
  {
    hide Inv, IndexTie, ChainTie, SequenceTie, CollisionFree, OutboxTie, Stored, Labelled, Enabled, Effect,
         ConfigTie;
    IntegratorFacts(keccak, st, s, act.integrator);
    NextInv(SVM, s, act);
    Frame(SVM, s, act);
    AddEffect(SVM, s, act);
    AddConfig(st, s, act,
              st.adapterInfos[(act.integrator, act.adapter) := |st.configs[act.integrator].adapterInfos|]);
    IndexTieAdd(st.adapterInfos, s.adapters, act.integrator, act.adapter);
    OutboxKeep(s, act, st.outbox);
    ChainKeep(s, act, st.chainConfigs);
    StoredKeep(SVM, s, act, st.attestations, View, keccak);
  }

  function WithBits(config: IntegratorChainConfig, side: Side, bits: u128): IntegratorChainConfig {
    if side == SendSide then config.(sendBitmap := bits) else config.(recvBitmap := bits)
  }

  /** A chain config with one bit set or cleared; `config` is the stored one or one just initialised. */
  lemma ChainSet(s: State, act: Action, chains: map<(Address, Chain), IntegratorChainConfig>,
                 config: IntegratorChainConfig, bits: u128, index: u8)
    requires Inv(SVM, s) && ChainTie(chains, s) && (act.Enable? || act.Disable?) && Enabled(SVM, s, act)
    requires config == Lookup(chains, (act.integrator, act.chain), ZEROED_CHAIN).(chainId := act.chain)
    requires act.Disable? ==> (act.integrator, act.chain) in chains
    requires index < |AdaptersOf(s.adapters, act.integrator)|
    requires AdaptersOf(s.adapters, act.integrator)[index] == act.adapter
    requires var before := BitsOf(config, act.side);
             if act.Enable? then BitSetAt(before, bits, index) else BitClearedAt(before, bits, index)
    ensures ChainTie(chains[(act.integrator, act.chain) := WithBits(config, act.side, bits)], Next(SVM, s, act))
  {
    hide Inv, Effect, Holds, BitSetAt, BitClearedAt;
    var i, c, t := act.integrator, act.chain, Next(SVM, s, act);
    var list, members := AdaptersOf(s.adapters, i), EnabledAt(s.enabled, act.side, i, c);
    var after := chains[(i, c) := WithBits(config, act.side, bits)];
    ListedBelow128(SVM, s, i);
    EnabledListed(SVM, s, act.side, i, c);
    Frame(SVM, s, act);
    SetEffect(SVM, s, act);
    assert ChainAt(chains, s, i, c);
    if act.Enable? {
      HoldsInsert(BitsOf(config, act.side), bits, list, members, index);
    } else {
      HoldsRemove(BitsOf(config, act.side), bits, list, members, index);
    }
    forall j: Address, d: Chain
      ensures ChainAt(after, t, j, d)
    {
      assert ChainAt(chains, s, j, d);
      assert (j, d) != (i, c) ==> Lookup(after, (j, d), ZEROED_CHAIN) == Lookup(chains, (j, d), ZEROED_CHAIN);
    }
  }

  lemma SetStep(keccak: seq<u8> -> Digest, st: Storage, s: State, act: Action, config: IntegratorChainConfig,
                bits: u128)
    requires Agrees(keccak, st, s) && (act.Enable? || act.Disable?) && Enabled(SVM, s, act)
    requires config == Lookup(st.chainConfigs, (act.integrator, act.chain), ZEROED_CHAIN).(chainId := act.chain)
    requires (act.integrator, act.adapter) in st.adapterInfos
    requires var before, index := BitsOf(config, act.side), st.adapterInfos[(act.integrator, act.adapter)];
             if act.Enable? then BitSetAt(before, bits, index) else BitClearedAt(before, bits, index)
    ensures Agrees(keccak, st.(chainConfigs :=
                                 st.chainConfigs[(act.integrator, act.chain) := WithBits(config, act.side, bits)]),
                   Next(SVM, s, act))
  {
    hide Inv, IndexTie, ChainTie, SequenceTie, CollisionFree, OutboxTie, Stored, Labelled, Effect, BitSetAt,
         BitClearedAt;
    AdapterFacts(keccak, st, s, act.side, act.integrator, act.chain, act.adapter);
    NextInv(SVM, s, act);
    Frame(SVM, s, act);
    ChainSet(s, act, st.chainConfigs, config, bits, st.adapterInfos[(act.integrator, act.adapter)]);
    OutboxKeep(s, act, st.outbox);
    StoredKeep(SVM, s, act, st.attestations, View, keccak);
  }

  /** A new account for a new parcel. */
  lemma OutboxSend(s: State, act: Action, outbox: map<Address, OutboxMessage>, x: Address, o: OutboxMessage)
    requires Inv(SVM, s) && OutboxTie(outbox, s) && act.Send? && Enabled(SVM, s, act) && x !in outbox
    requires KeyOf(o) == OutboxKey(act.caller, Lookup(s.next, act.caller, 0))
    requires ParcelTie(o, Parcel(act.dstChain, act.dstAddr, act.payloadHash,
                                 EnabledAt(s.enabled, SendSide, act.caller, act.dstChain)),
                       AdaptersOf(s.adapters, act.caller))
    ensures OutboxTie(outbox[x := o], Next(SVM, s, act))
  {
    hide Inv, Effect, Enabled, Next, ParcelTie, EnabledAt, AdaptersOf;
    var after, t := outbox[x := o], Next(SVM, s, act);
    Frame(SVM, s, act);
    SendEffect(SVM, s, act);
    forall y: Address
      ensures OutboxAt(after, t, y) && (y in outbox ==> KeyOf(outbox[y]) != KeyOf(o))
    {
      assert OutboxAt(outbox, s, y);
    }
    forall k | k in t.outbox
      ensures exists y :: y in after && KeyOf(after[y]) == k
    {
      if k == KeyOf(o) {
        assert KeyOf(after[x]) == k;
      } else {
        var y :| y in outbox && KeyOf(outbox[y]) == k;
        assert y in after && KeyOf(after[y]) == k;
      }
    }
  }

  /** The outstanding bitmap of one account changes, or the account closes. */
  lemma OutboxPickUp(s: State, act: Action, outbox: map<Address, OutboxMessage>, x: Address, bits: u128)
    requires Inv(SVM, s) && OutboxTie(outbox, s) && act.PickUp? && Enabled(SVM, s, act)
    requires x in outbox && KeyOf(outbox[x]) == OutboxKey(act.integrator, act.sequence)
    requires var left := s.outbox[KeyOf(outbox[x])].outstanding - {act.caller};
             Holds(bits, AdaptersOf(s.adapters, act.integrator), left) && (bits == 0 <==> left == {})
    ensures OutboxTie(if bits == 0 then outbox - {x} else outbox[x := outbox[x].(outstanding := bits)],
                      Next(SVM, s, act))
  {
    hide Inv, Effect, Enabled, Holds;
    var after := if bits == 0 then outbox - {x} else outbox[x := outbox[x].(outstanding := bits)];
    var t := Next(SVM, s, act);
    Frame(SVM, s, act);
    PickUpEffect(SVM, s, act);
    assert OutboxAt(outbox, s, x);
    forall y: Address
      ensures OutboxAt(after, t, y)
    {
      assert OutboxAt(outbox, s, y);
    }
    forall k | k in t.outbox
      ensures exists y :: y in after && KeyOf(after[y]) == k
    {
      var y :| y in outbox && KeyOf(outbox[y]) == k;
      assert y in after && KeyOf(after[y]) == k;
    }
  }

  lemma SendStep(keccak: seq<u8> -> Digest, st: Storage, s: State, act: Action, x: Address, o: OutboxMessage)
    requires Agrees(keccak, st, s) && act.Send? && Enabled(SVM, s, act) && x !in st.outbox
    requires o == OutboxMessage(act.caller, Lookup(st.trackers, act.caller, 0), act.dstChain, act.dstAddr,
                                act.payloadHash,
                                Lookup(st.chainConfigs, (act.caller, act.dstChain), ZEROED_CHAIN).sendBitmap)
    ensures o.sequence < MAX_U64
    ensures Agrees(keccak, st.(trackers := st.trackers[act.caller := o.sequence + 1], outbox := st.outbox[x := o]),
                   Next(SVM, s, act))
  {
    hide Inv, IndexTie, ChainTie, SequenceTie, CollisionFree, Stored, Labelled, OutboxTie, Effect, Holds;
    IntegratorFacts(keccak, st, s, act.caller);
    ChainFacts(keccak, st, s, SendSide, act.caller, act.dstChain);
    SequenceTieUse(st.trackers, s.next, act.caller);
    NextInv(SVM, s, act);
    Frame(SVM, s, act);
    SendEffect(SVM, s, act);
    OutboxSend(s, act, st.outbox, x, o);
    ChainKeep(s, act, st.chainConfigs);
    StoredKeep(SVM, s, act, st.attestations, View, keccak);
  }

  lemma PickUpStep(keccak: seq<u8> -> Digest, st: Storage, s: State, act: Action, x: Address, bits: u128)
    requires Agrees(keccak, st, s) && act.PickUp? && Enabled(SVM, s, act)
    requires x in st.outbox && KeyOf(st.outbox[x]) == OutboxKey(act.integrator, act.sequence)
    requires (act.integrator, act.caller) in st.adapterInfos
    requires BitClearedAt(st.outbox[x].outstanding, bits, st.adapterInfos[(act.integrator, act.caller)])
    ensures Agrees(keccak,
                   st.(outbox := if bits == 0 then st.outbox - {x}
                                 else st.outbox[x := st.outbox[x].(outstanding := bits)]),
                   Next(SVM, s, act))
    ensures bits == 0 <==> KeyOf(st.outbox[x]) !in Next(SVM, s, act).outbox
  {
    hide Inv, IndexTie, ChainTie, SequenceTie, CollisionFree, Stored, Labelled, Effect, Enabled, Holds, BitClearedAt;
    AdapterFacts(keccak, st, s, SendSide, act.integrator, 0, act.caller);
    NextInv(SVM, s, act);
    Frame(SVM, s, act);
    assert OutboxAt(st.outbox, s, x);
    PickUpBit(SVM, s, act, st.outbox[x], bits, st.adapterInfos[(act.integrator, act.caller)]);
    PickUpEffect(SVM, s, act);
    OutboxPickUp(s, act, st.outbox, x, bits);
    ChainKeep(s, act, st.chainConfigs);
    StoredKeep(SVM, s, act, st.attestations, View, keccak);
  }

  lemma RecordStep(keccak: seq<u8> -> Digest, st: Storage, s: State, act: Action, info: AttestationInfo)
    requires Agrees(keccak, st, s) && (act.Attest? || act.Recv? || act.Exec?) && Enabled(SVM, s, act)
    requires RecordTie(info.attestedAdapters, info.executed, act.message, Next(SVM, s, act))
    requires info.message == act.message && info.messageHash == keccak(Encode(act.message))
    ensures Agrees(keccak, st.(attestations := st.attestations[keccak(Encode(act.message)) := info]), Next(SVM, s, act))
  {
    hide Inv, IndexTie, ChainTie, SequenceTie, CollisionFree, OutboxTie, Stored, Enabled, Effect, RecordTie;
    var after := st.attestations[keccak(Encode(act.message)) := info];
    NextInv(SVM, s, act);
    Frame(SVM, s, act);
    OutboxKeep(s, act, st.outbox);
    ChainKeep(s, act, st.chainConfigs);
    StoredWrite(SVM, s, act, st.attestations, View, keccak, info);
    forall m: Message
      ensures LabelAt(after, keccak(Encode(m)), m)
    {
      SameDigest(keccak, m, act.message);
      assert LabelAt(st.attestations, keccak(Encode(m)), m);
    }
  }

  lemma AttestStep(keccak: seq<u8> -> Digest, st: Storage, s: State, act: Action, info: AttestationInfo, bits: u128)
    requires Agrees(keccak, st, s) && act.Attest? && Enabled(SVM, s, act)
    requires (act.message.dstAddr, act.caller) in st.adapterInfos
    requires info.message == act.message && info.messageHash == keccak(Encode(act.message))
    requires View(info) == View(Lookup(st.attestations, keccak(Encode(act.message)), ZEROED_INFO))
    requires BitSetAt(info.attestedAdapters, bits, st.adapterInfos[(act.message.dstAddr, act.caller)])
    ensures Agrees(keccak, st.(attestations := st.attestations[
                                 keccak(Encode(act.message)) := info.(attestedAdapters := bits)]),
                   Next(SVM, s, act))
  {
    hide Agrees, Enabled, Effect, BitSetAt, RecordTie;
    var m := act.message;
    AdapterFacts(keccak, st, s, RecvSide, m.dstAddr, m.srcChain, act.caller);
    MessageFacts(keccak, st, s, m);
    AgreesInv(keccak, st, s);
    RecordTieAttest(SVM, s, act, info.attestedAdapters, bits, info.executed, st.adapterInfos[(m.dstAddr, act.caller)]);
    RecordStep(keccak, st, s, act, info.(attestedAdapters := bits));
  }

  lemma ExecuteStep(keccak: seq<u8> -> Digest, st: Storage, s: State, act: Action, info: AttestationInfo)
    requires Agrees(keccak, st, s) && (act.Recv? || act.Exec?) && Enabled(SVM, s, act)
    requires info.message == act.message && info.messageHash == keccak(Encode(act.message))
    requires View(info) == View(Lookup(st.attestations, keccak(Encode(act.message)), ZEROED_INFO))
    ensures Agrees(keccak, st.(attestations := st.attestations[
                                 keccak(Encode(act.message)) := info.(executed := true)]),
                   Next(SVM, s, act))
  {
    hide Agrees, Enabled, Next, Holds;
    MessageFacts(keccak, st, s, act.message);
    RecordTieExecute(SVM, s, act, info.attestedAdapters, act.message);
    RecordStep(keccak, st, s, act, info.(executed := true));
  }

  /** When the program accepts a receive: the chain config and the record exist and the record is not executed. */
  lemma RecvGuard(keccak: seq<u8> -> Digest, st: Storage, s: State, m: Message)
    requires Agrees(keccak, st, s)
    ensures var d := keccak(Encode(m));
            Enabled(SVM, s, Recv(m)) <==>
            (m.dstAddr, m.srcChain) in st.chainConfigs && d in st.attestations && !st.attestations[d].executed
  {
    hide Agrees, Holds, Encode;
    ChainFacts(keccak, st, s, RecvSide, m.dstAddr, m.srcChain);
    MessageFacts(keccak, st, s, m);
    StoredIsInitialised(keccak, st, s, m);
  }

  /** When the program accepts an execution: the record tells, or, for a fresh account, the chain ids. */
  lemma ExecGuard(keccak: seq<u8> -> Digest, st: Storage, s: State, m: Message)
    requires Agrees(keccak, st, s)
    ensures var info := Lookup(st.attestations, keccak(Encode(m)), ZEROED_INFO);
            && (info.message.srcChain == 0 ==> info == ZEROED_INFO)
            && (info.message.srcChain != 0 ==> info.message == m && info.messageHash == keccak(Encode(m)))
            && (Enabled(SVM, s, Exec(m)) <==>
                !info.executed && (info.message.srcChain == 0 ==> m.srcChain != 0 && m.dstChain != 0))
  {
    hide Agrees, Holds, Encode;
    MessageFacts(keccak, st, s, m);
    StoredIsInitialised(keccak, st, s, m);
  }

  lemma AgreesInv(keccak: seq<u8> -> Digest, st: Storage, s: State)
    requires Agrees(keccak, st, s)
    ensures Inv(SVM, s)
  {
  }

  // ---------------------------------------------------------------- the program

  /** Transactions: a send names a new account for the message, a pickup names an account. */
  datatype Transaction =
    | Call(act: Action)
    | SendTo(caller: Address, dstChain: Chain, dstAddr: Address, payloadHash: u256, account: Address)
    | PickUpFrom(caller: Address, account: Address)

  predicate WellFormed(tx: Transaction) {
    tx.Call? ==> !tx.act.Send? && !tx.act.PickUp?
  }

  /** Which message each outbox account in use holds. */
  function Held(outbox: map<Address, OutboxMessage>): map<Address, OutboxKey> {
    map x | x in outbox :: KeyOf(outbox[x])
  }

  /** The protocol action of a transaction; none for a send to a used account or a pickup from an unused one. */
  function ActionsOf(held: map<Address, OutboxKey>, tx: Transaction): seq<Action> {
    match tx
    case Call(act) => [act]
    case SendTo(c, chain, dstAddr, payloadHash, x) =>
      if x in held then [] else [Send(c, chain, dstAddr, payloadHash, [])]
    case PickUpFrom(c, x) =>
      if x !in held then [] else [PickUp(c, held[x].integrator, held[x].sequence)]
  }

  ghost function StateAfter(s: State, acts: seq<Action>): State {
    if acts == [] then s else Next(SVM, s, acts[0])
  }

  /** An accepted send fills its account, the last accepted pickup closes it; nothing else touches accounts. */
  ghost function HeldAfter(s: State, held: map<Address, OutboxKey>, tx: Transaction): map<Address, OutboxKey> {
    var acts := ActionsOf(held, tx);
    if tx.Call? || acts == [] || !Enabled(SVM, s, acts[0]) then held
    else if tx.SendTo? then held[tx.account := OutboxKey(tx.caller, Lookup(s.next, tx.caller, 0))]
    else if held[tx.account] in Next(SVM, s, acts[0]).outbox then held
    else held - {tx.account}
  }

  /** The actions of a sequence of transactions, one entry per transaction. */
  ghost function Entries(s: State, held: map<Address, OutboxKey>, txs: seq<Transaction>): seq<seq<Action>>
    decreases |txs|, 0
  {
    if txs == [] then []
    else
      var n := |txs| - 1;
      Entries(s, held, txs[..n]) + [ActionsOf(HeldBy(s, held, txs[..n]), txs[n])]
  }

  /** The accounts in use after a sequence of transactions. */
  ghost function HeldBy(s: State, held: map<Address, OutboxKey>, txs: seq<Transaction>): map<Address, OutboxKey>
    decreases |txs|, 1
  {
    if txs == [] then held
    else
      var n := |txs| - 1;
      HeldAfter(Run(SVM, s, Flat(Entries(s, held, txs[..n]))), HeldBy(s, held, txs[..n]), txs[n])
  }

  function Flat(entries: seq<seq<Action>>): seq<Action> {
    if entries == [] then [] else Flat(entries[..|entries| - 1]) + entries[|entries| - 1]
  }

  /** Which transactions succeed: those whose action is accepted in the state they meet. */
  ghost function Outcomes(s: State, held: map<Address, OutboxKey>, txs: seq<Transaction>): seq<bool> {
    if txs == [] then []
    else
      var n := |txs| - 1;
      var acts := ActionsOf(HeldBy(s, held, txs[..n]), txs[n]);
      Outcomes(s, held, txs[..n])
      + [acts != [] && Enabled(SVM, Run(SVM, s, Flat(Entries(s, held, txs[..n]))), acts[0])]
  }

  lemma TraceStart(s: State, held: map<Address, OutboxKey>, txs: seq<Transaction>)
    ensures Outcomes(s, held, txs[..0]) == [] && HeldBy(s, held, txs[..0]) == held
    ensures Run(SVM, s, Flat(Entries(s, held, txs[..0]))) == s
  {
  }

  lemma TraceExtend(s: State, held: map<Address, OutboxKey>, txs: seq<Transaction>, k: nat)
    requires k < |txs|
    ensures var t, now := Run(SVM, s, Flat(Entries(s, held, txs[..k]))), HeldBy(s, held, txs[..k]);
            var acts := ActionsOf(now, txs[k]);
            && Run(SVM, s, Flat(Entries(s, held, txs[..k + 1]))) == StateAfter(t, acts)
            && HeldBy(s, held, txs[..k + 1]) == HeldAfter(t, now, txs[k])
            && Outcomes(s, held, txs[..k + 1])
               == Outcomes(s, held, txs[..k]) + [acts != [] && Enabled(SVM, t, acts[0])]
  {
    hide Enabled, Next, Run, Flat, HeldAfter, StateAfter;
    assert txs[..k + 1][..k] == txs[..k];
    FlatExtend(s, Entries(s, held, txs[..k]), ActionsOf(HeldBy(s, held, txs[..k]), txs[k]));
  }

  /** One entry and one outcome per transaction, and the outcomes are acceptance in the flat run. */
  lemma {:induction false} OutcomesSay(s: State, held: map<Address, OutboxKey>, txs: seq<Transaction>)
    ensures var entries, oks := Entries(s, held, txs), Outcomes(s, held, txs);
            && |entries| == |oks| == |txs|
            && forall k :: 0 <= k < |txs| ==>
                 oks[k] == (entries[k] != [] && Enabled(SVM, Run(SVM, s, Flat(entries[..k])), entries[k][0]))
    decreases |txs|
  {
    hide Enabled, Next, Run, Flat, ActionsOf, HeldBy;
    if txs != [] {
      var n := |txs| - 1;
      OutcomesSay(s, held, txs[..n]);
      var before, entries := Entries(s, held, txs[..n]), Entries(s, held, txs);
      assert entries[..n] == before;
      assert forall k :: 0 <= k < n ==> entries[..k] == before[..k];
    }
  }

  lemma FlatExtend(s: State, entries: seq<seq<Action>>, acts: seq<Action>)
    requires |acts| <= 1
    ensures Run(SVM, s, Flat(entries + [acts])) == StateAfter(Run(SVM, s, Flat(entries)), acts)
  {
    hide Next;
    var flat := Flat(entries);
    assert (entries + [acts])[..|entries|] == entries;
    assert acts == [] ==> flat + acts == flat;
    assert acts != [] ==> acts == [acts[0]] && (flat + acts)[..|flat|] == flat;
  }

  class Program {
    const keccak: seq<u8> -> Digest

    var configs: map<Address, IntegratorConfig>
    var trackers: map<Address, u64>
    var adapterInfos: map<(Address, Address), u8>
    var chainConfigs: map<(Address, Chain), IntegratorChainConfig>
    var attestations: map<Digest, AttestationInfo>
    var outbox: map<Address, OutboxMessage>

    ghost var model: State

    ghost function Store(): Storage
      reads this
    {
      Storage(configs, trackers, adapterInfos, chainConfigs, attestations, outbox)
    }

    ghost predicate Valid()
      reads this
    {
      Agrees(keccak, Store(), model)
    }

    constructor (keccak: seq<u8> -> Digest)
      requires CollisionFree(keccak)
      ensures Valid() && model == INITIAL && this.keccak == keccak
    {
      this.keccak := keccak;
      configs, trackers, adapterInfos, chainConfigs := map[], map[], map[], map[];
      attestations, outbox := map[], map[];
      model := INITIAL;
      new;
      InitialInv(SVM);
      HoldsEmpty<Address>([]);
    }

    predicate CheckAdmin(i: Address, signer: Address)
      reads this
    {
      i in configs && configs[i].admin == Some(signer) && configs[i].pendingAdmin.None?
    }

    // ---------------------------------------------------------------- admin instructions

    method Register(caller: Address, admin: Address) returns (ok: bool)
      requires Valid()
      modifies `configs, `trackers, `model
      ensures Valid()
      ensures Stepped(SVM, old(model), Protocol.Register(caller, admin), ok, model)
      ensures configs == if ok then old(configs)[caller := IntegratorConfig(Some(admin), None, [])] else old(configs)
    {
      hide Agrees, Effect;
      IntegratorFacts(keccak, Store(), model, caller);
      if caller in configs || caller in trackers {
        return false;
      }
      RegisterStep(keccak, Store(), model, caller, admin);
      configs := configs[caller := IntegratorConfig(Some(admin), None, [])];
      trackers := trackers[caller := 0];
      model := Next(SVM, model, Protocol.Register(caller, admin));
      return true;
    }

    method UpdateAdmin(caller: Address, integrator: Address, newAdmin: Address) returns (ok: bool)
      requires Valid()
      modifies `configs, `model
      ensures Valid()
      ensures Stepped(SVM, old(model), Protocol.UpdateAdmin(caller, integrator, newAdmin), ok, model)
      ensures !ok ==> configs == old(configs)
      ensures ok ==>
                && integrator in old(configs)
                && configs == old(configs)[
                     integrator := old(configs)[integrator].(admin := Some(newAdmin), pendingAdmin := None)]
    {
      hide Agrees, Effect;
      IntegratorFacts(keccak, Store(), model, integrator);
      if !CheckAdmin(integrator, caller) {
        return false;
      }
      ghost var act := Protocol.UpdateAdmin(caller, integrator, newAdmin);
      AdminStep(keccak, Store(), model, act);
      configs := configs[integrator := configs[integrator].(admin := Some(newAdmin))];
      model := Next(SVM, model, act);
      return true;
    }

    method TransferAdmin(caller: Address, integrator: Address, newAdmin: Address) returns (ok: bool)
      requires Valid()
      modifies `configs, `model
      ensures Valid()
      ensures Stepped(SVM, old(model), Protocol.TransferAdmin(caller, integrator, newAdmin), ok, model)
      ensures !ok ==> configs == old(configs)
      ensures ok ==>
                && integrator in old(configs)
                && configs == old(configs)[
                     integrator := old(configs)[integrator].(admin := Some(caller), pendingAdmin := Some(newAdmin))]
    {
      hide Agrees, Effect;
      IntegratorFacts(keccak, Store(), model, integrator);
      if !CheckAdmin(integrator, caller) {
        return false;
      }
      ghost var act := Protocol.TransferAdmin(caller, integrator, newAdmin);
      AdminStep(keccak, Store(), model, act);
      configs := configs[integrator := configs[integrator].(pendingAdmin := Some(newAdmin))];
      model := Next(SVM, model, act);
      return true;
    }

    method ClaimAdmin(caller: Address, integrator: Address) returns (ok: bool)
      requires Valid()
      modifies `configs, `model
      ensures Valid()
      ensures Stepped(SVM, old(model), Protocol.ClaimAdmin(caller, integrator), ok, model)
      ensures !ok ==> configs == old(configs)
      ensures ok ==>
                && integrator in old(configs)
                && configs == old(configs)[
                     integrator := old(configs)[integrator].(admin := Some(caller), pendingAdmin := None)]
    {
      hide Agrees, Effect;
      IntegratorFacts(keccak, Store(), model, integrator);
      if integrator !in configs {
        return false;
      }
      var config := configs[integrator];
      if config.admin.None? || config.pendingAdmin.None?
         || (config.pendingAdmin != Some(caller) && config.admin != Some(caller)) {
        return false;
      }
      ghost var act := Protocol.ClaimAdmin(caller, integrator);
      AdminStep(keccak, Store(), model, act);
      configs := configs[integrator := config.(admin := Some(caller), pendingAdmin := None)];
      model := Next(SVM, model, act);
      return true;
    }

    method DiscardAdmin(caller: Address, integrator: Address) returns (ok: bool)
      requires Valid()
      modifies `configs, `model
      ensures Valid()
      ensures Stepped(SVM, old(model), Protocol.DiscardAdmin(caller, integrator), ok, model)
      ensures !ok ==> configs == old(configs)
      ensures ok ==>
                && integrator in old(configs)
                && configs == old(configs)[
                     integrator := old(configs)[integrator].(admin := None, pendingAdmin := None)]
    {
      hide Agrees, Effect;
      IntegratorFacts(keccak, Store(), model, integrator);
      if !CheckAdmin(integrator, caller) {
        return false;
      }
      ghost var act := Protocol.DiscardAdmin(caller, integrator);
      AdminStep(keccak, Store(), model, act);
      configs := configs[integrator := configs[integrator].(admin := None)];
      model := Next(SVM, model, act);
      return true;
    }

    // ---------------------------------------------------------------- adapter instructions

    method AddAdapter(caller: Address, integrator: Address, adapter: Address) returns (ok: bool)
      requires Valid()
      modifies `configs, `adapterInfos, `model
      ensures Valid()
      ensures Stepped(SVM, old(model), Protocol.AddAdapter(caller, integrator, adapter), ok, model)
    {
      hide Agrees, Effect;
      IntegratorFacts(keccak, Store(), model, integrator);
      AdapterFacts(keccak, Store(), model, SendSide, integrator, 0, adapter);
      if !CheckAdmin(integrator, caller) || (integrator, adapter) in adapterInfos {
        return false;
      }
      var config := configs[integrator];
      var index := |config.adapterInfos| % 256;
      if |config.adapterInfos| >= MAX_ADAPTERS {
        return false;
      }
      ghost var act := Protocol.AddAdapter(caller, integrator, adapter);
      AddStep(keccak, Store(), model, act);
      configs := configs[integrator := config.(adapterInfos := config.adapterInfos + [adapter])];
      adapterInfos := adapterInfos[(integrator, adapter) := index];
      model := Next(SVM, model, act);
      return true;
    }

    /** enable_send_adapter and enable_recv_adapter: the chain config is created on first use. */
    method EnableAdapter(caller: Address, side: Side, integrator: Address, chain: Chain, adapter: Address)
      returns (ok: bool)
      requires Valid()
      modifies `chainConfigs, `model
      ensures Valid()
      ensures Stepped(SVM, old(model), Enable(caller, side, integrator, chain, adapter), ok, model)
    {
      hide Agrees, Effect, BitSetAt, BitClearedAt;
      IntegratorFacts(keccak, Store(), model, integrator);
      AdapterFacts(keccak, Store(), model, side, integrator, chain, adapter);
      ChainInitialised(keccak, Store(), model, integrator, chain);
      if !CheckAdmin(integrator, caller) || chain == 0 || (integrator, adapter) !in adapterInfos {
        return false;
      }
      var config := Lookup(chainConfigs, (integrator, chain), ZEROED_CHAIN);
      if config.chainId == 0 {
        config := IntegratorChainConfig(chain, 0, 0);
      }
      var index := adapterInfos[(integrator, adapter)];
      if RustGet(BitsOf(config, side), index) != Some(false) {
        return false;
      }
      var bits := RustSet(BitsOf(config, side), index, true);
      ghost var act := Enable(caller, side, integrator, chain, adapter);
      SetStep(keccak, Store(), model, act, config, bits.value);
      chainConfigs := chainConfigs[(integrator, chain) := WithBits(config, side, bits.value)];
      model := Next(SVM, model, act);
      return true;
    }

    /** disable_send_adapter and disable_recv_adapter. */
    method DisableAdapter(caller: Address, side: Side, integrator: Address, chain: Chain, adapter: Address)
      returns (ok: bool)
      requires Valid()
      modifies `chainConfigs, `model
      ensures Valid()
      ensures Stepped(SVM, old(model), Disable(caller, side, integrator, chain, adapter), ok, model)
    {
      hide Agrees, Effect, BitSetAt, BitClearedAt;
      IntegratorFacts(keccak, Store(), model, integrator);
      AdapterFacts(keccak, Store(), model, side, integrator, chain, adapter);
      ChainInitialised(keccak, Store(), model, integrator, chain);
      if !CheckAdmin(integrator, caller) || (integrator, chain) !in chainConfigs
         || (integrator, adapter) !in adapterInfos {
        return false;
      }
      var config, index := chainConfigs[(integrator, chain)], adapterInfos[(integrator, adapter)];
      if RustGet(BitsOf(config, side), index) != Some(true) {
        return false;
      }
      var bits := RustSet(BitsOf(config, side), index, false);
      ghost var act := Disable(caller, side, integrator, chain, adapter);
      SetStep(keccak, Store(), model, act, config, bits.value);
      chainConfigs := chainConfigs[(integrator, chain) := WithBits(config, side, bits.value)];
      model := Next(SVM, model, act);
      return true;
    }

    // ---------------------------------------------------------------- sending

    method SendMessage(caller: Address, dstChain: Chain, dstAddr: Address, payloadHash: u256, account: Address)
      returns (ok: bool)
      requires Valid()
      modifies `trackers, `outbox, `model
      ensures Valid()
      ensures account in old(outbox) ==> !ok && model == old(model)
      ensures account !in old(outbox) ==>
                Stepped(SVM, old(model), Send(caller, dstChain, dstAddr, payloadHash, []), ok, model)
      ensures !ok ==> outbox == old(outbox)
      ensures ok ==>
                && account in outbox && outbox == old(outbox)[account := outbox[account]]
                && KeyOf(outbox[account]) == OutboxKey(caller, Lookup(old(model).next, caller, 0))
    {
      hide Agrees, Effect, Holds;
      IntegratorFacts(keccak, Store(), model, caller);
      ChainFacts(keccak, Store(), model, SendSide, caller, dstChain);
      if account in outbox || (caller, dstChain) !in chainConfigs || caller !in trackers {
        return false;
      }
      var outstanding := chainConfigs[(caller, dstChain)].sendBitmap;
      if outstanding == 0 || trackers[caller] == MAX_U64 {
        return false;
      }
      var sequence := trackers[caller];
      var o := OutboxMessage(caller, sequence, dstChain, dstAddr, payloadHash, outstanding);
      ghost var act := Send(caller, dstChain, dstAddr, payloadHash, []);
      SendStep(keccak, Store(), model, act, account, o);
      trackers := trackers[caller := sequence + 1];
      outbox := outbox[account := o];
      model := Next(SVM, model, act);
      return true;
    }

    method PickUpMessage(caller: Address, account: Address) returns (ok: bool)
      requires Valid()
      modifies `outbox, `model
      ensures Valid()
      ensures account !in old(outbox) ==> !ok && model == old(model)
      ensures account in old(outbox) ==>
                var o := old(outbox)[account];
                Stepped(SVM, old(model), PickUp(caller, o.srcAddr, o.sequence), ok, model)
      ensures !ok ==> outbox == old(outbox)
      ensures ok ==>
                && (account in outbox <==> KeyOf(old(outbox)[account]) in model.outbox)
                && if account in outbox
                   then && outbox == old(outbox)[account := outbox[account]]
                        && KeyOf(outbox[account]) == KeyOf(old(outbox)[account])
                   else outbox == old(outbox) - {account}
    {
      hide Agrees, Effect, BitSetAt, BitClearedAt;
      if account !in outbox {
        return false;
      }
      var o := outbox[account];
      AdapterFacts(keccak, Store(), model, SendSide, o.srcAddr, 0, caller);
      ParcelFacts(keccak, Store(), model, account, caller);
      if (o.srcAddr, caller) !in adapterInfos {
        return false;
      }
      var index := adapterInfos[(o.srcAddr, caller)];
      if RustGet(o.outstanding, index) != Some(true) {
        return false;
      }
      var bits := RustSet(o.outstanding, index, false);
      PickUpStep(keccak, Store(), model, PickUp(caller, o.srcAddr, o.sequence), account, bits.value);
      if bits.value == 0 {
        outbox := outbox - {account};
      } else {
        outbox := outbox[account := o.(outstanding := bits.value)];
      }
      model := Next(SVM, model, PickUp(caller, o.srcAddr, o.sequence));
      return true;
    }

    // ---------------------------------------------------------------- receiving

    /** AttestationInfo::new: fails for a zero chain id. */
    method NewAttestationInfo(m: Message) returns (r: Option<AttestationInfo>)
      ensures r == if m.srcChain == 0 || m.dstChain == 0 then None
                   else Some(AttestationInfo(keccak(Encode(m)), m, false, 0))
    {
      if m.srcChain == 0 || m.dstChain == 0 {
        return None;
      }
      var info := AttestationInfo([], m, false, 0);
      var bytes := RustMessageBytes(m);
      info := info.(messageHash := keccak(bytes));
      return Some(info);
    }

    method AttestMessage(caller: Address, m: Message) returns (ok: bool)
      requires Valid()
      modifies `attestations, `model
      ensures Valid()
      ensures Stepped(SVM, old(model), Attest(caller, m), ok, model)
    {
      hide Agrees, Effect, BitSetAt, BitClearedAt, Encode, RecordTie;
      AdapterFacts(keccak, Store(), model, RecvSide, m.dstAddr, m.srcChain, caller);
      if m.dstChain != CHAIN_ID || (m.dstAddr, caller) !in adapterInfos || (m.dstAddr, m.srcChain) !in chainConfigs {
        return false;
      }
      var index := adapterInfos[(m.dstAddr, caller)];
      if RustGet(chainConfigs[(m.dstAddr, m.srcChain)].recvBitmap, index) != Some(true) {
        return false;
      }
      var hash := keccak(Encode(m));
      StoredIsInitialised(keccak, Store(), model, m);
      AttesterBit(keccak, Store(), model, m, caller);
      var info := Lookup(attestations, hash, ZEROED_INFO);
      if info.message.srcChain == 0 {
        var fresh' := NewAttestationInfo(m);
        if fresh'.None? {
          return false;
        }
        info := fresh'.value;
      }
      if RustGet(info.attestedAdapters, index) != Some(false) {
        return false;
      }
      var bits := RustSet(info.attestedAdapters, index, true);
      AttestStep(keccak, Store(), model, Attest(caller, m), info, bits.value);
      attestations := attestations[hash := info.(attestedAdapters := bits.value)];
      model := Next(SVM, model, Attest(caller, m));
      return true;
    }

    /** Neither an attestation nor a chain id is checked; StoredIsInitialised is why. */
    method RecvMessage(m: Message) returns (ok: bool, enabled: u128, attested: u128)
      requires Valid()
      modifies `attestations, `model
      ensures Valid()
      ensures Stepped(SVM, old(model), Recv(m), ok, model)
      ensures ok ==>
                && m.srcChain != 0 && m.dstChain == CHAIN_ID && attested != 0
                && Holds(enabled, AdaptersOf(old(model).adapters, m.dstAddr),
                         EnabledAt(old(model).enabled, RecvSide, m.dstAddr, m.srcChain))
                && Holds(attested, AdaptersOf(old(model).adapters, m.dstAddr), Attesters(old(model).attested, m))
      ensures var d := keccak(Encode(m));
              ok <==>
              (m.dstAddr, m.srcChain) in chainConfigs && d in old(attestations) && !old(attestations)[d].executed
    {
      hide Agrees, Enabled, Effect, Encode, Holds;
      RecvGuard(keccak, Store(), model, m);
      var hash := keccak(Encode(m));
      ChainFacts(keccak, Store(), model, RecvSide, m.dstAddr, m.srcChain);
      MessageFacts(keccak, Store(), model, m);
      StoredIsInitialised(keccak, Store(), model, m);
      if (m.dstAddr, m.srcChain) !in chainConfigs || hash !in attestations || attestations[hash].executed {
        return false, 0, 0;
      }
      ExecuteStep(keccak, Store(), model, Recv(m), attestations[hash]);
      attested := attestations[hash].attestedAdapters;
      attestations := attestations[hash := attestations[hash].(executed := true)];
      model := Next(SVM, model, Recv(m));
      return true, chainConfigs[(m.dstAddr, m.srcChain)].recvBitmap, attested;
    }

    method ExecMessage(m: Message) returns (ok: bool)
      requires Valid()
      modifies `attestations, `model
      ensures Valid()
      ensures Stepped(SVM, old(model), Exec(m), ok, model)
    {
      hide Agrees, Enabled, Effect, Encode;
      var hash := keccak(Encode(m));
      ExecGuard(keccak, Store(), model, m);
      var info := Lookup(attestations, hash, ZEROED_INFO);
      if info.executed {
        return false;
      }
      if info.message.srcChain == 0 {
        var fresh' := NewAttestationInfo(m);
        if fresh'.None? {
          return false;
        }
        info := fresh'.value;
      }
      ExecuteStep(keccak, Store(), model, Exec(m), info);
      attestations := attestations[hash := info.(executed := true)];
      model := Next(SVM, model, Exec(m));
      return true;
    }

    // ---------------------------------------------------------------- whole runs

    /** One transaction that touches no outbox account. */
    method ExecuteCall(act: Action) returns (ok: bool)
      requires Valid() && !act.Send? && !act.PickUp?
      modifies `configs, `trackers, `adapterInfos, `chainConfigs, `attestations, `model
      ensures Valid()
      ensures Stepped(SVM, old(model), act, ok, model)
    {
      hide Agrees, Enabled, Next, Effect, Stepped;
      match act
      case Register(c, a) => ok := Register(c, a);
      case UpdateAdmin(c, i, a) => ok := UpdateAdmin(c, i, a);
      case TransferAdmin(c, i, a) => ok := TransferAdmin(c, i, a);
      case ClaimAdmin(c, i) => ok := ClaimAdmin(c, i);
      case DiscardAdmin(c, i) => ok := DiscardAdmin(c, i);
      case AddAdapter(c, i, a) => ok := AddAdapter(c, i, a);
      case Enable(c, side, i, chain, a) => ok := EnableAdapter(c, side, i, chain, a);
      case Disable(c, side, i, chain, a) => ok := DisableAdapter(c, side, i, chain, a);
      case Attest(c, m) => ok := AttestMessage(c, m);
      case Recv(m) =>
        var enabled, attested;
        ok, enabled, attested := RecvMessage(m);
      case Exec(m) => ok := ExecMessage(m);
    }

    /** One transaction; see ActionsOf and HeldAfter for what it amounts to. */
    method Execute(tx: Transaction) returns (ok: bool)
      requires Valid() && WellFormed(tx)
      modifies this
      ensures Valid()
      ensures var acts := ActionsOf(Held(old(outbox)), tx);
              && ok == (acts != [] && Enabled(SVM, old(model), acts[0]))
              && model == StateAfter(old(model), acts)
              && Held(outbox) == HeldAfter(old(model), Held(old(outbox)), tx)
    {
      hide Agrees, Enabled, Next, Effect;
      match tx
      case SendTo(c, chain, dstAddr, payloadHash, x) =>
        ok := SendMessage(c, chain, dstAddr, payloadHash, x);
      case PickUpFrom(c, x) =>
        ok := PickUpMessage(c, x);
      case Call(act) =>
        ok := ExecuteCall(act);
    }

    /**
     * Any sequence of transactions does to the accounts what the protocol run of their actions does to the
     * sets: `entries[k]` holds the action of the k-th transaction, or nothing for a send to an account in
     * use or a pickup from an account without message; and a transaction succeeds exactly when its entry
     * holds an action that is accepted there.
     */
    method RunAll(txs: seq<Transaction>) returns (oks: seq<bool>, ghost entries: seq<seq<Action>>)
      requires Valid() && forall k :: 0 <= k < |txs| ==> WellFormed(txs[k])
      modifies this
      ensures Valid()
      ensures entries == Entries(old(model), Held(old(outbox)), txs)
      ensures model == Run(SVM, old(model), Flat(entries))
      ensures Held(outbox) == HeldBy(old(model), Held(old(outbox)), txs)
      ensures |oks| == |entries| == |txs|
      ensures forall k :: 0 <= k < |txs| ==>
                oks[k] == (entries[k] != [] && Enabled(SVM, Run(SVM, old(model), Flat(entries[..k])), entries[k][0]))
      ensures old(model) == INITIAL ==>
                forall k :: 0 <= k < |txs| ==>
                  oks[k] == (entries[k] != [] && Allowed(Solana, LogOf(Solana, Flat(entries[..k])), entries[k][0]))
    {
      hide Agrees, Enabled, Next, ActionsOf, HeldAfter, Entries, HeldBy, Outcomes, Flat, Run, Held, Allowed, LogOf;
      ghost var s, held := model, Held(outbox);
      oks := [];
      TraceStart(s, held, txs);
      for k := 0 to |txs|
        invariant Valid() && oks == Outcomes(s, held, txs[..k])
        invariant model == Run(SVM, s, Flat(Entries(s, held, txs[..k])))
        invariant Held(outbox) == HeldBy(s, held, txs[..k])
      {
        TraceExtend(s, held, txs, k);
        var ok := Execute(txs[k]);
        oks := oks + [ok];
      }
      assert txs[..|txs|] == txs;
      entries := Entries(s, held, txs);
      OutcomesSay(s, held, txs);
      forall k | 0 <= k < |txs| && entries[k] != []
        ensures Enabled(SVM, Run(SVM, INITIAL, Flat(entries[..k])), entries[k][0])
                == Allowed(Solana, LogOf(Solana, Flat(entries[..k])), entries[k][0])
      {
        EnabledAfter(Solana, Flat(entries[..k]), entries[k][0]);
      }
    }
  }

  lemma ChainInitialised(keccak: seq<u8> -> Digest, st: Storage, s: State, i: Address, c: Chain)
    requires Agrees(keccak, st, s)
    ensures Lookup(st.chainConfigs, (i, c), ZEROED_CHAIN).chainId == 0 <==> (i, c) !in st.chainConfigs
    ensures (i, c) in st.chainConfigs ==> st.chainConfigs[(i, c)].chainId == c
  {
    assert ChainAt(st.chainConfigs, s, i, c);
  }
}
