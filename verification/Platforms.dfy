/** Where the three implementations agree, and where one departs from the documented transfer lock. */
module Platforms {
  import opened Numbers
  import opened Bits
  import opened Bitmaps
  import opened Messages
  import opened Protocol
  import opened Agreement
  import opened Runs
  import opened EvmStorage
  import opened Instructions
  import SvmEndpoint
  import AptosEndpoint

  predicate AdapterFunction(act: Action) {
    act.AddAdapter? || act.Enable? || act.Disable?
  }

  // ---------------------------------------------------------------- one run on three platforms

  /**
   * The action is treated alike by the three implementations, for an integrator on chain 1. Where it fails:
   * a zero admin, adapter or chain; an adapter function during a transfer; an attestation for another chain;
   * receiving what was attested after the last adapter was disabled; executing with chain 0; a send whose
   * instructions the EVM contract cannot parse. Each counts only if nothing else refuses the action, and a
   * zero name during a transfer is refused everywhere, for different reasons.
   */
  ghost predicate Common(s: State, act: Action) {
    match act
    case Register(i, a) => a != ZERO || i in s.admins
    case UpdateAdmin(c, i, a) => a != ZERO || !IsAdmin(s, i, c) || !NoTransfer(s, i)
    case TransferAdmin(c, i, a) => a != ZERO || !IsAdmin(s, i, c) || !NoTransfer(s, i)
    case AddAdapter(c, i, a) =>
      IsAdmin(s, i, c) && a !in AdaptersOf(s.adapters, i) && |AdaptersOf(s.adapters, i)| < MAX_ADAPTERS
      ==> (a != ZERO <==> NoTransfer(s, i))
    case Enable(c, side, i, chain, a) =>
      IsAdmin(s, i, c) && a in AdaptersOf(s.adapters, i) && a !in EnabledAt(s.enabled, side, i, chain)
      ==> (chain != 0 <==> NoTransfer(s, i))
    case Disable(c, side, i, chain, a) =>
      IsAdmin(s, i, c) && a in EnabledAt(s.enabled, side, i, chain) ==> NoTransfer(s, i)
    case Attest(a, m) =>
      m.dstChain == 1 || a !in EnabledAt(s.enabled, RecvSide, m.dstAddr, m.srcChain) || a in Attesters(s.attested, m)
    case Recv(m) =>
      || EnabledAt(s.enabled, RecvSide, m.dstAddr, m.srcChain) != {}
      || Attesters(s.attested, m) == {} || m in s.executed
    case Exec(m) => m in s.executed || (m.srcChain != 0 && m.dstChain != 0)
    case Send(i, c, _, _, bytes) =>
      || Accepts(bytes, |AdaptersOf(s.adapters, i)|)
      || EnabledAt(s.enabled, SendSide, i, c) == {} || Lookup(s.next, i, 0) >= MAX_U64
    case _ => true
  }

  /** Every action so far was treated alike. */
  ghost predicate CommonRun(s: State, acts: seq<Action>) {
    forall k :: 0 <= k < |acts| ==> Common(Run(SVM, s, acts[..k]), acts[k])
  }

  /** EVM has no outbox and no pickups; all else it keeps is comparable. */
  ghost predicate SameButOutbox(e: State, s: State) {
    e == s.(outbox := e.outbox)
  }

  ghost predicate Alike(e: State, s: State, act: Action) {
    && Enabled(SVM, s, act) == Enabled(APTOS, s, act)
    && (!act.PickUp? ==> Enabled(Evm(1), e, act) == Enabled(SVM, s, act))
  }

  lemma SameAdminAcceptance(e: State, s: State, act: Action)
    requires SameButOutbox(e, s) && (ChangesAdmin(act) || act.AddAdapter?)
    ensures Alike(e, s, act) <==> Common(s, act)
  {
  }

  lemma SameSetAcceptance(e: State, s: State, act: Action)
    requires Inv(SVM, s) && SameButOutbox(e, s) && (act.Enable? || act.Disable?)
    ensures Alike(e, s, act) <==> Common(s, act)
  {
    hide Inv;
    EnabledListed(SVM, s, act.side, act.integrator, act.chain);
  }

  lemma SameMessageAcceptance(e: State, s: State, act: Action)
    requires Inv(SVM, s) && SameButOutbox(e, s) && (act.Attest? || act.Recv? || act.Exec?)
    ensures Alike(e, s, act) <==> Common(s, act)
  {
    hide EnabledInv, AttestedInv, ExecutedInv, OutboxInv;
    var m := act.message;
    EnabledListed(SVM, s, RecvSide, m.dstAddr, m.srcChain);
    AttestersListed(SVM, s, m);
    if a :| a in Attesters(s.attested, m) {
      assert m.dstAddr in s.admins;
    }
  }

  lemma SameAcceptance(e: State, s: State, act: Action)
    requires Inv(SVM, s) && SameButOutbox(e, s)
    ensures Alike(e, s, act) <==> Common(s, act)
  {
    hide Inv, Alike, Common;
    if ChangesAdmin(act) || act.AddAdapter? {
      SameAdminAcceptance(e, s, act);
    } else if act.Enable? || act.Disable? {
      SameSetAcceptance(e, s, act);
    } else if act.Attest? || act.Recv? || act.Exec? {
      SameMessageAcceptance(e, s, act);
    } else {
      SameSendAcceptance(e, s, act);
    }
  }

  lemma SameSendAcceptance(e: State, s: State, act: Action)
    requires SameButOutbox(e, s) && (act.Send? || act.PickUp?)
    ensures Alike(e, s, act) <==> Common(s, act)
  {
  }

  /** What an accepted action does depends on the rules only in whether a send leaves a parcel. */
  lemma EffectOfRules(r1: Rules, r2: Rules, s: State, act: Action)
    requires Enabled(r1, s, act) && Enabled(r2, s, act) && r1.pushes == r2.pushes
    ensures Effect(r1, s, act) == Effect(r2, s, act)
  {
    hide Enabled;
  }

  lemma EffectButOutbox(e: State, s: State, act: Action)
    requires SameButOutbox(e, s) && !act.PickUp? && Enabled(Evm(1), e, act) && Enabled(SVM, s, act)
    ensures SameButOutbox(Effect(Evm(1), e, act), Effect(SVM, s, act))
  {
    hide Enabled;
  }

  lemma SameEffect(e: State, s: State, act: Action)
    requires SameButOutbox(e, s) && Alike(e, s, act)
    ensures Next(SVM, s, act) == Next(APTOS, s, act)
    ensures SameButOutbox(Next(Evm(1), e, act), Next(SVM, s, act))
  {
    hide Enabled, Effect;
    if Enabled(SVM, s, act) {
      EffectOfRules(SVM, APTOS, s, act);
      if !act.PickUp? {
        EffectButOutbox(e, s, act);
      }
    }
    if act.PickUp? {
      NoPickUps(e, act);
      Frame(SVM, s, act);
    }
  }

  lemma NoPickUps(e: State, act: Action)
    requires act.PickUp?
    ensures Next(Evm(1), e, act) == e
  {
  }

  /** The k-th action has the same success on the three platforms; EVM has no pickups. */
  ghost predicate AcceptedAlike(s: State, acts: seq<Action>, k: nat)
    requires k < |acts|
  {
    && Accepted(SVM, s, acts, k) == Accepted(APTOS, s, acts, k)
    && (!acts[k].PickUp? ==> Accepted(Evm(1), s, acts, k) == Accepted(SVM, s, acts, k))
  }

  /**
   * Any actions by anybody succeed on the same steps on the three platforms if and only if each was common
   * when it was made; the platforms then keep the same state, up to the outbox that EVM does not have.
   */
  lemma {:induction false} SameRuns(s: State, acts: seq<Action>)
    requires Inv(SVM, s)
    ensures CommonRun(s, acts) <==> forall k: nat :: k < |acts| ==> AcceptedAlike(s, acts, k)
    ensures CommonRun(s, acts) ==>
              Run(SVM, s, acts) == Run(APTOS, s, acts) && SameButOutbox(Run(Evm(1), s, acts), Run(SVM, s, acts))
    decreases |acts|
  {
    hide Enabled, Next, Effect, Inv, Common, SameButOutbox;
    if acts == [] {
      assert SameButOutbox(s, s) by { SelfSame(s); }
    } else {
      var n := |acts| - 1;
      var before := acts[..n];
      assert CommonRun(s, acts) <==> CommonRun(s, before) && Common(Run(SVM, s, before), acts[n]) by {
        CommonPrefix(s, acts);
      }
      forall k: nat | k < n
        ensures AcceptedAlike(s, before, k) <==> AcceptedAlike(s, acts, k)
      {
        assert before[..k] == acts[..k];
      }
      SameRuns(s, before);
      if CommonRun(s, before) {
        RunInv(SVM, s, before);
        SameAcceptance(Run(Evm(1), s, before), Run(SVM, s, before), acts[n]);
        assert AcceptedAlike(s, acts, n) <==> Common(Run(SVM, s, before), acts[n]);
        if Common(Run(SVM, s, before), acts[n]) {
          SameEffect(Run(Evm(1), s, before), Run(SVM, s, before), acts[n]);
        }
      } else {
        var k: nat :| k < n && !AcceptedAlike(s, before, k);
        assert !AcceptedAlike(s, acts, k);
      }
    }
  }

  lemma SelfSame(s: State)
    ensures SameButOutbox(s, s)
  {
  }

  lemma CommonPrefix(s: State, acts: seq<Action>)
    requires acts != []
    ensures var n := |acts| - 1;
            CommonRun(s, acts) <==> CommonRun(s, acts[..n]) && Common(Run(SVM, s, acts[..n]), acts[n])
  {
    hide Common, Run;
    forall k | 0 <= k < |acts| - 1
      ensures acts[..|acts| - 1][..k] == acts[..k]
    {
    }
  }

  // ---------------------------------------------------------------- one run, three storages

  /** The storages of the three implementations after one run of common actions. */
  ghost predicate AfterRun(hash: seq<u8> -> Digest, evm: EvmStorage.Storage, svm: SvmEndpoint.Storage,
                           aptos: AptosEndpoint.Storage, acts: seq<Action>)
  {
    && CommonRun(INITIAL, acts)
    && EvmStorage.Agrees(1, hash, evm, Run(Evm(1), INITIAL, acts))
    && SvmEndpoint.Agrees(hash, svm, Run(SVM, INITIAL, acts))
    && AptosEndpoint.Agrees(hash, aptos, Run(APTOS, INITIAL, acts))
  }

  lemma {:induction false} AfterRunFacts(hash: seq<u8> -> Digest, evm: EvmStorage.Storage, svm: SvmEndpoint.Storage,
                                         aptos: AptosEndpoint.Storage, acts: seq<Action>)
    requires AfterRun(hash, evm, svm, aptos, acts)
    ensures Run(APTOS, INITIAL, acts) == Run(SVM, INITIAL, acts)
    ensures SameButOutbox(Run(Evm(1), INITIAL, acts), Run(SVM, INITIAL, acts))
  {
    hide Run, CommonRun, SameButOutbox, EvmStorage.Agrees, SvmEndpoint.Agrees, AptosEndpoint.Agrees;
    InitialInv(SVM);
    SameRuns(INITIAL, acts);
  }

  /** The records of one message: equal bitmaps and flags, and a record only where the EVM entry is not all zeros. */
  predicate SameRecord(hash: seq<u8> -> Digest, evm: EvmStorage.Storage, svm: SvmEndpoint.Storage,
                       aptos: AptosEndpoint.Storage, m: Message)
  {
    var e := Lookup(evm.attestations, Key(hash, m), EvmStorage.NO_ATTESTATION);
    var v := Lookup(svm.attestations, hash(Encode(m)), SvmEndpoint.ZEROED_INFO);
    var a := Lookup(aptos.attestations, hash(Encode(m)), AptosEndpoint.NO_ATTESTATION);
    && e.attestedAdapters == v.attestedAdapters == a.attestedAdapters
    && e.numAttested == PopCount(a.attestedAdapters)
    && e.executed == v.executed == a.executed
    && (hash(Encode(m)) in svm.attestations <==> e != EvmStorage.NO_ATTESTATION)
    && (hash(Encode(m)) in aptos.attestations <==> e != EvmStorage.NO_ATTESTATION)
  }

  /**
   * The stores keyed by digest alone hold for every message what the two-level (integrator, digest) map
   * holds: the same attested bitmap, whose popcount is the EVM count, and the same executed flag.
   */
  lemma {:induction false} SameRecords(hash: seq<u8> -> Digest, evm: EvmStorage.Storage, svm: SvmEndpoint.Storage,
                                       aptos: AptosEndpoint.Storage, acts: seq<Action>)
    requires AfterRun(hash, evm, svm, aptos, acts)
    ensures forall m: Message :: SameRecord(hash, evm, svm, aptos, m)
  {
    hide EvmStorage.Agrees, SvmEndpoint.Agrees, AptosEndpoint.Agrees, Holds, Run, CommonRun;
    AfterRunFacts(hash, evm, svm, aptos, acts);
    var s, t := Run(Evm(1), INITIAL, acts), Run(SVM, INITIAL, acts);
    forall m: Message
      ensures SameRecord(hash, evm, svm, aptos, m)
    {
      EvmStorage.MessageFacts(1, hash, evm, s, m);
      SvmEndpoint.MessageFacts(hash, svm, t, m);
      AptosEndpoint.MessageFacts(hash, aptos, t, m);
      var e := Lookup(evm.attestations, Key(hash, m), EvmStorage.NO_ATTESTATION);
      var v := Lookup(svm.attestations, hash(Encode(m)), SvmEndpoint.ZEROED_INFO);
      var a := Lookup(aptos.attestations, hash(Encode(m)), AptosEndpoint.NO_ATTESTATION);
      var list, members := AdaptersOf(s.adapters, m.dstAddr), Attesters(s.attested, m);
      HoldsUnique(e.attestedAdapters, v.attestedAdapters, list, members);
      HoldsUnique(v.attestedAdapters, a.attestedAdapters, list, members);
    }
  }

  /** A send array and a send bitmap for the same set hold the same indices. */
  lemma ArrayIsBitmap(entries: seq<SendAdapter>, bitmap: u128, list: seq<Address>, members: set<Address>)
    requires Enumerates(entries, list, members) && Holds(bitmap, list, members) && Distinct(list)
    requires |entries| == |members| && forall a :: a in members ==> a in list
    ensures forall k: nat :: Bit(bitmap, k) <==> exists p :: 0 <= p < |entries| && entries[p].index == k
    ensures |entries| == PopCount(bitmap)
  {
    HoldsCount(bitmap, list, members);
    forall k: nat
      ensures Bit(bitmap, k) <==> exists p :: 0 <= p < |entries| && entries[p].index == k
    {
      if Bit(bitmap, k) {
        assert list[k] in members;
        var p :| 0 <= p < |entries| && entries[p].addr == list[k];
        assert entries[p].index == k;
      }
    }
  }

  /**
   * The configuration of every integrator is the same in the three storages: the adapter list, the next
   * sequence, the receive bitmaps, and the send bitmaps, whose bits are the indices in the EVM send array.
   */
  lemma {:induction false} SameConfiguration(
    hash: seq<u8> -> Digest, evm: EvmStorage.Storage, svm: SvmEndpoint.Storage, aptos: AptosEndpoint.Storage,
    acts: seq<Action>, i: Address, c: Chain)
    requires AfterRun(hash, evm, svm, aptos, acts)
    ensures Lookup(evm.registered, i, []) == SvmAdapters(svm, i) == Lookup(aptos.adapters, i, [])
    ensures Lookup(evm.sequences, i, 0) == Lookup(svm.trackers, i, 0) == Lookup(aptos.capabilities, i, 0)
    ensures var config := Lookup(svm.chainConfigs, (i, c), SvmEndpoint.ZEROED_CHAIN);
            var entries := Lookup(evm.sendAdapters, (i, c), []);
            && Lookup(evm.recvBitmaps, (i, c), 0) == config.recvBitmap == Lookup(aptos.recvBitmaps, (i, c), 0)
            && config.sendBitmap == Lookup(aptos.sendBitmaps, (i, c), 0)
            && |entries| == PopCount(config.sendBitmap)
            && forall k: nat :: Bit(config.sendBitmap, k) <==> exists p :: 0 <= p < |entries| && entries[p].index == k
  {
    hide EvmStorage.Agrees, SvmEndpoint.Agrees, AptosEndpoint.Agrees, Holds, Enumerates, Run, CommonRun;
    AfterRunFacts(hash, evm, svm, aptos, acts);
    var s, t := Run(Evm(1), INITIAL, acts), Run(SVM, INITIAL, acts);
    EvmStorage.AdminFacts(1, hash, evm, s, i);
    EvmStorage.RecvFacts(1, hash, evm, s, i, c);
    EvmStorage.SendFacts(1, hash, evm, s, i, c);
    SvmAdaptersListed(hash, svm, t, i);
    SvmEndpoint.IntegratorFacts(hash, svm, t, i);
    SvmEndpoint.ChainFacts(hash, svm, t, SendSide, i, c);
    SvmEndpoint.ChainFacts(hash, svm, t, RecvSide, i, c);
    AptosEndpoint.IntegratorFacts(hash, aptos, t, i);
    AptosEndpoint.ChainFacts(hash, aptos, t, SendSide, i, c);
    AptosEndpoint.ChainFacts(hash, aptos, t, RecvSide, i, c);
    var list, config := AdaptersOf(s.adapters, i), Lookup(svm.chainConfigs, (i, c), SvmEndpoint.ZEROED_CHAIN);
    var senders, receivers := EnabledAt(s.enabled, SendSide, i, c), EnabledAt(s.enabled, RecvSide, i, c);
    HoldsUnique(Lookup(evm.recvBitmaps, (i, c), 0), config.recvBitmap, list, receivers);
    HoldsUnique(config.recvBitmap, Lookup(aptos.recvBitmaps, (i, c), 0), list, receivers);
    HoldsUnique(config.sendBitmap, Lookup(aptos.sendBitmaps, (i, c), 0), list, senders);
    SendersListed(hash, evm, s, i, c);
    ArrayIsBitmap(Lookup(evm.sendAdapters, (i, c), []), config.sendBitmap, list, senders);
  }

  lemma SendersListed(hash: seq<u8> -> Digest, evm: EvmStorage.Storage, s: State, i: Address, c: Chain)
    requires EvmStorage.Agrees(1, hash, evm, s)
    ensures forall a :: a in EnabledAt(s.enabled, SendSide, i, c) ==> a in AdaptersOf(s.adapters, i)
  {
    EnabledListed(Evm(1), s, SendSide, i, c);
  }

  function SvmAdapters(svm: SvmEndpoint.Storage, i: Address): seq<Address> {
    if i in svm.configs then svm.configs[i].adapterInfos else []
  }

  lemma SvmAdaptersListed(hash: seq<u8> -> Digest, svm: SvmEndpoint.Storage, s: State, i: Address)
    requires SvmEndpoint.Agrees(hash, svm, s)
    ensures SvmAdapters(svm, i) == AdaptersOf(s.adapters, i)
  {
    hide SvmEndpoint.Agrees;
    SvmEndpoint.IntegratorFacts(hash, svm, s, i);
  }

  /** The outbox accounts on Solana, wherever the senders put them, hold the messages of the Aptos table. */
  lemma {:induction false} SameOutbox(hash: seq<u8> -> Digest, evm: EvmStorage.Storage, svm: SvmEndpoint.Storage,
                                      aptos: AptosEndpoint.Storage, acts: seq<Action>)
    requires AfterRun(hash, evm, svm, aptos, acts)
    ensures forall x :: x in svm.outbox ==>
              KeyOf(svm.outbox[x]) in aptos.outbox && aptos.outbox[KeyOf(svm.outbox[x])] == svm.outbox[x]
    ensures forall k :: k in aptos.outbox ==> exists x :: x in svm.outbox && svm.outbox[x] == aptos.outbox[k]
    ensures forall x, y :: x in svm.outbox && y in svm.outbox && x != y ==> svm.outbox[x] != svm.outbox[y]
  {
    hide Run, CommonRun, EvmStorage.Agrees, Inv, Holds;
    AfterRunFacts(hash, evm, svm, aptos, acts);
    var t := Run(SVM, INITIAL, acts);
    forall x | x in svm.outbox
      ensures KeyOf(svm.outbox[x]) in aptos.outbox && aptos.outbox[KeyOf(svm.outbox[x])] == svm.outbox[x]
    {
      SameParcel(svm.outbox, aptos.outbox, t, x);
    }
    forall k | k in aptos.outbox
      ensures exists x :: x in svm.outbox && svm.outbox[x] == aptos.outbox[k]
    {
      assert AptosEndpoint.OutboxAt(aptos.outbox, t, k);
      var x :| x in svm.outbox && KeyOf(svm.outbox[x]) == k;
      SameParcel(svm.outbox, aptos.outbox, t, x);
    }
  }

  lemma SameParcel(accounts: map<Address, OutboxMessage>, table: map<OutboxKey, OutboxMessage>, t: State, x: Address)
    requires SvmEndpoint.OutboxTie(accounts, t) && AptosEndpoint.OutboxTie(table, t) && x in accounts
    ensures KeyOf(accounts[x]) in table && table[KeyOf(accounts[x])] == accounts[x]
  {
    hide Holds;
    var o, k := accounts[x], KeyOf(accounts[x]);
    assert SvmEndpoint.OutboxAt(accounts, t, x);
    assert AptosEndpoint.OutboxAt(table, t, k);
    HoldsUnique(o.outstanding, table[k].outstanding, AdaptersOf(t.adapters, o.srcAddr), t.outbox[k].outstanding);
  }

  // ---------------------------------------------------------------- isolation of the stored records

  lemma RecordKept(bits: u128, executed: bool, later: u128, laterExecuted: bool, m: Message, s: State, t: State)
    requires RecordTie(bits, executed, m, s) && RecordTie(later, laterExecuted, m, t)
    requires SameIntegrator(s, t, m.dstAddr)
    ensures later == bits && laterExecuted == executed
  {
    hide Holds;
    HoldsUnique(bits, later, AdaptersOf(s.adapters, m.dstAddr), Attesters(s.attested, m));
  }

  /** What others do, in any number of transactions, leaves the stored record of a message as it was. */
  lemma {:induction false} EvmRecordIsolation(our: Chain, hash: seq<u8> -> Digest, st: EvmStorage.Storage,
                                              st': EvmStorage.Storage, s: State, acts: seq<Action>, m: Message)
    requires EvmStorage.Agrees(our, hash, st, s) && EvmStorage.Agrees(our, hash, st', Run(Evm(our), s, acts))
    requires forall k :: 0 <= k < |acts| ==> Owner(acts[k]) != m.dstAddr
    ensures Lookup(st'.attestations, Key(hash, m), EvmStorage.NO_ATTESTATION)
            == Lookup(st.attestations, Key(hash, m), EvmStorage.NO_ATTESTATION)
  {
    hide EvmStorage.Agrees, Run, RecordTie;
    var t := Run(Evm(our), s, acts);
    Isolation(Evm(our), s, acts, m.dstAddr);
    EvmStorage.MessageFacts(our, hash, st, s, m);
    EvmStorage.MessageFacts(our, hash, st', t, m);
    var info := Lookup(st.attestations, Key(hash, m), EvmStorage.NO_ATTESTATION);
    var info' := Lookup(st'.attestations, Key(hash, m), EvmStorage.NO_ATTESTATION);
    RecordKept(info.attestedAdapters, info.executed, info'.attestedAdapters, info'.executed, m, s, t);
  }

  /** The same where the digest is the only key. */
  lemma {:induction false} SvmRecordIsolation(hash: seq<u8> -> Digest, st: SvmEndpoint.Storage,
                                              st': SvmEndpoint.Storage, s: State, acts: seq<Action>, m: Message)
    requires SvmEndpoint.Agrees(hash, st, s) && SvmEndpoint.Agrees(hash, st', Run(SVM, s, acts))
    requires forall k :: 0 <= k < |acts| ==> Owner(acts[k]) != m.dstAddr
    ensures var d := hash(Encode(m));
            (d in st'.attestations <==> d in st.attestations)
            && (d in st.attestations ==> st'.attestations[d] == st.attestations[d])
  {
    hide SvmEndpoint.Agrees, Run, RecordTie;
    var d, t := hash(Encode(m)), Run(SVM, s, acts);
    Isolation(SVM, s, acts, m.dstAddr);
    SvmEndpoint.MessageFacts(hash, st, s, m);
    SvmEndpoint.MessageFacts(hash, st', t, m);
    SvmEndpoint.StoredIsInitialised(hash, st, s, m);
    SvmEndpoint.StoredIsInitialised(hash, st', t, m);
    if d in st.attestations {
      var info, info' := st.attestations[d], st'.attestations[d];
      RecordKept(info.attestedAdapters, info.executed, info'.attestedAdapters, info'.executed, m, s, t);
    }
  }

  lemma {:induction false} AptosRecordIsolation(hash: seq<u8> -> Digest, st: AptosEndpoint.Storage,
                                                st': AptosEndpoint.Storage, s: State, acts: seq<Action>, m: Message)
    requires AptosEndpoint.Agrees(hash, st, s) && AptosEndpoint.Agrees(hash, st', Run(APTOS, s, acts))
    requires forall k :: 0 <= k < |acts| ==> Owner(acts[k]) != m.dstAddr
    ensures var d := hash(Encode(m));
            (d in st'.attestations <==> d in st.attestations)
            && (d in st.attestations ==> st'.attestations[d] == st.attestations[d])
  {
    hide AptosEndpoint.Agrees, Run, RecordTie;
    var d, t := hash(Encode(m)), Run(APTOS, s, acts);
    Isolation(APTOS, s, acts, m.dstAddr);
    AptosEndpoint.MessageFacts(hash, st, s, m);
    AptosEndpoint.MessageFacts(hash, st', t, m);
    if d in st.attestations {
      var info, info' := st.attestations[d], st'.attestations[d];
      RecordKept(info.attestedAdapters, info.executed, info'.attestedAdapters, info'.executed, m, s, t);
    }
  }

  // ---------------------------------------------------------------- stored bits and who set them

  /** Storage that agrees with a run (RunAll leaves such storage): bit i is set exactly when adapter i attested. */
  lemma {:induction false} EvmStoredBits(our: Chain, hash: seq<u8> -> Digest, st: EvmStorage.Storage, acts: seq<Action>,
                                         m: Message, i: nat)
    requires EvmStorage.Agrees(our, hash, st, Run(Evm(our), INITIAL, acts))
    ensures var list := Lookup(st.registered, m.dstAddr, []);
            Bit(Lookup(st.attestations, Key(hash, m), EvmStorage.NO_ATTESTATION).attestedAdapters, i)
            <==> i < |list| && EverAttested(Evm(our), acts, m, list[i])
  {
    hide EvmStorage.Agrees, Enabled, Effect, Holds, Bit;
    InitialInv(Evm(our));
    EvmStorage.AdminFacts(our, hash, st, Run(Evm(our), INITIAL, acts), m.dstAddr);
    EvmStorage.MessageFacts(our, hash, st, Run(Evm(our), INITIAL, acts), m);
    BitAttribution(Evm(our), acts, m,
                   Lookup(st.attestations, Key(hash, m), EvmStorage.NO_ATTESTATION).attestedAdapters, i);
  }

  lemma {:induction false} SvmStoredBits(hash: seq<u8> -> Digest, st: SvmEndpoint.Storage, acts: seq<Action>,
                                         m: Message, i: nat)
    requires SvmEndpoint.Agrees(hash, st, Run(SVM, INITIAL, acts))
    ensures var list := SvmAdapters(st, m.dstAddr);
            Bit(Lookup(st.attestations, hash(Encode(m)), SvmEndpoint.ZEROED_INFO).attestedAdapters, i)
            <==> i < |list| && EverAttested(SVM, acts, m, list[i])
  {
    hide SvmEndpoint.Agrees, Enabled, Effect, Holds, Bit;
    InitialInv(SVM);
    SvmAdaptersListed(hash, st, Run(SVM, INITIAL, acts), m.dstAddr);
    SvmEndpoint.MessageFacts(hash, st, Run(SVM, INITIAL, acts), m);
    BitAttribution(SVM, acts, m, Lookup(st.attestations, hash(Encode(m)), SvmEndpoint.ZEROED_INFO).attestedAdapters, i);
  }

  lemma {:induction false} AptosStoredBits(hash: seq<u8> -> Digest, st: AptosEndpoint.Storage, acts: seq<Action>,
                                           m: Message, i: nat)
    requires AptosEndpoint.Agrees(hash, st, Run(APTOS, INITIAL, acts))
    ensures var list := Lookup(st.adapters, m.dstAddr, []);
            Bit(Lookup(st.attestations, hash(Encode(m)), AptosEndpoint.NO_ATTESTATION).attestedAdapters, i)
            <==> i < |list| && EverAttested(APTOS, acts, m, list[i])
  {
    hide AptosEndpoint.Agrees, Enabled, Effect, Holds, Bit;
    InitialInv(APTOS);
    AptosEndpoint.IntegratorFacts(hash, st, Run(APTOS, INITIAL, acts), m.dstAddr);
    AptosEndpoint.MessageFacts(hash, st, Run(APTOS, INITIAL, acts), m);
    BitAttribution(APTOS, acts, m,
                   Lookup(st.attestations, hash(Encode(m)), AptosEndpoint.NO_ATTESTATION).attestedAdapters, i);
  }

  // ---------------------------------------------------------------- the transfer lock on EVM

  /** The documentation locks adapter functions during a transfer; the EVM contract accepts one. */
  lemma EvmNotLocked(our: Chain)
    ensures var acts := [Register(1, 2), TransferAdmin(2, 1, 3), AddAdapter(2, 1, 4)];
            && !NoTransfer(Run(Evm(our), INITIAL, acts[..2]), 1)
            && Accepted(Evm(our), INITIAL, acts, 2)
  {
    var acts := [Register(1, 2), TransferAdmin(2, 1, 3), AddAdapter(2, 1, 4)];
    var a1, a2 := [Register(1, 2)], [Register(1, 2), TransferAdmin(2, 1, 3)];
    assert a1[..0] == [] && a2[..1] == a1 && acts[..2] == a2;
    assert Run(Evm(our), INITIAL, a1[..0]) == INITIAL;
    var s1 := Run(Evm(our), INITIAL, a1);
    assert s1 == Next(Evm(our), INITIAL, Register(1, 2));
    assert s1.admins[1] == Admins(Some(2), None);
    assert Run(Evm(our), INITIAL, a2) == Next(Evm(our), s1, TransferAdmin(2, 1, 3));
  }

  /** A step departs from the documented lock exactly when it is a valid adapter function during a transfer. */
  lemma LockDeparture(rules: Rules, s: State, act: Action)
    ensures var departs :=
              !rules.lockAdapters && AdapterFunction(act) && !NoTransfer(s, act.integrator) && Enabled(rules, s, act);
            var locked := rules.(lockAdapters := true);
            && (Enabled(rules, s, act) != Enabled(locked, s, act) <==> departs)
            && (Next(rules, s, act) != Next(locked, s, act) <==> departs)
  {
    var locked := rules.(lockAdapters := true);
    if !AdapterFunction(act) {
      assert Enabled(rules, s, act) == Enabled(locked, s, act);
    } else if Enabled(rules, s, act) {
      AdapterFunctionActs(rules, s, act);
    }
  }

  lemma AdapterFunctionActs(rules: Rules, s: State, act: Action)
    requires AdapterFunction(act) && Enabled(rules, s, act)
    ensures Effect(rules, s, act) != s
  {
  }

  /** No adapter function was accepted during a transfer. */
  ghost predicate KeepsLock(rules: Rules, s: State, acts: seq<Action>) {
    forall k :: 0 <= k < |acts| && AdapterFunction(acts[k]) && Accepted(rules, s, acts, k) ==>
      NoTransfer(Run(rules, s, acts[..k]), acts[k].integrator)
  }

  /** So a run succeeds on the same steps as with the lock exactly when it keeps the lock; then it ends alike. */
  lemma {:induction false} LockedRun(rules: Rules, s: State, acts: seq<Action>)
    ensures var locked := rules.(lockAdapters := true);
            && (KeepsLock(rules, s, acts) <==>
                forall k :: 0 <= k < |acts| ==> Accepted(rules, s, acts, k) == Accepted(locked, s, acts, k))
            && (KeepsLock(rules, s, acts) ==> Run(rules, s, acts) == Run(locked, s, acts))
    decreases |acts|
  {
    hide Enabled, Next, Effect, NoTransfer;
    var locked := rules.(lockAdapters := true);
    if acts != [] {
      var n := |acts| - 1;
      var before, t := acts[..n], Run(rules, s, acts[..n]);
      forall k | 0 <= k < n
        ensures before[..k] == acts[..k]
        ensures Accepted(rules, s, before, k) == Accepted(rules, s, acts, k)
        ensures Accepted(locked, s, before, k) == Accepted(locked, s, acts, k)
      {
      }
      LockedRun(rules, s, before);
      LockDeparture(rules, t, acts[n]);
      if rules.lockAdapters && AdapterFunction(acts[n]) && Enabled(rules, t, acts[n]) {
        LockImplied(rules, t, acts[n]);
      }
      assert KeepsLock(rules, s, acts) <==>
             KeepsLock(rules, s, before)
             && (AdapterFunction(acts[n]) && Accepted(rules, s, acts, n) ==> NoTransfer(t, acts[n].integrator));
      if !KeepsLock(rules, s, before) {
        var k :| 0 <= k < n && Accepted(rules, s, before, k) != Accepted(locked, s, before, k);
        assert Accepted(rules, s, acts, k) != Accepted(locked, s, acts, k);
      }
    }
  }

  lemma LockImplied(rules: Rules, s: State, act: Action)
    requires rules.lockAdapters && AdapterFunction(act) && Enabled(rules, s, act)
    ensures NoTransfer(s, act.integrator)
  {
  }
}
