/**
 * The endpoint protocol over plain sets: who administers an integrator, which adapters it lists and
 * enables, which adapters attested a message, what was executed, what is still to be picked up.
 * The three implementations are proved to behave as this state machine under their own `Rules`.
 */
module Protocol {
  import opened Numbers
  import opened Messages
  import Instructions

  const MAX_ADAPTERS := 128
  const MAX_U64: u64 := 0xFFFF_FFFF_FFFF_FFFF

  datatype Side = SendSide | RecvSide

  /** What receiving needs of the source chain's configuration. */
  datatype RecvGate = SomeAdapterEnabled | ChainConfigured | IntegratorRegistered

  /** Where the implementations differ. */
  datatype Rules = Rules(
    ourChain: Chain,          // used only with checkDstChain
    zeroAdmin: bool,          // the zero address may be named as admin
    zeroAdapter: bool,        // the zero address may be added as adapter
    zeroChain: bool,          // adapters may be enabled for chain 0
    lockAdapters: bool,       // adapter functions fail while an admin transfer is pending
    checkDstChain: bool,      // attesting needs the message to be for this chain
    gate: RecvGate,
    execChecksChains: bool,   // executing needs nonzero chain ids
    pushes: bool,             // sending calls the adapters at once; there is no outbox
    accepts: (seq<u8>, nat) -> bool)  // adapter instructions a send accepts, for a number of adapters

  ghost function Evm(ourChain: Chain): Rules {
    Rules(ourChain, false, false, false, false, true, SomeAdapterEnabled, false, true, Instructions.Accepts)
  }

  ghost const SVM := Rules(1, true, true, false, true, true, ChainConfigured, true, false, (_, _) => true)

  ghost const APTOS := Rules(0, false, true, true, true, false, IntegratorRegistered, false, false, (_, _) => true)

  datatype Admins = Admins(admin: Option<Address>, pending: Option<Address>)

  datatype Slot = Slot(side: Side, integrator: Address, chain: Chain)

  datatype OutboxKey = OutboxKey(integrator: Address, sequence: nat)

  datatype Parcel = Parcel(dstChain: Chain, dstAddr: Address, payloadHash: u256, outstanding: set<Address>)

  datatype State = State(
    admins: map<Address, Admins>,
    adapters: map<Address, seq<Address>>,
    next: map<Address, nat>,
    configured: set<(Address, Chain)>,
    enabled: map<Slot, set<Address>>,
    attested: map<Message, set<Address>>,
    executed: set<Message>,
    outbox: map<OutboxKey, Parcel>)

  const INITIAL := State(map[], map[], map[], {}, map[], map[], {}, map[])

  function AdaptersOf(adapters: map<Address, seq<Address>>, i: Address): seq<Address> {
    Lookup(adapters, i, [])
  }

  function EnabledAt(enabled: map<Slot, set<Address>>, side: Side, i: Address, c: Chain): set<Address> {
    Lookup(enabled, Slot(side, i, c), {})
  }

  function Attesters(attested: map<Message, set<Address>>, m: Message): set<Address> {
    Lookup(attested, m, {})
  }

  datatype Action =
    | Register(caller: Address, newAdmin: Address)
    | UpdateAdmin(caller: Address, integrator: Address, newAdmin: Address)
    | TransferAdmin(caller: Address, integrator: Address, newAdmin: Address)
    | ClaimAdmin(caller: Address, integrator: Address)
    | DiscardAdmin(caller: Address, integrator: Address)
    | AddAdapter(caller: Address, integrator: Address, adapter: Address)
    | Enable(caller: Address, side: Side, integrator: Address, chain: Chain, adapter: Address)
    | Disable(caller: Address, side: Side, integrator: Address, chain: Chain, adapter: Address)
    | Attest(caller: Address, message: Message)
    | Recv(message: Message)   // the caller is the integrator the message is for
    | Exec(message: Message)   // likewise
    | Send(caller: Address, dstChain: Chain, dstAddr: Address, payloadHash: u256, instructions: seq<u8>)
    | PickUp(caller: Address, integrator: Address, sequence: nat)

  predicate IsAdmin(s: State, i: Address, caller: Address) {
    i in s.admins && s.admins[i].admin == Some(caller)
  }

  predicate NoTransfer(s: State, i: Address) {
    i in s.admins ==> s.admins[i].pending.None?
  }

  predicate MayConfigure(rules: Rules, s: State, i: Address, caller: Address) {
    IsAdmin(s, i, caller) && (rules.lockAdapters ==> NoTransfer(s, i))
  }

  ghost predicate GateOpen(rules: Rules, s: State, i: Address, c: Chain) {
    match rules.gate
    case SomeAdapterEnabled => EnabledAt(s.enabled, RecvSide, i, c) != {}
    case ChainConfigured => (i, c) in s.configured
    case IntegratorRegistered => i in s.admins
  }

  /** Whether the endpoint accepts the action; otherwise the transaction fails and nothing changes. */
  ghost predicate Enabled(rules: Rules, s: State, act: Action) {
    match act
    case Register(i, a) => i !in s.admins && (a != ZERO || rules.zeroAdmin)
    case UpdateAdmin(c, i, a) => IsAdmin(s, i, c) && NoTransfer(s, i) && (a != ZERO || rules.zeroAdmin)
    case TransferAdmin(c, i, a) => IsAdmin(s, i, c) && NoTransfer(s, i) && (a != ZERO || rules.zeroAdmin)
    case ClaimAdmin(c, i) =>
      i in s.admins && s.admins[i].pending.Some? && (s.admins[i].pending == Some(c) || IsAdmin(s, i, c))
    case DiscardAdmin(c, i) => IsAdmin(s, i, c) && NoTransfer(s, i)
    case AddAdapter(c, i, a) =>
      MayConfigure(rules, s, i, c) && (a != ZERO || rules.zeroAdapter)
      && a !in AdaptersOf(s.adapters, i) && |AdaptersOf(s.adapters, i)| < MAX_ADAPTERS
    case Enable(c, side, i, chain, a) =>
      MayConfigure(rules, s, i, c) && (chain != 0 || rules.zeroChain)
      && a in AdaptersOf(s.adapters, i) && a !in EnabledAt(s.enabled, side, i, chain)
    case Disable(c, side, i, chain, a) =>
      MayConfigure(rules, s, i, c) && a in EnabledAt(s.enabled, side, i, chain)
    case Attest(a, m) =>
      (rules.checkDstChain ==> m.dstChain == rules.ourChain)
      && a in EnabledAt(s.enabled, RecvSide, m.dstAddr, m.srcChain) && a !in Attesters(s.attested, m)
    case Recv(m) =>
      GateOpen(rules, s, m.dstAddr, m.srcChain) && Attesters(s.attested, m) != {} && m !in s.executed
    case Exec(m) =>
      m !in s.executed && (rules.execChecksChains ==> m.srcChain != 0 && m.dstChain != 0)
    case Send(i, c, _, _, bytes) =>
      EnabledAt(s.enabled, SendSide, i, c) != {} && Lookup(s.next, i, 0) < MAX_U64
      && rules.accepts(bytes, |AdaptersOf(s.adapters, i)|)
    case PickUp(a, i, n) =>
      !rules.pushes && OutboxKey(i, n) in s.outbox && a in s.outbox[OutboxKey(i, n)].outstanding
  }

  /** The state after an accepted action. */
  ghost function Effect(rules: Rules, s: State, act: Action): State
    requires Enabled(rules, s, act)
  {
    match act
    case Register(i, a) =>
      s.(admins := s.admins[i := AdminsAfter(act)], adapters := s.adapters[i := []], next := s.next[i := 0])
    case UpdateAdmin(_, i, _) => s.(admins := s.admins[i := AdminsAfter(act)])
    case TransferAdmin(_, i, _) => s.(admins := s.admins[i := AdminsAfter(act)])
    case ClaimAdmin(_, i) => s.(admins := s.admins[i := AdminsAfter(act)])
    case DiscardAdmin(_, i) => s.(admins := s.admins[i := AdminsAfter(act)])
    case AddAdapter(_, i, a) => s.(adapters := s.adapters[i := AdaptersOf(s.adapters, i) + [a]])
    case Enable(_, side, i, c, a) =>
      s.(enabled := s.enabled[Slot(side, i, c) := EnabledAt(s.enabled, side, i, c) + {a}],
         configured := s.configured + {(i, c)})
    case Disable(_, side, i, c, a) =>
      s.(enabled := s.enabled[Slot(side, i, c) := EnabledAt(s.enabled, side, i, c) - {a}])
    case Attest(a, m) => s.(attested := s.attested[m := Attesters(s.attested, m) + {a}])
    case Recv(m) => s.(executed := s.executed + {m})
    case Exec(m) => s.(executed := s.executed + {m})
    case Send(i, c, dstAddr, payloadHash, _) =>
      var n := Lookup(s.next, i, 0);
      var parcel := Parcel(c, dstAddr, payloadHash, EnabledAt(s.enabled, SendSide, i, c));
      s.(next := s.next[i := n + 1], outbox := if rules.pushes then s.outbox else s.outbox[OutboxKey(i, n) := parcel])
    case PickUp(a, i, n) =>
      var parcel := s.outbox[OutboxKey(i, n)];
      var left := parcel.outstanding - {a};
      s.(outbox := if left == {} then s.outbox - {OutboxKey(i, n)}
                   else s.outbox[OutboxKey(i, n) := parcel.(outstanding := left)])
  }

  /** The admins an accepted admin action leaves. */
  function AdminsAfter(act: Action): Admins
    requires ChangesAdmin(act)
  {
    match act
    case Register(_, a) => Admins(Some(a), None)
    case UpdateAdmin(_, _, a) => Admins(Some(a), None)
    case TransferAdmin(c, _, a) => Admins(Some(c), Some(a))
    case ClaimAdmin(c, _) => Admins(Some(c), None)
    case DiscardAdmin(_, _) => Admins(None, None)
  }

  predicate ChangesAdmin(act: Action) {
    act.Register? || act.UpdateAdmin? || act.TransferAdmin? || act.ClaimAdmin? || act.DiscardAdmin?
  }

  /** One transaction: atomic, so a failing action leaves the state as it was. */
  ghost function Next(rules: Rules, s: State, act: Action): State {
    if Enabled(rules, s, act) then Effect(rules, s, act) else s
  }

  /** What an implementation promises of a transaction: it succeeds, and changes the state, as the protocol does. */
  ghost predicate Stepped(rules: Rules, s: State, act: Action, ok: bool, t: State) {
    ok == Enabled(rules, s, act) && t == Next(rules, s, act)
  }

  ghost function Run(rules: Rules, s: State, acts: seq<Action>): State
    decreases |acts|
  {
    if acts == [] then s
    else Next(rules, Run(rules, s, acts[..|acts| - 1]), acts[|acts| - 1])
  }

  /** The k-th action of the run from `s` was accepted. */
  ghost predicate Accepted(rules: Rules, s: State, acts: seq<Action>, k: int)
    requires 0 <= k < |acts|
  {
    Enabled(rules, Run(rules, s, acts[..k]), acts[k])
  }

  // ---------------------------------------------------------------- invariants

  ghost predicate RegistryInv(rules: Rules, s: State) {
    && s.admins.Keys == s.adapters.Keys == s.next.Keys
    && (forall i :: i in s.admins && s.admins[i].pending.Some? ==> s.admins[i].admin.Some?)
    && (forall i :: i in s.adapters ==> |s.adapters[i]| <= MAX_ADAPTERS && Distinct(s.adapters[i]))
    && (forall i :: i in s.adapters && ZERO in s.adapters[i] ==> rules.zeroAdapter)
    && (forall i :: i in s.next ==> s.next[i] <= MAX_U64)
  }

  ghost predicate EnabledInv(rules: Rules, enabled: map<Slot, set<Address>>,
                             configured: set<(Address, Chain)>, adapters: map<Address, seq<Address>>)
  {
    forall t, a :: t in enabled && a in enabled[t] ==>
      && a in AdaptersOf(adapters, t.integrator)
      && (t.integrator, t.chain) in configured
      && (t.chain != 0 || rules.zeroChain)
  }

  ghost predicate AttestedInv(rules: Rules, attested: map<Message, set<Address>>, adapters: map<Address, seq<Address>>)
  {
    forall m, a :: m in attested && a in attested[m] ==>
      && a in AdaptersOf(adapters, m.dstAddr)
      && (rules.checkDstChain ==> m.dstChain == rules.ourChain)
      && (m.srcChain != 0 || rules.zeroChain)
  }

  ghost predicate ExecutedInv(rules: Rules, executed: set<Message>) {
    rules.execChecksChains ==>
      && !rules.zeroChain && rules.checkDstChain && rules.ourChain != 0
      && forall m :: m in executed ==> m.srcChain != 0 && m.dstChain != 0
  }

  ghost predicate OutboxInv(outbox: map<OutboxKey, Parcel>, next: map<Address, nat>,
                            adapters: map<Address, seq<Address>>)
  {
    forall k :: k in outbox ==>
      && k.integrator in next && k.sequence < next[k.integrator]
      && outbox[k].outstanding != {}
      && (forall a :: a in outbox[k].outstanding ==> a in AdaptersOf(adapters, k.integrator))
  }

  ghost predicate Inv(rules: Rules, s: State) {
    && RegistryInv(rules, s)
    && EnabledInv(rules, s.enabled, s.configured, s.adapters)
    && AttestedInv(rules, s.attested, s.adapters)
    && ExecutedInv(rules, s.executed)
    && OutboxInv(s.outbox, s.next, s.adapters)
  }

  lemma InitialInv(rules: Rules)
    requires rules.execChecksChains ==> !rules.zeroChain && rules.checkDstChain && rules.ourChain != 0
    ensures Inv(rules, INITIAL)
  {
  }

  /** What each kind of action leaves alone. */
  predicate Framed(s: State, act: Action, t: State) {
    && (!act.Enable? && !act.Disable? ==> t.enabled == s.enabled && t.configured == s.configured)
    && (!act.Attest? ==> t.attested == s.attested)
    && (!act.Recv? && !act.Exec? ==> t.executed == s.executed)
    && (!act.Send? && !act.PickUp? ==> t.outbox == s.outbox)
    && (!act.Send? && !act.Register? ==> t.next == s.next)
    && (!act.AddAdapter? && !act.Register? ==> t.adapters == s.adapters)
    && (!ChangesAdmin(act) ==> t.admins == s.admins)
  }

  lemma FrameConfiguration(rules: Rules, s: State, act: Action)
    requires act.AddAdapter? || act.Enable? || act.Disable?
    ensures Framed(s, act, Next(rules, s, act))
  {
  }

  lemma FrameAdmin(rules: Rules, s: State, act: Action)
    requires ChangesAdmin(act)
    ensures Framed(s, act, Next(rules, s, act))
  {
  }

  lemma FrameMessage(rules: Rules, s: State, act: Action)
    requires act.Attest? || act.Recv? || act.Exec?
    ensures Framed(s, act, Next(rules, s, act))
  {
  }

  lemma FrameOutbox(rules: Rules, s: State, act: Action)
    requires act.Send? || act.PickUp?
    ensures Framed(s, act, Next(rules, s, act))
  {
  }

  lemma Frame(rules: Rules, s: State, act: Action)
    ensures Framed(s, act, Next(rules, s, act))
  {
    hide Framed, Next;
    if ChangesAdmin(act) {
      FrameAdmin(rules, s, act);
    } else if act.AddAdapter? || act.Enable? || act.Disable? {
      FrameConfiguration(rules, s, act);
    } else if act.Send? || act.PickUp? {
      FrameOutbox(rules, s, act);
    } else {
      FrameMessage(rules, s, act);
    }
  }

  lemma AdminEffect(rules: Rules, s: State, act: Action)
    requires ChangesAdmin(act) && !act.Register? && Enabled(rules, s, act)
    ensures Next(rules, s, act).admins == s.admins[act.integrator := AdminsAfter(act)]
  {
  }

  lemma AddEffect(rules: Rules, s: State, act: Action)
    requires act.AddAdapter? && Enabled(rules, s, act)
    ensures act.integrator in s.admins && (act.adapter == ZERO ==> rules.zeroAdapter)
    ensures var list := AdaptersOf(s.adapters, act.integrator); act.adapter !in list && |list| < MAX_ADAPTERS
    ensures Next(rules, s, act).adapters
            == s.adapters[act.integrator := AdaptersOf(s.adapters, act.integrator) + [act.adapter]]
  {
  }

  lemma SetEffect(rules: Rules, s: State, act: Action)
    requires (act.Enable? || act.Disable?) && Enabled(rules, s, act)
    ensures var t := Slot(act.side, act.integrator, act.chain);
            var members := EnabledAt(s.enabled, act.side, act.integrator, act.chain);
            Next(rules, s, act).enabled
            == s.enabled[t := if act.Enable? then members + {act.adapter} else members - {act.adapter}]
    ensures Next(rules, s, act).configured
            == if act.Enable? then s.configured + {(act.integrator, act.chain)} else s.configured
  {
  }

  /** The adapter list of every integrator only grows, at its end. */
  ghost predicate ListsGrow(adapters: map<Address, seq<Address>>, later: map<Address, seq<Address>>) {
    forall i :: AdaptersOf(adapters, i) <= AdaptersOf(later, i)
  }

  lemma NextGrows(rules: Rules, s: State, act: Action)
    requires RegistryInv(rules, s)
    ensures ListsGrow(s.adapters, Next(rules, s, act).adapters)
  {
    Frame(rules, s, act);
  }

  /** Enabled adapters belong to a registered integrator. */
  lemma SenderRegistered(rules: Rules, s: State, side: Side, i: Address, c: Chain)
    requires RegistryInv(rules, s) && EnabledInv(rules, s.enabled, s.configured, s.adapters)
    requires EnabledAt(s.enabled, side, i, c) != {}
    ensures i in s.admins && i in s.adapters && i in s.next
  {
  }

  lemma SendRegistry(rules: Rules, s: State, act: Action)
    requires Inv(rules, s) && act.Send? && Enabled(rules, s, act)
    ensures RegistryInv(rules, Effect(rules, s, act))
  {
    SenderRegistered(rules, s, SendSide, act.caller, act.dstChain);
  }

  lemma AdminRegistry(rules: Rules, s: State, act: Action)
    requires RegistryInv(rules, s) && ChangesAdmin(act) && !act.Register? && Enabled(rules, s, act)
    ensures RegistryInv(rules, Effect(rules, s, act))
  {
    hide Distinct;
  }

  lemma RegisterRegistry(rules: Rules, s: State, act: Action)
    requires RegistryInv(rules, s) && act.Register? && Enabled(rules, s, act)
    ensures RegistryInv(rules, Effect(rules, s, act))
  {
  }

  lemma AddRegistry(rules: Rules, s: State, act: Action)
    requires RegistryInv(rules, s) && act.AddAdapter? && Enabled(rules, s, act)
    ensures RegistryInv(rules, Next(rules, s, act))
  {
    hide Enabled, Next, Distinct;
    AddEffect(rules, s, act);
    Frame(rules, s, act);
    DistinctAppend(AdaptersOf(s.adapters, act.integrator), act.adapter);
  }

  lemma DistinctAppend(list: seq<Address>, a: Address)
    requires Distinct(list) && a !in list
    ensures Distinct(list + [a])
  {
  }

  lemma NextRegistry(rules: Rules, s: State, act: Action)
    requires Inv(rules, s)
    ensures RegistryInv(rules, Next(rules, s, act))
  {
    hide Enabled, Effect, EnabledInv, AttestedInv, ExecutedInv, OutboxInv;
    if Enabled(rules, s, act) && act.Send? {
      SendRegistry(rules, s, act);
    } else if Enabled(rules, s, act) && act.Register? {
      RegisterRegistry(rules, s, act);
    } else if Enabled(rules, s, act) && ChangesAdmin(act) {
      AdminRegistry(rules, s, act);
    } else if Enabled(rules, s, act) && act.AddAdapter? {
      AddRegistry(rules, s, act);
    } else {
      Frame(rules, s, act);
    }
  }

  lemma EnabledMono(rules: Rules, s: State, later: map<Address, seq<Address>>)
    requires EnabledInv(rules, s.enabled, s.configured, s.adapters) && ListsGrow(s.adapters, later)
    ensures EnabledInv(rules, s.enabled, s.configured, later)
  {
  }

  lemma AttestedMono(rules: Rules, s: State, later: map<Address, seq<Address>>)
    requires AttestedInv(rules, s.attested, s.adapters) && ListsGrow(s.adapters, later)
    ensures AttestedInv(rules, s.attested, later)
  {
  }

  lemma OutboxMono(s: State, next: map<Address, nat>, later: map<Address, seq<Address>>)
    requires OutboxInv(s.outbox, s.next, s.adapters) && ListsGrow(s.adapters, later)
    requires forall i :: i in s.next ==> i in next && s.next[i] <= next[i]
    ensures OutboxInv(s.outbox, next, later)
  {
  }

  lemma NextEnabled(rules: Rules, s: State, act: Action)
    requires Inv(rules, s)
    ensures var t := Next(rules, s, act); EnabledInv(rules, t.enabled, t.configured, t.adapters)
  {
    Frame(rules, s, act);
    if !act.Enable? && !act.Disable? {
      NextGrows(rules, s, act);
      EnabledMono(rules, s, Next(rules, s, act).adapters);
    }
  }

  lemma NextAttested(rules: Rules, s: State, act: Action)
    requires Inv(rules, s)
    ensures var t := Next(rules, s, act); AttestedInv(rules, t.attested, t.adapters)
  {
    Frame(rules, s, act);
    if act.Attest? {
      assert Enabled(rules, s, act) ==> Slot(RecvSide, act.message.dstAddr, act.message.srcChain) in s.enabled;
    } else {
      NextGrows(rules, s, act);
      AttestedMono(rules, s, Next(rules, s, act).adapters);
    }
  }

  lemma NextExecuted(rules: Rules, s: State, act: Action)
    requires Inv(rules, s)
    ensures ExecutedInv(rules, Next(rules, s, act).executed)
  {
  }

  lemma SendOutbox(rules: Rules, s: State, act: Action)
    requires Inv(rules, s) && act.Send? && Enabled(rules, s, act)
    ensures var t := Effect(rules, s, act); OutboxInv(t.outbox, t.next, t.adapters)
  {
    SenderRegistered(rules, s, SendSide, act.caller, act.dstChain);
    assert Slot(SendSide, act.caller, act.dstChain) in s.enabled;
    OutboxMono(s, Effect(rules, s, act).next, s.adapters);
  }

  lemma PickUpOutbox(rules: Rules, s: State, act: Action)
    requires Inv(rules, s) && act.PickUp? && Enabled(rules, s, act)
    ensures var t := Effect(rules, s, act); OutboxInv(t.outbox, t.next, t.adapters)
  {
    hide RegistryInv, EnabledInv, AttestedInv, ExecutedInv, AdaptersOf;
    var t, key := Effect(rules, s, act), OutboxKey(act.integrator, act.sequence);
    assert t.next == s.next && t.adapters == s.adapters;
    forall k | k in t.outbox
      ensures k in s.outbox && t.outbox[k].outstanding <= s.outbox[k].outstanding && t.outbox[k].outstanding != {}
    {
      assert k != key ==> t.outbox[k] == s.outbox[k];
    }
    hide Enabled, Effect;
  }

  lemma NextOutbox(rules: Rules, s: State, act: Action)
    requires Inv(rules, s)
    ensures var t := Next(rules, s, act); OutboxInv(t.outbox, t.next, t.adapters)
  {
    if Enabled(rules, s, act) {
      if act.Send? {
        SendOutbox(rules, s, act);
      } else if act.PickUp? {
        PickUpOutbox(rules, s, act);
      } else {
        Frame(rules, s, act);
        NextGrows(rules, s, act);
        OutboxMono(s, Next(rules, s, act).next, Next(rules, s, act).adapters);
      }
    }
  }

  lemma NextInv(rules: Rules, s: State, act: Action)
    requires Inv(rules, s)
    ensures Inv(rules, Next(rules, s, act))
  {
    NextRegistry(rules, s, act);
    NextEnabled(rules, s, act);
    NextAttested(rules, s, act);
    NextExecuted(rules, s, act);
    NextOutbox(rules, s, act);
  }

  lemma {:induction false} RunInv(rules: Rules, s: State, acts: seq<Action>)
    requires Inv(rules, s)
    ensures Inv(rules, Run(rules, s, acts))
    decreases |acts|
  {
    if acts != [] {
      RunInv(rules, s, acts[..|acts| - 1]);
      NextInv(rules, Run(rules, s, acts[..|acts| - 1]), acts[|acts| - 1]);
    }
  }
}
