/**
 * The endpoint told without a state: whether an action is accepted, said only of the actions accepted before
 * it, for each platform in its own numbers. Every run of the protocol is such a history.
 */
module History {
  import opened Numbers
  import opened Messages
  import opened Protocol
  import opened Runs
  import Instructions

  datatype Platform = Ethereum(chain: Chain) | Solana | Aptos

  ghost function RulesOf(p: Platform): Rules {
    match p
    case Ethereum(chain) => Evm(chain)
    case Solana => SVM
    case Aptos => APTOS
  }

  // ---------------------------------------------------------------- reading a log of accepted actions

  predicate Registered(log: seq<Action>, i: Address) {
    exists k :: 0 <= k < |log| && log[k].Register? && log[k].caller == i
  }

  predicate ConcernsAdmin(act: Action, i: Address) {
    match act
    case Register(c, _) => c == i
    case UpdateAdmin(_, j, _) => j == i
    case TransferAdmin(_, j, _) => j == i
    case ClaimAdmin(_, j) => j == i
    case DiscardAdmin(_, j) => j == i
    case _ => false
  }

  /** Step k is the last that concerns the admin. */
  ghost predicate SettledBy(log: seq<Action>, i: Address, k: nat) {
    k < |log| && ConcernsAdmin(log[k], i) && forall j :: k < j < |log| ==> !ConcernsAdmin(log[j], i)
  }

  predicate MakesAdmin(act: Action, x: Address) {
    match act
    case Register(_, a) => a == x
    case UpdateAdmin(_, _, a) => a == x
    case TransferAdmin(c, _, _) => c == x   // until the claim
    case ClaimAdmin(c, _) => c == x
    case _ => false
  }

  ghost predicate AdminIs(log: seq<Action>, i: Address, x: Address) {
    exists k: nat :: SettledBy(log, i, k) && MakesAdmin(log[k], x)
  }

  ghost predicate TransferTo(log: seq<Action>, i: Address, x: Address) {
    exists k: nat :: SettledBy(log, i, k) && log[k].TransferAdmin? && log[k].newAdmin == x
  }

  ghost predicate InTransfer(log: seq<Action>, i: Address) {
    exists x: Address :: TransferTo(log, i, x)
  }

  predicate Adds(act: Action, i: Address) {
    act.AddAdapter? && act.integrator == i
  }

  function Added(log: seq<Action>, i: Address): set<Address> {
    set k | 0 <= k < |log| && Adds(log[k], i) :: log[k].adapter
  }

  /** Step k enabled the adapter and no later step disabled it. */
  ghost predicate OnSince(log: seq<Action>, t: Slot, a: Address, k: nat) {
    k < |log| && Switches(log[k], true, t, a) && forall j :: k < j < |log| ==> !Switches(log[j], false, t, a)
  }

  ghost predicate On(log: seq<Action>, side: Side, i: Address, c: Chain, a: Address) {
    exists k: nat :: OnSince(log, Slot(side, i, c), a, k)
  }

  ghost predicate SomeOn(log: seq<Action>, side: Side, i: Address, c: Chain) {
    exists a: Address :: On(log, side, i, c, a)
  }

  ghost predicate SomeAttested(log: seq<Action>, m: Message) {
    exists a: Address :: Attest(a, m) in log
  }

  predicate ExecutedIn(log: seq<Action>, m: Message) {
    Recv(m) in log || Exec(m) in log
  }

  predicate SendsFor(act: Action, i: Address) {
    act.Send? && act.caller == i
  }

  function Sends(log: seq<Action>, i: Address): nat {
    |set k | 0 <= k < |log| && SendsFor(log[k], i)|
  }

  /** Step k sent message n of the integrator, when the adapter was enabled for its destination. */
  ghost predicate SentTo(log: seq<Action>, k: nat, i: Address, n: nat, a: Address) {
    && k < |log| && SendsFor(log[k], i) && Sends(log[..k], i) == n
    && On(log[..k], SendSide, i, log[k].dstChain, a)
  }

  /** The adapter has message n still to pick up. */
  ghost predicate Owed(log: seq<Action>, i: Address, n: nat, a: Address) {
    PickUp(a, i, n) !in log && exists k: nat :: SentTo(log, k, i, n, a)
  }

  // ---------------------------------------------------------------- what a log allows

  /** The admin may configure: on EVM always, elsewhere unless a transfer is pending. */
  ghost predicate MayConfigureBy(p: Platform, log: seq<Action>, i: Address, c: Address) {
    AdminIs(log, i, c) && (p.Ethereum? || !InTransfer(log, i))
  }

  ghost predicate Allowed(p: Platform, log: seq<Action>, act: Action) {
    match act
    case Register(i, a) => !Registered(log, i) && (a != 0 || p.Solana?)
    case UpdateAdmin(c, i, a) => AdminIs(log, i, c) && !InTransfer(log, i) && (a != 0 || p.Solana?)
    case TransferAdmin(c, i, a) => AdminIs(log, i, c) && !InTransfer(log, i) && (a != 0 || p.Solana?)
    case ClaimAdmin(c, i) => InTransfer(log, i) && (AdminIs(log, i, c) || TransferTo(log, i, c))
    case DiscardAdmin(c, i) => AdminIs(log, i, c) && !InTransfer(log, i)
    case AddAdapter(c, i, a) =>
      MayConfigureBy(p, log, i, c) && (a != 0 || !p.Ethereum?) && a !in Added(log, i) && |Added(log, i)| < 128
    case Enable(c, side, i, chain, a) =>
      MayConfigureBy(p, log, i, c) && (chain != 0 || p.Aptos?) && a in Added(log, i) && !On(log, side, i, chain, a)
    case Disable(c, side, i, chain, a) => MayConfigureBy(p, log, i, c) && On(log, side, i, chain, a)
    case Attest(a, m) =>
      && (p.Ethereum? ==> m.dstChain == p.chain) && (p.Solana? ==> m.dstChain == 1)
      && On(log, RecvSide, m.dstAddr, m.srcChain, a) && Attest(a, m) !in log
    case Recv(m) =>
      && SomeAttested(log, m) && !ExecutedIn(log, m)
      && (p.Ethereum? ==> SomeOn(log, RecvSide, m.dstAddr, m.srcChain))
    case Exec(m) => !ExecutedIn(log, m) && (p.Solana? ==> m.srcChain != 0 && m.dstChain != 0)
    case Send(i, c, _, _, bytes) =>
      && SomeOn(log, SendSide, i, c) && Sends(log, i) < 0xFFFF_FFFF_FFFF_FFFF
      && (p.Ethereum? ==> Instructions.SpellsInRange(bytes, |Added(log, i)|))
    case PickUp(a, i, n) => !p.Ethereum? && Owed(log, i, n, a)
  }

  /** The log of the actions that were allowed when they came. */
  ghost function LogOf(p: Platform, acts: seq<Action>): seq<Action>
    decreases |acts|
  {
    if acts == [] then []
    else
      var log := LogOf(p, acts[..|acts| - 1]);
      if Allowed(p, log, acts[|acts| - 1]) then log + [acts[|acts| - 1]] else log
  }

  // ---------------------------------------------------------------- one more entry

  lemma SettledSnoc(log: seq<Action>, act: Action, i: Address, k: nat)
    ensures SettledBy(log + [act], i, k) <==> if ConcernsAdmin(act, i) then k == |log| else SettledBy(log, i, k)
  {
    hide ConcernsAdmin;
    var after := log + [act];
    assert after[|log|] == act;
    assert k < |log| ==> after[k] == log[k];
    if SettledBy(after, i, k) && k < |log| {
      forall j | k < j < |log|
        ensures !ConcernsAdmin(log[j], i)
      {
        assert after[j] == log[j];
      }
    }
  }

  lemma AdminSnoc(log: seq<Action>, act: Action, i: Address, x: Address)
    ensures AdminIs(log + [act], i, x) <==> if ConcernsAdmin(act, i) then MakesAdmin(act, x) else AdminIs(log, i, x)
    ensures TransferTo(log + [act], i, x) <==>
            if ConcernsAdmin(act, i) then act.TransferAdmin? && act.newAdmin == x else TransferTo(log, i, x)
  {
    hide SettledBy, ConcernsAdmin, MakesAdmin;
    var after := log + [act];
    forall k: nat
      ensures SettledBy(after, i, k) <==> if ConcernsAdmin(act, i) then k == |log| else SettledBy(log, i, k)
    {
      SettledSnoc(log, act, i, k);
    }
    assert after[|log|] == act;
    if ConcernsAdmin(act, i) {
      assert SettledBy(after, i, |log|);
    }
    forall k: nat | SettledBy(log, i, k)
      ensures k < |log| && after[k] == log[k] && (!ConcernsAdmin(act, i) ==> SettledBy(after, i, k))
    {
      SettledInside(log, i, k);
    }
  }

  lemma SettledInside(log: seq<Action>, i: Address, k: nat)
    requires SettledBy(log, i, k)
    ensures k < |log|
  {
  }

  lemma RegisteredSnoc(log: seq<Action>, act: Action, i: Address)
    ensures Registered(log + [act], i) <==> Registered(log, i) || (act.Register? && act.caller == i)
  {
    var after := log + [act];
    assert after[|log|] == act;
    if k :| 0 <= k < |log| && log[k].Register? && log[k].caller == i {
      assert after[k] == log[k];
    }
  }

  lemma AddedSnoc(log: seq<Action>, act: Action, i: Address)
    ensures Added(log + [act], i) == if Adds(act, i) then Added(log, i) + {act.adapter} else Added(log, i)
  {
    var after := log + [act];
    assert after[|log|] == act;
    forall a | a in Added(log, i)
      ensures a in Added(after, i)
    {
      var k :| 0 <= k < |log| && Adds(log[k], i) && log[k].adapter == a;
      assert after[k] == log[k];
    }
  }

  lemma OnSinceSnoc(log: seq<Action>, act: Action, t: Slot, a: Address, k: nat)
    requires k < |log|
    ensures OnSince(log + [act], t, a, k) <==> OnSince(log, t, a, k) && !Switches(act, false, t, a)
  {
    hide Switches;
    var after := log + [act];
    assert after[|log|] == act && after[k] == log[k];
    if OnSince(after, t, a, k) {
      forall j | k < j < |log|
        ensures !Switches(log[j], false, t, a)
      {
        assert after[j] == log[j];
      }
    }
  }

  lemma OnSnoc(log: seq<Action>, act: Action, side: Side, i: Address, c: Chain, a: Address)
    ensures var t := Slot(side, i, c);
            On(log + [act], side, i, c, a) <==>
            if Switches(act, true, t, a) then true
            else if Switches(act, false, t, a) then false else On(log, side, i, c, a)
  {
    var t, after := Slot(side, i, c), log + [act];
    assert after[|log|] == act;
    assert OnSince(after, t, a, |log|) <==> Switches(act, true, t, a);
    forall k: nat | k < |log|
      ensures OnSince(after, t, a, k) <==> OnSince(log, t, a, k) && !Switches(act, false, t, a)
    {
      OnSinceSnoc(log, act, t, a, k);
    }
    if Switches(act, true, t, a) {
      assert OnSince(after, t, a, |log|);
    }
    if k: nat :| OnSince(log, t, a, k) {
      assert !Switches(act, false, t, a) ==> OnSince(after, t, a, k);
    }
  }

  lemma SendsSnoc(log: seq<Action>, act: Action, i: Address)
    ensures Sends(log + [act], i) == Sends(log, i) + if SendsFor(act, i) then 1 else 0
  {
    var after := log + [act];
    var before := set k | 0 <= k < |log| && SendsFor(log[k], i);
    var now := set k | 0 <= k < |after| && SendsFor(after[k], i);
    assert after[|log|] == act;
    forall k | 0 <= k < |log|
      ensures after[k] == log[k]
    {
    }
    assert now == if SendsFor(act, i) then before + {|log|} else before;
  }

  lemma SentToSnoc(log: seq<Action>, act: Action, k: nat, i: Address, n: nat, a: Address)
    ensures SentTo(log + [act], k, i, n, a) <==>
            || SentTo(log, k, i, n, a)
            || (k == |log| && SendsFor(act, i) && Sends(log, i) == n && On(log, SendSide, i, act.dstChain, a))
  {
    hide Sends, On, SendsFor;
    var after := log + [act];
    if k < |log| {
      assert after[k] == log[k] && after[..k] == log[..k];
    } else if k == |log| {
      assert after[k] == act && after[..k] == log;
    }
  }

  lemma OwedSnoc(log: seq<Action>, act: Action, i: Address, n: nat, a: Address)
    ensures Owed(log + [act], i, n, a) <==>
            && act != PickUp(a, i, n) && PickUp(a, i, n) !in log
            && (Owed(log, i, n, a)
                || (SendsFor(act, i) && Sends(log, i) == n && On(log, SendSide, i, act.dstChain, a)))
  {
    hide SentTo, Sends, On;
    var after := log + [act];
    forall k: nat
      ensures SentTo(after, k, i, n, a) <==>
              || SentTo(log, k, i, n, a)
              || (k == |log| && SendsFor(act, i) && Sends(log, i) == n && On(log, SendSide, i, act.dstChain, a))
    {
      SentToSnoc(log, act, k, i, n, a);
    }
    if SendsFor(act, i) && Sends(log, i) == n && On(log, SendSide, i, act.dstChain, a) {
      assert SentTo(after, |log|, i, n, a);
    }
  }

  // ---------------------------------------------------------------- a state that reflects a log

  ghost predicate AdminsReflect(log: seq<Action>, s: State) {
    && (forall i :: i in s.admins <==> Registered(log, i))
    && (forall i, x :: IsAdmin(s, i, x) <==> AdminIs(log, i, x))
    && (forall i, x :: IsPending(s, i, x) <==> TransferTo(log, i, x))
  }

  predicate IsPending(s: State, i: Address, x: Address) {
    i in s.admins && s.admins[i].pending == Some(x)
  }

  /** The list holds the added adapters, each at the index that is the number added before it. */
  ghost predicate ListReflects(log: seq<Action>, list: seq<Address>, i: Address) {
    && (forall a :: a in list <==> a in Added(log, i))
    && |list| == |Added(log, i)|
    && (forall k :: 0 <= k < |log| && Adds(log[k], i) ==>
          var n := |Added(log[..k], i)|;
          n < |list| && list[n] == log[k].adapter)
  }

  ghost predicate EnabledReflects(log: seq<Action>, enabled: map<Slot, set<Address>>) {
    forall side, i, c, a :: a in EnabledAt(enabled, side, i, c) <==> On(log, side, i, c, a)
  }

  ghost predicate MessagesReflect(log: seq<Action>, s: State) {
    && (forall m, a :: a in Attesters(s.attested, m) <==> Attest(a, m) in log)
    && (forall m :: m in s.executed <==> ExecutedIn(log, m))
    && (forall m :: Attesters(s.attested, m) != {} ==> (m.dstAddr, m.srcChain) in s.configured)
  }

  ghost predicate SendsReflect(log: seq<Action>, next: map<Address, nat>) {
    forall i :: Lookup(next, i, 0) == Sends(log, i)
  }

  ghost predicate OutboxReflects(p: Platform, log: seq<Action>, s: State) {
    && (forall i, n, a :: !p.Ethereum? ==>
          (a in Outstanding(s.outbox, OutboxKey(i, n)) <==> Owed(log, i, n, a)))
    && (forall i, n, a :: PickUp(a, i, n) in log ==> n < Lookup(s.next, i, 0))
  }

  /** Everything the state keeps, read from the log. */
  ghost predicate Reflects(p: Platform, log: seq<Action>, s: State) {
    && AdminsReflect(log, s)
    && (forall i :: ListReflects(log, AdaptersOf(s.adapters, i), i))
    && EnabledReflects(log, s.enabled)
    && MessagesReflect(log, s)
    && SendsReflect(log, s.next)
    && OutboxReflects(p, log, s)
  }

  // ---------------------------------------------------------------- acceptance

  lemma TransferKnown(log: seq<Action>, s: State, i: Address)
    requires AdminsReflect(log, s)
    ensures NoTransfer(s, i) <==> !InTransfer(log, i)
  {
    hide AdminIs, TransferTo, Registered;
    if !NoTransfer(s, i) {
      assert IsPending(s, i, s.admins[i].pending.value);
    }
    if x: Address :| TransferTo(log, i, x) {
      assert IsPending(s, i, x);
    }
  }

  lemma AdminAllowed(p: Platform, log: seq<Action>, s: State, act: Action)
    requires AdminsReflect(log, s) && ChangesAdmin(act)
    ensures Enabled(RulesOf(p), s, act) <==> Allowed(p, log, act)
  {
    hide AdminIs, TransferTo, Registered, InTransfer;
    if !act.Register? {
      TransferKnown(log, s, act.integrator);
      assert IsAdmin(s, act.integrator, act.caller) <==> AdminIs(log, act.integrator, act.caller);
      assert IsPending(s, act.integrator, act.caller) <==> TransferTo(log, act.integrator, act.caller);
    }
  }

  lemma ConfigurationAllowed(p: Platform, log: seq<Action>, s: State, act: Action)
    requires AdminsReflect(log, s) && EnabledReflects(log, s.enabled)
    requires act.AddAdapter? || act.Enable? || act.Disable?
    requires ListReflects(log, AdaptersOf(s.adapters, act.integrator), act.integrator)
    ensures Enabled(RulesOf(p), s, act) <==> Allowed(p, log, act)
  {
    hide AdminIs, TransferTo, Registered, InTransfer, On, Added, AdaptersOf, EnabledAt;
    TransferKnown(log, s, act.integrator);
    assert IsAdmin(s, act.integrator, act.caller) <==> AdminIs(log, act.integrator, act.caller);
    if !act.AddAdapter? {
      assert act.adapter in EnabledAt(s.enabled, act.side, act.integrator, act.chain)
             <==> On(log, act.side, act.integrator, act.chain, act.adapter);
    }
  }

  lemma SomeOnKnown(log: seq<Action>, s: State, side: Side, i: Address, c: Chain)
    requires EnabledReflects(log, s.enabled)
    ensures EnabledAt(s.enabled, side, i, c) != {} <==> SomeOn(log, side, i, c)
  {
    hide On, EnabledAt;
    if a :| a in EnabledAt(s.enabled, side, i, c) {
      assert On(log, side, i, c, a);
    }
    if a: Address :| On(log, side, i, c, a) {
      assert a in EnabledAt(s.enabled, side, i, c);
    }
  }

  lemma SomeAttestedKnown(log: seq<Action>, s: State, m: Message)
    requires MessagesReflect(log, s)
    ensures Attesters(s.attested, m) != {} <==> SomeAttested(log, m)
  {
    hide Attesters, ExecutedIn;
    if a :| a in Attesters(s.attested, m) {
      assert Attest(a, m) in log;
    }
    if a: Address :| Attest(a, m) in log {
      assert a in Attesters(s.attested, m);
    }
  }

  lemma MessageAllowed(p: Platform, log: seq<Action>, s: State, act: Action)
    requires Inv(RulesOf(p), s) && EnabledReflects(log, s.enabled) && MessagesReflect(log, s)
    requires act.Attest? || act.Recv? || act.Exec?
    ensures Enabled(RulesOf(p), s, act) <==> Allowed(p, log, act)
  {
    var m := act.message;
    if Attesters(s.attested, m) != {} {
      AttestersRegistered(RulesOf(p), s, m);
    }
    EnabledConfigured(RulesOf(p), s, m.dstAddr, m.srcChain);
    hide Inv, On, SomeOn, SomeAttested, EnabledAt, Attesters, ExecutedIn;
    SomeOnKnown(log, s, RecvSide, m.dstAddr, m.srcChain);
    SomeAttestedKnown(log, s, m);
  }

  lemma EnabledConfigured(rules: Rules, s: State, i: Address, c: Chain)
    requires Inv(rules, s)
    ensures EnabledAt(s.enabled, RecvSide, i, c) != {} ==> (i, c) in s.configured
  {
  }

  lemma AttestersRegistered(rules: Rules, s: State, m: Message)
    requires Inv(rules, s) && Attesters(s.attested, m) != {}
    ensures m.dstAddr in s.admins
  {
  }

  lemma OutboxAllowed(p: Platform, log: seq<Action>, s: State, act: Action)
    requires Inv(RulesOf(p), s) && EnabledReflects(log, s.enabled) && SendsReflect(log, s.next)
    requires OutboxReflects(p, log, s) && (act.Send? || act.PickUp?)
    requires act.Send? ==> ListReflects(log, AdaptersOf(s.adapters, act.caller), act.caller)
    ensures Enabled(RulesOf(p), s, act) <==> Allowed(p, log, act)
  {
    hide Inv, On, SomeOn, EnabledAt, Owed, Sends, Added, AdaptersOf, Instructions.Accepts, Instructions.SpellsInRange;
    if act.Send? {
      SomeOnKnown(log, s, SendSide, act.caller, act.dstChain);
      Instructions.AcceptsExactly(act.instructions, |AdaptersOf(s.adapters, act.caller)|);
    } else {
      assert !p.Ethereum? ==> (act.caller in Outstanding(s.outbox, OutboxKey(act.integrator, act.sequence))
                               <==> Owed(log, act.integrator, act.sequence, act.caller));
    }
  }

  lemma EnabledIsAllowed(p: Platform, log: seq<Action>, s: State, act: Action)
    requires Inv(RulesOf(p), s) && Reflects(p, log, s)
    ensures Enabled(RulesOf(p), s, act) <==> Allowed(p, log, act)
  {
    hide Inv, Enabled, Allowed, AdminsReflect, ListReflects, EnabledReflects, MessagesReflect, SendsReflect,
         OutboxReflects;
    if ChangesAdmin(act) {
      AdminAllowed(p, log, s, act);
    } else if act.AddAdapter? || act.Enable? || act.Disable? {
      ConfigurationAllowed(p, log, s, act);
    } else if act.Attest? || act.Recv? || act.Exec? {
      MessageAllowed(p, log, s, act);
    } else {
      OutboxAllowed(p, log, s, act);
    }
  }

  // ---------------------------------------------------------------- effects

  lemma AdminsAdvance(rules: Rules, log: seq<Action>, s: State, act: Action)
    requires AdminsReflect(log, s) && Enabled(rules, s, act)
    ensures AdminsReflect(log + [act], Next(rules, s, act))
  {
    hide AdminIs, TransferTo, Registered;
    var t, after := Next(rules, s, act), log + [act];
    forall i: Address
      ensures i in t.admins <==> Registered(after, i)
    {
      RegisteredSnoc(log, act, i);
      AdminsAfterStep(rules, s, act, i);
    }
    forall i: Address, x: Address
      ensures IsAdmin(t, i, x) <==> AdminIs(after, i, x)
      ensures IsPending(t, i, x) <==> TransferTo(after, i, x)
    {
      AdminSnoc(log, act, i, x);
      AdminsAfterStep(rules, s, act, i);
      assert IsAdmin(s, i, x) <==> AdminIs(log, i, x);
      assert IsPending(s, i, x) <==> TransferTo(log, i, x);
    }
  }

  lemma AdminsAfterStep(rules: Rules, s: State, act: Action, i: Address)
    requires Enabled(rules, s, act)
    ensures var t := Next(rules, s, act);
            && (i in t.admins <==> i in s.admins || (act.Register? && act.caller == i))
            && (!ConcernsAdmin(act, i) ==> forall x :: (IsAdmin(t, i, x) <==> IsAdmin(s, i, x))
                                                       && (IsPending(t, i, x) <==> IsPending(s, i, x)))
            && (ConcernsAdmin(act, i) ==>
                  forall x :: (IsAdmin(t, i, x) <==> MakesAdmin(act, x))
                              && (IsPending(t, i, x) <==> act.TransferAdmin? && act.newAdmin == x))
  {
    Frame(rules, s, act);
  }

  lemma ListAdvance(rules: Rules, log: seq<Action>, s: State, act: Action, i: Address)
    requires Inv(rules, s) && ListReflects(log, AdaptersOf(s.adapters, i), i) && Enabled(rules, s, act)
    ensures ListReflects(log + [act], AdaptersOf(Next(rules, s, act).adapters, i), i)
  {
    hide Inv, Enabled, Next, Added, AdaptersOf, ListReflects;
    ListAfterStep(rules, s, act, i);
    ListSnoc(log, act, AdaptersOf(s.adapters, i), i);
  }

  lemma ListSnoc(log: seq<Action>, act: Action, list: seq<Address>, i: Address)
    requires ListReflects(log, list, i) && (Adds(act, i) ==> act.adapter !in list)
    ensures ListReflects(log + [act], list + if Adds(act, i) then [act.adapter] else [], i)
  {
    hide Added;
    AddedSnoc(log, act, i);
    var after, later := log + [act], list + if Adds(act, i) then [act.adapter] else [];
    forall k | 0 <= k < |after| && Adds(after[k], i)
      ensures var n := |Added(after[..k], i)|; n < |later| && later[n] == after[k].adapter
    {
      if k < |log| {
        assert after[..k] == log[..k] && after[k] == log[k];
      } else {
        assert after[..k] == log && after[k] == act;
      }
    }
  }

  lemma ListAfterStep(rules: Rules, s: State, act: Action, i: Address)
    requires Inv(rules, s) && Enabled(rules, s, act)
    ensures AdaptersOf(Next(rules, s, act).adapters, i)
            == AdaptersOf(s.adapters, i) + if Adds(act, i) then [act.adapter] else []
    ensures Adds(act, i) ==> act.adapter !in AdaptersOf(s.adapters, i)
  {
    Frame(rules, s, act);
    if act.AddAdapter? {
      AddEffect(rules, s, act);
    } else if act.Register? {
      RegisterKeepsLists(rules, s, act, i);
    }
  }

  lemma RegisterKeepsLists(rules: Rules, s: State, act: Action, i: Address)
    requires Inv(rules, s) && act.Register? && Enabled(rules, s, act)
    ensures AdaptersOf(Next(rules, s, act).adapters, i) == AdaptersOf(s.adapters, i)
  {
    assert act.caller !in s.adapters;
    hide Inv;
  }

  lemma EnabledAdvance(rules: Rules, log: seq<Action>, s: State, act: Action)
    requires EnabledReflects(log, s.enabled) && Enabled(rules, s, act)
    ensures EnabledReflects(log + [act], Next(rules, s, act).enabled)
  {
    hide On, Enabled, Next, Switches;
    forall side: Side, i: Address, c: Chain, a: Address
      ensures a in EnabledAt(Next(rules, s, act).enabled, side, i, c) <==> On(log + [act], side, i, c, a)
    {
      OnSnoc(log, act, side, i, c, a);
      SwitchStep(rules, s, act, Slot(side, i, c), a);
      NotBoth(act, Slot(side, i, c), a);
      assert a in EnabledAt(s.enabled, side, i, c) <==> On(log, side, i, c, a);
    }
  }

  lemma NotBoth(act: Action, t: Slot, a: Address)
    ensures !(Switches(act, true, t, a) && Switches(act, false, t, a))
  {
  }

  lemma MessagesAdvance(rules: Rules, log: seq<Action>, s: State, act: Action)
    requires Inv(rules, s) && MessagesReflect(log, s) && Enabled(rules, s, act)
    ensures MessagesReflect(log + [act], Next(rules, s, act))
  {
    hide Enabled, Next, Inv;
    var t, after := Next(rules, s, act), log + [act];
    forall m: Message, a: Address
      ensures a in Attesters(t.attested, m) <==> Attest(a, m) in after
    {
      AttestersStep(rules, s, act, m, a);
      assert a in Attesters(s.attested, m) <==> Attest(a, m) in log;
    }
    forall m: Message
      ensures m in t.executed <==> ExecutedIn(after, m)
    {
      ExecutedStep(rules, s, act, m);
      assert m in s.executed <==> ExecutedIn(log, m);
    }
    forall m: Message | Attesters(t.attested, m) != {}
      ensures (m.dstAddr, m.srcChain) in t.configured
    {
      ConfiguredAdvance(rules, s, act, m);
    }
  }

  lemma ConfiguredAdvance(rules: Rules, s: State, act: Action, m: Message)
    requires Inv(rules, s) && Attesters(Next(rules, s, act).attested, m) != {}
    requires Attesters(s.attested, m) != {} ==> (m.dstAddr, m.srcChain) in s.configured
    ensures (m.dstAddr, m.srcChain) in Next(rules, s, act).configured
  {
    if act.Attest? && act.message == m && Enabled(rules, s, act) {
      EnabledConfigured(rules, s, m.dstAddr, m.srcChain);
    }
    ConfiguredGrows(rules, s, act);
    hide Next, Inv;
    forall a | a in Attesters(Next(rules, s, act).attested, m)
      ensures a in Attesters(s.attested, m) || (act == Attest(a, m) && Enabled(rules, s, act))
    {
      AttestersStep(rules, s, act, m, a);
    }
  }

  lemma ConfiguredGrows(rules: Rules, s: State, act: Action)
    ensures s.configured <= Next(rules, s, act).configured
  {
    hide Enabled, Effect;
    Frame(rules, s, act);
    if (act.Enable? || act.Disable?) && Enabled(rules, s, act) {
      SetEffect(rules, s, act);
    }
  }

  lemma SendsAdvance(rules: Rules, log: seq<Action>, s: State, act: Action)
    requires Inv(rules, s) && SendsReflect(log, s.next) && Enabled(rules, s, act)
    ensures SendsReflect(log + [act], Next(rules, s, act).next)
  {
    hide Enabled, Next, Inv, Sends;
    forall i: Address
      ensures Lookup(Next(rules, s, act).next, i, 0) == Sends(log + [act], i)
    {
      SendsSnoc(log, act, i);
      NextSequence(rules, s, act, i);
      assert Lookup(s.next, i, 0) == Sends(log, i);
    }
  }

  lemma PickUpsAdvance(rules: Rules, log: seq<Action>, s: State, act: Action, i: Address, n: nat, a: Address)
    requires Inv(rules, s) && Enabled(rules, s, act) && PickUp(a, i, n) in log + [act]
    requires PickUp(a, i, n) in log ==> n < Lookup(s.next, i, 0)
    ensures n < Lookup(Next(rules, s, act).next, i, 0)
  {
    if act == PickUp(a, i, n) {
      assert OutboxKey(i, n) in s.outbox;
    }
    hide Enabled, Next, Inv;
    NextSequence(rules, s, act, i);
  }

  lemma OutstandingStep(rules: Rules, s: State, act: Action, i: Address, n: nat, a: Address)
    requires Inv(rules, s) && !rules.pushes && Enabled(rules, s, act)
    ensures a in Outstanding(Next(rules, s, act).outbox, OutboxKey(i, n)) <==>
            || (a in Outstanding(s.outbox, OutboxKey(i, n)) && act != PickUp(a, i, n))
            || (SendsFor(act, i) && Lookup(s.next, i, 0) == n && a in EnabledAt(s.enabled, SendSide, i, act.dstChain))
  {
    hide Enabled, Next, Inv, Effect;
    var key := OutboxKey(i, n);
    if Picks(rules, s, act, key) {
      ParcelPicked(rules, s, act, key);
    } else if n < Lookup(s.next, i, 0) {
      ParcelKept(rules, s, act, key);
      if act == PickUp(a, i, n) {
        PicksKnown(rules, s, act, i, n, a);
      }
    } else {
      NewParcel(rules, s, act, i, n, a);
    }
  }

  lemma PicksKnown(rules: Rules, s: State, act: Action, i: Address, n: nat, a: Address)
    requires Enabled(rules, s, act) && act == PickUp(a, i, n)
    ensures Picks(rules, s, act, OutboxKey(i, n))
  {
  }

  lemma NewParcel(rules: Rules, s: State, act: Action, i: Address, n: nat, a: Address)
    requires Inv(rules, s) && !rules.pushes && Enabled(rules, s, act) && n >= Lookup(s.next, i, 0)
    ensures a !in Outstanding(s.outbox, OutboxKey(i, n))
    ensures a in Outstanding(Next(rules, s, act).outbox, OutboxKey(i, n)) <==>
            SendsFor(act, i) && Lookup(s.next, i, 0) == n && a in EnabledAt(s.enabled, SendSide, i, act.dstChain)
  {
    assert OutboxKey(i, n) !in s.outbox;
    hide Inv;
    Frame(rules, s, act);
  }

  lemma OutboxAdvance(p: Platform, log: seq<Action>, s: State, act: Action)
    requires Inv(RulesOf(p), s) && EnabledReflects(log, s.enabled) && SendsReflect(log, s.next)
    requires OutboxReflects(p, log, s) && Enabled(RulesOf(p), s, act)
    ensures OutboxReflects(p, log + [act], Next(RulesOf(p), s, act))
  {
    hide Enabled, Next, Inv, Owed, On, Sends;
    var rules, after := RulesOf(p), log + [act];
    var t := Next(rules, s, act);
    forall i: Address, n: nat, a: Address | PickUp(a, i, n) in after
      ensures n < Lookup(t.next, i, 0)
    {
      PickUpsAdvance(rules, log, s, act, i, n, a);
    }
    if !p.Ethereum? {
      forall i: Address, n: nat, a: Address
        ensures a in Outstanding(t.outbox, OutboxKey(i, n)) <==> Owed(after, i, n, a)
      {
        OutstandingStep(rules, s, act, i, n, a);
        OwedSnoc(log, act, i, n, a);
        if Owed(log, i, n, a) {
          OwedNotPicked(log, i, n, a);
        }
        assert a in Outstanding(s.outbox, OutboxKey(i, n)) <==> Owed(log, i, n, a);
        assert Lookup(s.next, i, 0) == Sends(log, i);
        if act.Send? {
          assert a in EnabledAt(s.enabled, SendSide, i, act.dstChain) <==> On(log, SendSide, i, act.dstChain, a);
        }
      }
    }
  }

  lemma OwedNotPicked(log: seq<Action>, i: Address, n: nat, a: Address)
    requires Owed(log, i, n, a)
    ensures PickUp(a, i, n) !in log
  {
  }

  lemma ReflectsAdvance(p: Platform, log: seq<Action>, s: State, act: Action)
    requires Inv(RulesOf(p), s) && Reflects(p, log, s) && Enabled(RulesOf(p), s, act)
    ensures Reflects(p, log + [act], Next(RulesOf(p), s, act))
  {
    hide Inv, Enabled, Next, AdminsReflect, ListReflects, EnabledReflects, MessagesReflect, SendsReflect,
         OutboxReflects;
    var rules := RulesOf(p);
    AdminsAdvance(rules, log, s, act);
    forall i: Address
      ensures ListReflects(log + [act], AdaptersOf(Next(rules, s, act).adapters, i), i)
    {
      ListAdvance(rules, log, s, act, i);
    }
    EnabledAdvance(rules, log, s, act);
    MessagesAdvance(rules, log, s, act);
    SendsAdvance(rules, log, s, act);
    OutboxAdvance(p, log, s, act);
  }

  lemma InitialReflects(p: Platform)
    ensures Inv(RulesOf(p), INITIAL) && Reflects(p, [], INITIAL)
  {
    InitialInv(RulesOf(p));
  }

  // ---------------------------------------------------------------- every run is a history

  /** The state after any run is what the log says, and the log holds exactly the accepted actions. */
  lemma {:induction false} RunIsHistory(p: Platform, acts: seq<Action>)
    ensures Inv(RulesOf(p), Run(RulesOf(p), INITIAL, acts))
    ensures Reflects(p, LogOf(p, acts), Run(RulesOf(p), INITIAL, acts))
    ensures forall k :: 0 <= k < |acts| ==>
              (Accepted(RulesOf(p), INITIAL, acts, k) <==> Allowed(p, LogOf(p, acts[..k]), acts[k]))
    decreases |acts|
  {
    hide Inv, Reflects, Enabled, Effect, Allowed;
    if acts == [] {
      InitialReflects(p);
    } else {
      var n, rules := |acts| - 1, RulesOf(p);
      var before := acts[..n];
      var s, log := Run(rules, INITIAL, before), LogOf(p, before);
      RunIsHistory(p, before);
      forall k | 0 <= k < n
        ensures Accepted(rules, INITIAL, acts, k) <==> Allowed(p, LogOf(p, acts[..k]), acts[k])
      {
        assert before[..k] == acts[..k];
        AcceptedPrefix(rules, INITIAL, acts, n, k);
      }
      EnabledIsAllowed(p, log, s, acts[n]);
      RunInv(rules, INITIAL, acts) by { InitialReflects(p); }
      if Enabled(rules, s, acts[n]) {
        ReflectsAdvance(p, log, s, acts[n]);
      }
    }
  }

  lemma EnabledAfter(p: Platform, acts: seq<Action>, act: Action)
    ensures Enabled(RulesOf(p), Run(RulesOf(p), INITIAL, acts), act) <==> Allowed(p, LogOf(p, acts), act)
  {
    hide Enabled, Allowed, Run, LogOf, Reflects, Inv;
    RunIsHistory(p, acts);
    EnabledIsAllowed(p, LogOf(p, acts), Run(RulesOf(p), INITIAL, acts), act);
  }

  ghost predicate DoneAt(p: Platform, acts: seq<Action>, x: Action, k: nat) {
    k < |acts| && acts[k] == x && Accepted(RulesOf(p), INITIAL, acts, k)
  }

  /** The log holds an action exactly when some step of the run made it and was accepted. */
  lemma {:induction false} LogMember(p: Platform, acts: seq<Action>, x: Action)
    ensures x in LogOf(p, acts) <==> exists k: nat :: DoneAt(p, acts, x, k)
    decreases |acts|
  {
    hide Enabled, Next, Effect, Allowed;
    if acts != [] {
      var n := |acts| - 1;
      LogMember(p, acts[..n], x);
      RunIsHistory(p, acts);
      assert DoneAt(p, acts, x, n) <==> acts[n] == x && Allowed(p, LogOf(p, acts[..n]), acts[n]);
      forall k: nat | k < n
        ensures DoneAt(p, acts, x, k) <==> DoneAt(p, acts[..n], x, k)
      {
        AcceptedPrefix(RulesOf(p), INITIAL, acts, n, k);
      }
      if k: nat :| DoneAt(p, acts[..n], x, k) {
        assert DoneAt(p, acts, x, k);
      }
    }
  }

  /**
   * In any run, receiving a message is accepted if and only if some accepted step attested it and no accepted
   * step received or executed it; on EVM also some adapter must be enabled for its source chain just then.
   */
  lemma {:induction false} ReceiveExactly(p: Platform, acts: seq<Action>, j: nat, m: Message)
    requires j < |acts| && acts[j] == Recv(m)
    ensures var before := acts[..j];
            Accepted(RulesOf(p), INITIAL, acts, j) <==>
            && (exists a: Address, k: nat :: DoneAt(p, before, Attest(a, m), k))
            && (forall k: nat :: !DoneAt(p, before, Recv(m), k) && !DoneAt(p, before, Exec(m), k))
            && (p.Ethereum? ==>
                  EnabledAt(Run(RulesOf(p), INITIAL, before).enabled, RecvSide, m.dstAddr, m.srcChain) != {})
  {
    hide Enabled, Run, LogOf, On, DoneAt, EnabledAt;
    var before, log := acts[..j], LogOf(p, acts[..j]);
    RunIsHistory(p, acts);
    RunIsHistory(p, before);
    SomeOnKnown(log, Run(RulesOf(p), INITIAL, before), RecvSide, m.dstAddr, m.srcChain);
    LogMember(p, before, Recv(m));
    LogMember(p, before, Exec(m));
    forall a: Address
      ensures Attest(a, m) in log <==> exists k: nat :: DoneAt(p, before, Attest(a, m), k)
    {
      LogMember(p, before, Attest(a, m));
    }
    hide AdminsReflect, ListReflects, EnabledReflects, MessagesReflect, SendsReflect, OutboxReflects;
  }
}
