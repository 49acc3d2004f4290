/** Properties of every run of the protocol: any actions, any callers, any interleaving. */
module Runs {
  import opened Numbers
  import opened Bits
  import opened Bitmaps
  import opened Messages
  import opened Protocol

  // ---------------------------------------------------------------- prefixes

  lemma RunOneMore(rules: Rules, s: State, acts: seq<Action>, k: nat)
    requires k < |acts|
    ensures Run(rules, s, acts[..k + 1]) == Next(rules, Run(rules, s, acts[..k]), acts[k])
  {
    assert acts[..k + 1][..k] == acts[..k];
  }

  lemma RunWhole(rules: Rules, s: State, acts: seq<Action>)
    ensures Run(rules, s, acts[..|acts|]) == Run(rules, s, acts)
  {
    assert acts[..|acts|] == acts;
  }

  lemma AcceptedPrefix(rules: Rules, s: State, acts: seq<Action>, n: nat, k: nat)
    requires k < n <= |acts|
    ensures Accepted(rules, s, acts[..n], k) <==> Accepted(rules, s, acts, k)
  {
    assert acts[..n][..k] == acts[..k];
  }

  // ---------------------------------------------------------------- what only grows

  /** Later states extend earlier ones: lists and attesters grow, executed stays executed, sequences rise. */
  ghost predicate Extends(s: State, t: State) {
    && ListsGrow(s.adapters, t.adapters)
    && (forall m :: Attesters(s.attested, m) <= Attesters(t.attested, m))
    && s.executed <= t.executed
    && (forall i :: Lookup(s.next, i, 0) <= Lookup(t.next, i, 0))
  }

  lemma NextExtends(rules: Rules, s: State, act: Action)
    requires Inv(rules, s)
    ensures Extends(s, Next(rules, s, act))
  {
    hide Enabled, Next;
    NextGrows(rules, s, act);
    Frame(rules, s, act);
    var t := Next(rules, s, act);
    forall i: Address
      ensures Lookup(s.next, i, 0) <= Lookup(t.next, i, 0)
    {
      NextSequence(rules, s, act, i);
    }
    forall m: Message, a: Address | a in Attesters(s.attested, m)
      ensures a in Attesters(t.attested, m)
    {
      AttestersStep(rules, s, act, m, a);
    }
    forall m | m in s.executed
      ensures m in t.executed
    {
      ExecutedStep(rules, s, act, m);
    }
  }

  lemma ExecutedStep(rules: Rules, s: State, act: Action, m: Message)
    ensures m in Next(rules, s, act).executed <==> m in s.executed || (Executes(act, m) && Enabled(rules, s, act))
  {
  }

  /** Executed never returns to false, attested bits never clear, an adapter's index never moves. */
  lemma {:induction false} RunExtends(rules: Rules, s: State, acts: seq<Action>, j: nat, k: nat)
    requires Inv(rules, s) && j <= k <= |acts|
    ensures Extends(Run(rules, s, acts[..j]), Run(rules, s, acts[..k]))
    decreases k - j
  {
    hide Enabled, Next, Inv;
    if j < k {
      RunExtends(rules, s, acts, j, k - 1);
      RunOneMore(rules, s, acts, k - 1);
      RunInv(rules, s, acts[..k - 1]);
      NextExtends(rules, Run(rules, s, acts[..k - 1]), acts[k - 1]);
    }
  }

  // ---------------------------------------------------------------- attribution of attestations

  /** Step k was an accepted attestation of `m` by `a`, who was then enabled for the source chain. */
  ghost predicate AttestedBy(rules: Rules, acts: seq<Action>, m: Message, a: Address, k: nat) {
    && k < |acts| && acts[k] == Attest(a, m) && Accepted(rules, INITIAL, acts, k)
    && a in EnabledAt(Run(rules, INITIAL, acts[..k]).enabled, RecvSide, m.dstAddr, m.srcChain)
  }

  ghost predicate EverAttested(rules: Rules, acts: seq<Action>, m: Message, a: Address) {
    exists k: nat :: AttestedBy(rules, acts, m, a, k)
  }

  lemma AttestersStep(rules: Rules, s: State, act: Action, m: Message, a: Address)
    ensures a in Attesters(Next(rules, s, act).attested, m) <==>
            a in Attesters(s.attested, m) || (act == Attest(a, m) && Enabled(rules, s, act))
  {
  }

  /** In every run, the attesters of a message are exactly the adapters with such a step. */
  lemma {:induction false} Attribution(rules: Rules, acts: seq<Action>, m: Message, a: Address)
    ensures a in Attesters(Run(rules, INITIAL, acts).attested, m) <==> EverAttested(rules, acts, m, a)
    decreases |acts|
  {
    hide Next, Effect;
    if acts != [] {
      var n := |acts| - 1;
      Attribution(rules, acts[..n], m, a);
      AttestersStep(rules, Run(rules, INITIAL, acts[..n]), acts[n], m, a);
      forall k: nat | k < n
        ensures AttestedBy(rules, acts[..n], m, a, k) <==> AttestedBy(rules, acts, m, a, k)
      {
        assert acts[..n][..k] == acts[..k];
      }
      assert Enabled(rules, Run(rules, INITIAL, acts[..n]), acts[n]) && acts[n] == Attest(a, m)
             <==> AttestedBy(rules, acts, m, a, n);
      if a in Attesters(Run(rules, INITIAL, acts[..n]).attested, m) {
        var k: nat :| AttestedBy(rules, acts[..n], m, a, k);
        assert AttestedBy(rules, acts, m, a, k);
      }
      if k: nat :| AttestedBy(rules, acts, m, a, k) {
        assert k < n ==> AttestedBy(rules, acts[..n], m, a, k);
      }
    }
  }

  /**
   * For any stored bitmap that agrees with the run (every implementation's does): bit i is set exactly
   * when the adapter at index i attested, and that adapter had index i already when it did.
   */
  lemma {:induction false} BitAttribution(rules: Rules, acts: seq<Action>, m: Message, bitmap: u128, i: nat)
    requires Inv(rules, INITIAL)
    requires var t := Run(rules, INITIAL, acts);
             Holds(bitmap, AdaptersOf(t.adapters, m.dstAddr), Attesters(t.attested, m))
    ensures var list := AdaptersOf(Run(rules, INITIAL, acts).adapters, m.dstAddr);
            && (Bit(bitmap, i) <==> i < |list| && EverAttested(rules, acts, m, list[i]))
            && (forall k: nat :: i < |list| && AttestedBy(rules, acts, m, list[i], k) ==>
                  var before := AdaptersOf(Run(rules, INITIAL, acts[..k]).adapters, m.dstAddr);
                  i < |before| && before[i] == list[i])
  {
    hide Enabled, Effect;
    var list := AdaptersOf(Run(rules, INITIAL, acts).adapters, m.dstAddr);
    if i < |list| {
      Attribution(rules, acts, m, list[i]);
      forall k: nat | AttestedBy(rules, acts, m, list[i], k)
        ensures var before := AdaptersOf(Run(rules, INITIAL, acts[..k]).adapters, m.dstAddr);
                i < |before| && before[i] == list[i]
      {
        EnabledKeepsIndex(rules, acts, m, list[i], k, i);
      }
    }
  }

  lemma {:induction false} EnabledKeepsIndex(rules: Rules, acts: seq<Action>, m: Message, a: Address, k: nat, i: nat)
    requires Inv(rules, INITIAL) && AttestedBy(rules, acts, m, a, k)
    requires var list := AdaptersOf(Run(rules, INITIAL, acts).adapters, m.dstAddr); i < |list| && list[i] == a
    ensures var before := AdaptersOf(Run(rules, INITIAL, acts[..k]).adapters, m.dstAddr);
            i < |before| && before[i] == a
  {
    hide Enabled, Effect, Next;
    var s, t := Run(rules, INITIAL, acts[..k]), Run(rules, INITIAL, acts);
    var before, list := AdaptersOf(s.adapters, m.dstAddr), AdaptersOf(t.adapters, m.dstAddr);
    RunInv(rules, INITIAL, acts[..k]);
    RunInv(rules, INITIAL, acts);
    RunExtends(rules, INITIAL, acts, k, |acts|);
    RunWhole(rules, INITIAL, acts);
    assert Slot(RecvSide, m.dstAddr, m.srcChain) in s.enabled;
    assert a in before;
    var j :| 0 <= j < |before| && before[j] == a;
    assert list[j] == a;
  }

  /** The bitmap depends only on who attested, not on when or in which order. */
  lemma {:induction false} OrderIrrelevant(rules: Rules, acts1: seq<Action>, acts2: seq<Action>, m: Message,
                                           b1: u128, b2: u128)
    requires var t := Run(rules, INITIAL, acts1);
             Holds(b1, AdaptersOf(t.adapters, m.dstAddr), Attesters(t.attested, m))
    requires var t := Run(rules, INITIAL, acts2);
             Holds(b2, AdaptersOf(t.adapters, m.dstAddr), Attesters(t.attested, m))
    requires AdaptersOf(Run(rules, INITIAL, acts1).adapters, m.dstAddr)
             == AdaptersOf(Run(rules, INITIAL, acts2).adapters, m.dstAddr)
    requires forall a :: EverAttested(rules, acts1, m, a) <==> EverAttested(rules, acts2, m, a)
    ensures b1 == b2
  {
    hide Enabled, Effect, Next, Holds;
    var t1, t2 := Run(rules, INITIAL, acts1), Run(rules, INITIAL, acts2);
    forall a
      ensures a in Attesters(t1.attested, m) <==> a in Attesters(t2.attested, m)
    {
      Attribution(rules, acts1, m, a);
      Attribution(rules, acts2, m, a);
    }
    assert Attesters(t1.attested, m) == Attesters(t2.attested, m);
    HoldsUnique(b1, b2, AdaptersOf(t1.adapters, m.dstAddr), Attesters(t1.attested, m));
  }

  // ---------------------------------------------------------------- at most one execution

  predicate Executes(act: Action, m: Message) {
    act == Recv(m) || act == Exec(m)
  }

  /** Over any run, receiving and executing together succeed at most once per message. */
  lemma {:induction false} AtMostOnce(rules: Rules, s: State, acts: seq<Action>, m: Message, j: nat, k: nat)
    requires Inv(rules, s) && j < k < |acts| && Executes(acts[j], m) && Executes(acts[k], m)
    requires Accepted(rules, s, acts, j)
    ensures !Accepted(rules, s, acts, k)
  {
    RunOneMore(rules, s, acts, j);
    RunExtends(rules, s, acts, j + 1, k);
    assert m in Run(rules, s, acts[..j + 1]).executed;
  }

  // ---------------------------------------------------------------- sequences

  /** The numbers handed to an integrator by its accepted sends, in order. */
  ghost function Sent(rules: Rules, s: State, acts: seq<Action>, i: Address): seq<nat>
    decreases |acts|
  {
    if acts == [] then []
    else
      var n := |acts| - 1;
      Sent(rules, s, acts[..n], i)
      + if acts[n].Send? && acts[n].caller == i && Accepted(rules, s, acts, n)
        then [Lookup(Run(rules, s, acts[..n]).next, i, 0)] else []
  }

  lemma NextSequence(rules: Rules, s: State, act: Action, i: Address)
    requires Inv(rules, s)
    ensures Lookup(Next(rules, s, act).next, i, 0)
            == Lookup(s.next, i, 0) + if act.Send? && act.caller == i && Enabled(rules, s, act) then 1 else 0
  {
    hide Enabled, Next, Inv;
    if act.Send? {
      SendSequence(rules, s, act, i);
    } else if act.Register? {
      RegisterSequence(rules, s, act, i);
    } else {
      Frame(rules, s, act);
    }
  }

  lemma SendSequence(rules: Rules, s: State, act: Action, i: Address)
    requires act.Send?
    ensures Lookup(Next(rules, s, act).next, i, 0)
            == Lookup(s.next, i, 0) + if act.caller == i && Enabled(rules, s, act) then 1 else 0
  {
  }

  lemma RegisterSequence(rules: Rules, s: State, act: Action, i: Address)
    requires Inv(rules, s) && act.Register?
    ensures Lookup(Next(rules, s, act).next, i, 0) == Lookup(s.next, i, 0)
  {
    assert act.caller in s.admins <==> act.caller in s.next;
    hide Inv;
  }

  /** They are exactly 0, 1, ..., next - 1, each once. */
  lemma {:induction false} SequencesGapFree(rules: Rules, acts: seq<Action>, i: Address)
    requires Inv(rules, INITIAL)
    ensures var sent := Sent(rules, INITIAL, acts, i);
            && |sent| == Lookup(Run(rules, INITIAL, acts).next, i, 0)
            && forall k :: 0 <= k < |sent| ==> sent[k] == k
    decreases |acts|
  {
    hide Enabled, Next, Inv;
    if acts != [] {
      var n := |acts| - 1;
      SequencesGapFree(rules, acts[..n], i);
      RunInv(rules, INITIAL, acts[..n]);
      NextSequence(rules, Run(rules, INITIAL, acts[..n]), acts[n], i);
    }
  }

  // ---------------------------------------------------------------- conservation of the outbox

  function Outstanding(outbox: map<OutboxKey, Parcel>, k: OutboxKey): set<Address> {
    if k in outbox then outbox[k].outstanding else {}
  }

  /** The adapters with an accepted pickup of the message, and how many pickups were accepted. */
  ghost function Picked(rules: Rules, s: State, acts: seq<Action>, key: OutboxKey): (set<Address>, nat)
    decreases |acts|
  {
    if acts == [] then ({}, 0)
    else
      var n := |acts| - 1;
      var (who, count) := Picked(rules, s, acts[..n], key);
      if acts[n].PickUp? && OutboxKey(acts[n].integrator, acts[n].sequence) == key && Accepted(rules, s, acts, n)
      then (who + {acts[n].caller}, count + 1) else (who, count)
  }

  /** Step k was the accepted send that created the message `key`. */
  ghost predicate SentAs(rules: Rules, s: State, acts: seq<Action>, k: nat, key: OutboxKey) {
    && k < |acts| && acts[k].Send? && acts[k].caller == key.integrator && Accepted(rules, s, acts, k)
    && Lookup(Run(rules, s, acts[..k]).next, key.integrator, 0) == key.sequence
  }

  ghost predicate Picks(rules: Rules, s: State, act: Action, key: OutboxKey) {
    act.PickUp? && OutboxKey(act.integrator, act.sequence) == key && Enabled(rules, s, act)
  }

  /** A message already sent keeps its parcel through every action but its own pickups. */
  lemma ParcelKept(rules: Rules, s: State, act: Action, key: OutboxKey)
    requires key.sequence < Lookup(s.next, key.integrator, 0) && !Picks(rules, s, act, key)
    ensures var t := Next(rules, s, act);
            (key in t.outbox <==> key in s.outbox) && (key in s.outbox ==> t.outbox[key] == s.outbox[key])
  {
  }

  lemma ParcelPicked(rules: Rules, s: State, act: Action, key: OutboxKey)
    requires Picks(rules, s, act, key)
    ensures key in s.outbox && act.caller in s.outbox[key].outstanding
    ensures var t, left := Next(rules, s, act), s.outbox[key].outstanding - {act.caller};
            && (key in t.outbox <==> left != {})
            && (key in t.outbox ==> t.outbox[key] == s.outbox[key].(outstanding := left))
  {
  }

  lemma {:induction false} NotPickedBefore(rules: Rules, s: State, acts: seq<Action>, key: OutboxKey)
    requires Inv(rules, s) && Lookup(Run(rules, s, acts).next, key.integrator, 0) <= key.sequence
    ensures Picked(rules, s, acts, key) == ({}, 0)
    decreases |acts|
  {
    hide Next, Effect;
    if acts != [] {
      var n := |acts| - 1;
      var t := Run(rules, s, acts[..n]);
      RunInv(rules, s, acts[..n]);
      NextExtends(rules, t, acts[n]);
      assert Run(rules, s, acts) == Next(rules, t, acts[n]);
      assert Lookup(t.next, key.integrator, 0) <= Lookup(Run(rules, s, acts).next, key.integrator, 0);
      NotPickedBefore(rules, s, acts[..n], key);
      assert key !in t.outbox;
    }
  }

  ghost predicate Conserved(t: State, key: OutboxKey, send: Action, snapshot: set<Address>, who: set<Address>,
                            count: nat)
    requires send.Send?
  {
    && snapshot == Outstanding(t.outbox, key) + who
    && Outstanding(t.outbox, key) !! who
    && count == |who|
    && (key in t.outbox <==> Outstanding(t.outbox, key) != {})
    && (key in t.outbox ==> t.outbox[key].dstChain == send.dstChain && t.outbox[key].dstAddr == send.dstAddr
                            && t.outbox[key].payloadHash == send.payloadHash)
    && key.sequence < Lookup(t.next, key.integrator, 0)
  }

  lemma ConservedStep(rules: Rules, s: State, act: Action, key: OutboxKey, send: Action, snapshot: set<Address>,
                      who: set<Address>, count: nat)
    requires Inv(rules, s) && send.Send? && Conserved(s, key, send, snapshot, who, count)
    ensures var picks := Picks(rules, s, act, key);
            Conserved(Next(rules, s, act), key, send, snapshot,
                      if picks then who + {act.caller} else who, if picks then count + 1 else count)
  {
    hide Enabled, Next, Effect, Inv;
    NextExtends(rules, s, act);
    if Picks(rules, s, act, key) {
      ParcelPicked(rules, s, act, key);
    } else {
      ParcelKept(rules, s, act, key);
    }
  }

  lemma ConservedSend(rules: Rules, s: State, act: Action, key: OutboxKey)
    requires Inv(rules, s) && !rules.pushes && act.Send? && act.caller == key.integrator && Enabled(rules, s, act)
    requires Lookup(s.next, key.integrator, 0) == key.sequence
    ensures Conserved(Next(rules, s, act), key, act,
                      EnabledAt(s.enabled, SendSide, key.integrator, act.dstChain), {}, 0)
  {
  }

  lemma {:induction false} ConservedRun(rules: Rules, s: State, acts: seq<Action>, k: nat, key: OutboxKey)
    requires Inv(rules, s) && !rules.pushes && SentAs(rules, s, acts, k, key)
    ensures var snapshot := EnabledAt(Run(rules, s, acts[..k]).enabled, SendSide, key.integrator, acts[k].dstChain);
            var picked := Picked(rules, s, acts, key);
            Conserved(Run(rules, s, acts), key, acts[k], snapshot, picked.0, picked.1)
    decreases |acts|
  {
    hide Enabled, Next, Inv, Effect, Conserved;
    var n := |acts| - 1;
    var t := Run(rules, s, acts[..n]);
    RunInv(rules, s, acts[..n]);
    if k == n {
      NotPickedBefore(rules, s, acts[..n], key);
      ConservedSend(rules, t, acts[n], key);
    } else {
      assert acts[..n][..k] == acts[..k];
      ConservedRun(rules, s, acts[..n], k, key);
      var picked := Picked(rules, s, acts[..n], key);
      var snapshot := EnabledAt(Run(rules, s, acts[..k]).enabled, SendSide, key.integrator, acts[k].dstChain);
      ConservedStep(rules, t, acts[n], key, acts[k], snapshot, picked.0, picked.1);
    }
  }

  /**
   * For every message sent: the adapters enabled at that moment are, at any later time, the disjoint
   * union of those still outstanding and those who picked it up, each of whom did so once. The message
   * is stored, with its contents, exactly while somebody is outstanding; it is gone after exactly as
   * many pickups as adapters were enabled. Nothing enabled, disabled or added later matters.
   */
  lemma {:induction false} OutboxConservation(rules: Rules, s: State, acts: seq<Action>, k: nat, key: OutboxKey)
    requires Inv(rules, s) && !rules.pushes && SentAs(rules, s, acts, k, key)
    ensures var snapshot := EnabledAt(Run(rules, s, acts[..k]).enabled, SendSide, key.integrator, acts[k].dstChain);
            var (t, picked) := (Run(rules, s, acts), Picked(rules, s, acts, key));
            && snapshot == Outstanding(t.outbox, key) + picked.0
            && Outstanding(t.outbox, key) !! picked.0
            && picked.1 == |picked.0|
            && (key in t.outbox <==> Outstanding(t.outbox, key) != {})
            && (key !in t.outbox <==> picked.1 == |snapshot|)
            && (key in t.outbox ==>
                  && t.outbox[key].dstChain == acts[k].dstChain && t.outbox[key].dstAddr == acts[k].dstAddr
                  && t.outbox[key].payloadHash == acts[k].payloadHash)
  {
    hide Enabled, Next, Inv, Effect, Run, Picked;
    ConservedRun(rules, s, acts, k, key);
    Partition(EnabledAt(Run(rules, s, acts[..k]).enabled, SendSide, key.integrator, acts[k].dstChain),
              Outstanding(Run(rules, s, acts).outbox, key), Picked(rules, s, acts, key).0);
  }

  lemma Partition(whole: set<Address>, left: set<Address>, gone: set<Address>)
    requires left !! gone && whole == left + gone
    ensures left == {} <==> |gone| == |whole|
  {
  }

  // ---------------------------------------------------------------- who may pick up

  /** The action enables (`on`) or disables the adapter for the slot. */
  predicate Switches(act: Action, on: bool, t: Slot, a: Address) {
    && (if on then act.Enable? else act.Disable?)
    && Slot(act.side, act.integrator, act.chain) == t && act.adapter == a
  }

  lemma SwitchStep(rules: Rules, s: State, act: Action, t: Slot, a: Address)
    ensures a in Lookup(Next(rules, s, act).enabled, t, {}) <==>
            if Switches(act, true, t, a) && Enabled(rules, s, act) then true
            else if Switches(act, false, t, a) && Enabled(rules, s, act) then false
            else a in Lookup(s.enabled, t, {})
  {
    if (act.Enable? || act.Disable?) && Enabled(rules, s, act) {
      SetEffect(rules, s, act);
    } else {
      Frame(rules, s, act);
    }
  }

  ghost predicate SwitchedAt(rules: Rules, s: State, acts: seq<Action>, d: nat, on: bool, t: Slot, a: Address)
    requires d < |acts|
  {
    Switches(acts[d], on, t, a) && Accepted(rules, s, acts, d)
  }

  /** Step d, in [k, j), disabled the adapter, and no step of [d, j) enabled it again. */
  ghost predicate OffSince(rules: Rules, s: State, acts: seq<Action>, k: nat, j: nat, t: Slot, a: Address, d: nat)
    requires j <= |acts|
  {
    && k <= d < j && SwitchedAt(rules, s, acts, d, false, t, a)
    && forall e: nat :: d < e < j ==> !SwitchedAt(rules, s, acts, e, true, t, a)
  }

  /** Of an adapter enabled at step k: at step j it is disabled exactly if someone disabled it and left it so. */
  lemma {:induction false} DisabledExactly(rules: Rules, s: State, acts: seq<Action>, k: nat, j: nat, t: Slot,
                                           a: Address)
    requires k <= j <= |acts| && a in Lookup(Run(rules, s, acts[..k]).enabled, t, {})
    ensures a !in Lookup(Run(rules, s, acts[..j]).enabled, t, {}) <==>
            exists d: nat :: OffSince(rules, s, acts, k, j, t, a, d)
    decreases j
  {
    hide Enabled, Next, Effect, Run;
    if k < j {
      var n := j - 1;
      DisabledExactly(rules, s, acts, k, n, t, a);
      RunOneMore(rules, s, acts, n);
      SwitchStep(rules, Run(rules, s, acts[..n]), acts[n], t, a);
      forall d: nat | d < n
        ensures OffSince(rules, s, acts, k, j, t, a, d) <==>
                OffSince(rules, s, acts, k, n, t, a, d) && !SwitchedAt(rules, s, acts, n, true, t, a)
      {
      }
      assert OffSince(rules, s, acts, k, j, t, a, n) <==> SwitchedAt(rules, s, acts, n, false, t, a);
    }
  }

  /**
   * A pickup is accepted exactly from an adapter that was enabled when the message was sent and has not
   * picked it up yet. The documentation asks for one enabled now: an accepted pickup meets that unless,
   * and only unless, somebody disabled the adapter since the send and nobody enabled it again.
   */
  lemma {:induction false} PickUpRule(rules: Rules, s: State, acts: seq<Action>, k: nat, j: nat, key: OutboxKey)
    requires Inv(rules, s) && !rules.pushes && SentAs(rules, s, acts, k, key)
    requires k < j < |acts| && acts[j].PickUp? && OutboxKey(acts[j].integrator, acts[j].sequence) == key
    ensures var a, t := acts[j].caller, Slot(SendSide, key.integrator, acts[k].dstChain);
            && (Accepted(rules, s, acts, j) <==>
                a in Lookup(Run(rules, s, acts[..k]).enabled, t, {}) && a !in Picked(rules, s, acts[..j], key).0)
            && (Accepted(rules, s, acts, j) ==>
                  (a !in Lookup(Run(rules, s, acts[..j]).enabled, t, {}) <==>
                   exists d: nat :: OffSince(rules, s, acts, k, j, t, a, d)))
  {
    hide Next, Effect, Run, Inv;
    var a, t := acts[j].caller, Slot(SendSide, key.integrator, acts[k].dstChain);
    assert acts[..j][..k] == acts[..k];
    assert SentAs(rules, s, acts[..j], k, key);
    OutboxConservation(rules, s, acts[..j], k, key);
    if Accepted(rules, s, acts, j) {
      DisabledExactly(rules, s, acts, k, j, t, a);
    }
  }

  /** So the documented rule is not kept: a run whose last step is a pickup by an adapter no longer enabled. */
  lemma PickUpWhileDisabled(rules: Rules)
    requires rules == SVM || rules == APTOS
    ensures var acts := [Register(1, 2), AddAdapter(2, 1, 3), Enable(2, SendSide, 1, 4, 3), Send(1, 4, 5, 6, []),
                         Disable(2, SendSide, 1, 4, 3), PickUp(3, 1, 0)];
            && SentAs(rules, INITIAL, acts, 3, OutboxKey(1, 0))
            && Accepted(rules, INITIAL, acts, 5)
            && 3 !in EnabledAt(Run(rules, INITIAL, acts[..5]).enabled, SendSide, 1, 4)
  {
    hide Run, Next, Enabled;
    var acts := [Register(1, 2), AddAdapter(2, 1, 3), Enable(2, SendSide, 1, 4, 3), Send(1, 4, 5, 6, []),
                 Disable(2, SendSide, 1, 4, 3), PickUp(3, 1, 0)];
    RunNone(rules, INITIAL, acts);
    RunOneMore(rules, INITIAL, acts, 0);
    RunOneMore(rules, INITIAL, acts, 1);
    RunOneMore(rules, INITIAL, acts, 2);
    RunOneMore(rules, INITIAL, acts, 3);
    RunOneMore(rules, INITIAL, acts, 4);
    OneAdapter(rules);
    OneMessage(rules);
  }

  /** An integrator 1 whose admin 2 enabled adapter 3 for sending to chain 4. */
  const ONE_ADAPTER := State(map[1 := Admins(Some(2), None)], map[1 := [3]], map[1 := 0], {(1, 4)},
                             map[Slot(SendSide, 1, 4) := {3}], map[], {}, map[])

  lemma OneAdapter(rules: Rules)
    requires rules == SVM || rules == APTOS
    ensures var s := Next(rules, Next(rules, INITIAL, Register(1, 2)), AddAdapter(2, 1, 3));
            Next(rules, s, Enable(2, SendSide, 1, 4, 3)) == ONE_ADAPTER
  {
    var s := Next(rules, INITIAL, Register(1, 2));
    var t := Next(rules, s, AddAdapter(2, 1, 3));
    assert AdaptersOf(t.adapters, 1) == [3] && 3 in AdaptersOf(t.adapters, 1);
    assert Enabled(rules, t, Enable(2, SendSide, 1, 4, 3));
    var u := Next(rules, t, Enable(2, SendSide, 1, 4, 3));
    assert u.adapters == ONE_ADAPTER.adapters;
    assert EnabledAt(t.enabled, SendSide, 1, 4) + {3} == {3};
    assert u.enabled == ONE_ADAPTER.enabled;
    assert u.admins == ONE_ADAPTER.admins && u.next == ONE_ADAPTER.next;
    assert u.configured == {(1, 4)};
  }

  lemma OneMessage(rules: Rules)
    requires rules == SVM || rules == APTOS
    ensures var sent := Next(rules, ONE_ADAPTER, Send(1, 4, 5, 6, []));
            var disabled := Next(rules, sent, Disable(2, SendSide, 1, 4, 3));
            && Enabled(rules, ONE_ADAPTER, Send(1, 4, 5, 6, []))
            && Enabled(rules, disabled, PickUp(3, 1, 0))
            && 3 !in EnabledAt(disabled.enabled, SendSide, 1, 4)
  {
    var sent := Next(rules, ONE_ADAPTER, Send(1, 4, 5, 6, []));
    assert 3 in EnabledAt(ONE_ADAPTER.enabled, SendSide, 1, 4);
    assert sent.outbox[OutboxKey(1, 0)].outstanding == {3};
  }

  lemma RunNone(rules: Rules, s: State, acts: seq<Action>)
    ensures Run(rules, s, acts[..0]) == s
  {
  }

  // ---------------------------------------------------------------- the admin life cycle

  /** An integrator's whole configuration: admins, adapter list, enabled sets. */
  ghost predicate SameConfig(s: State, t: State, i: Address) {
    && (i in s.admins <==> i in t.admins)
    && (i in s.admins ==> t.admins[i] == s.admins[i])
    && AdaptersOf(s.adapters, i) == AdaptersOf(t.adapters, i)
    && forall side, c :: EnabledAt(s.enabled, side, i, c) == EnabledAt(t.enabled, side, i, c)
  }

  /** Only an accepted registration or an accepted act of the admin or pending admin changes a configuration. */
  lemma ConfigStep(rules: Rules, s: State, act: Action, i: Address)
    ensures SameConfig(s, Next(rules, s, act), i) || (Enabled(rules, s, act) && Configures(act, i))
  {
    if Enabled(rules, s, act) && !Configures(act, i) {
      Frame(rules, s, act);
      if act.Enable? || act.Disable? {
        hide Enabled, Effect;
        SetEffect(rules, s, act);
      } else if ChangesAdmin(act) && !act.Register? {
        hide Enabled, Effect;
        AdminEffect(rules, s, act);
      } else if !act.Register? && !act.AddAdapter? {
        hide Enabled, Effect;
      }
    }
  }

  predicate Configures(act: Action, i: Address) {
    match act
    case Register(c, _) => c == i
    case UpdateAdmin(_, j, _) => j == i
    case TransferAdmin(_, j, _) => j == i
    case ClaimAdmin(_, j) => j == i
    case DiscardAdmin(_, j) => j == i
    case AddAdapter(_, j, _) => j == i
    case Enable(_, _, j, _, _) => j == i
    case Disable(_, _, j, _, _) => j == i
    case _ => false
  }

  ghost predicate Frozen(s: State, i: Address) {
    i in s.admins && s.admins[i] == Admins(None, None)
  }

  lemma FrozenStep(rules: Rules, s: State, act: Action, i: Address)
    requires Frozen(s, i)
    ensures SameConfig(s, Next(rules, s, act), i)
    ensures Configures(act, i) ==> !Enabled(rules, s, act)
  {
    ConfigStep(rules, s, act, i);
    hide Next, Effect, SameConfig;
  }

  /** A discard is accepted exactly from the admin with no transfer pending, and leaves no admin at all. */
  lemma DiscardClears(rules: Rules, s: State, c: Address, i: Address)
    ensures Enabled(rules, s, DiscardAdmin(c, i)) <==> i in s.admins && s.admins[i] == Admins(Some(c), None)
    ensures Enabled(rules, s, DiscardAdmin(c, i)) ==>
              Next(rules, s, DiscardAdmin(c, i)).admins == s.admins[i := Admins(None, None)]
  {
  }

  lemma {:induction false} FrozenRun(rules: Rules, s: State, acts: seq<Action>, k: nat, j: nat, i: Address)
    requires k <= j <= |acts| && Frozen(Run(rules, s, acts[..k]), i)
    ensures Frozen(Run(rules, s, acts[..j]), i) && SameConfig(Run(rules, s, acts[..k]), Run(rules, s, acts[..j]), i)
    decreases j
  {
    hide Enabled, Next, Effect, Run;
    if k < j {
      FrozenRun(rules, s, acts, k, j - 1, i);
      RunOneMore(rules, s, acts, j - 1);
      FrozenStep(rules, Run(rules, s, acts[..j - 1]), acts[j - 1], i);
    }
  }

  /**
   * From an accepted discard on, whatever anybody does: there is no admin and no pending admin, the
   * configuration stays as the discard left it, and every action to change it, registering again included,
   * is refused.
   */
  lemma {:induction false} DiscardFreezes(rules: Rules, s: State, acts: seq<Action>, k: nat, j: nat, i: Address)
    requires k < j <= |acts| && acts[k].DiscardAdmin? && acts[k].integrator == i && Accepted(rules, s, acts, k)
    ensures var t := Run(rules, s, acts[..j]);
            && i in t.admins && t.admins[i].admin.None? && t.admins[i].pending.None?
            && SameConfig(Run(rules, s, acts[..k + 1]), t, i)
            && (j < |acts| && Configures(acts[j], i) ==> !Accepted(rules, s, acts, j))
  {
    hide Enabled, Next, Effect, Run;
    var t := Run(rules, s, acts[..k]);
    RunOneMore(rules, s, acts, k);
    DiscardClears(rules, t, acts[k].caller, i);
    FrozenRun(rules, s, acts, k + 1, j, i);
    if j < |acts| {
      FrozenStep(rules, Run(rules, s, acts[..j]), acts[j], i);
    }
  }

  /** An update is accepted exactly from the admin with no transfer pending; the named one is then the only admin. */
  lemma UpdateReplaces(rules: Rules, s: State, c: Address, i: Address, a: Address)
    ensures Enabled(rules, s, UpdateAdmin(c, i, a)) <==>
            i in s.admins && s.admins[i] == Admins(Some(c), None) && (a != 0 || rules.zeroAdmin)
    ensures Enabled(rules, s, UpdateAdmin(c, i, a)) ==>
              var t := Next(rules, s, UpdateAdmin(c, i, a));
              t.admins == s.admins[i := Admins(Some(a), None)] && forall x :: IsAdmin(t, i, x) <==> x == a
  {
  }

  lemma RegisteredStays(rules: Rules, s: State, act: Action, i: Address)
    requires i in s.admins
    ensures i in Next(rules, s, act).admins
  {
    Frame(rules, s, act);
  }

  /** An integrator is registered at most once in any run. */
  lemma {:induction false} RegisterOnce(rules: Rules, s: State, acts: seq<Action>, j: nat, k: nat)
    requires j < k < |acts| && acts[j].Register? && acts[k].Register? && acts[j].caller == acts[k].caller
    requires Accepted(rules, s, acts, j)
    ensures acts[j].caller in Run(rules, s, acts[..k]).admins && !Accepted(rules, s, acts, k)
    decreases k
  {
    hide Run;
    RunOneMore(rules, s, acts, j);
    StaysRegistered(rules, s, acts, j + 1, k, acts[j].caller);
  }

  lemma {:induction false} StaysRegistered(rules: Rules, s: State, acts: seq<Action>, j: nat, k: nat, i: Address)
    requires j <= k <= |acts| && i in Run(rules, s, acts[..j]).admins
    ensures i in Run(rules, s, acts[..k]).admins
    decreases k
  {
    hide Run, Next;
    if j < k {
      StaysRegistered(rules, s, acts, j, k - 1, i);
      RunOneMore(rules, s, acts, k - 1);
      RegisteredStays(rules, Run(rules, s, acts[..k - 1]), acts[k - 1], i);
    }
  }

  ghost predicate Pending(s: State, i: Address, old': Address, new': Address) {
    i in s.admins && s.admins[i] == Admins(Some(old'), Some(new'))
  }

  /** A transfer is accepted exactly from the admin with none pending; it keeps the admin beside the named one. */
  lemma TransferNames(rules: Rules, s: State, c: Address, i: Address, a: Address)
    ensures Enabled(rules, s, TransferAdmin(c, i, a)) <==>
            i in s.admins && s.admins[i] == Admins(Some(c), None) && (a != 0 || rules.zeroAdmin)
    ensures Enabled(rules, s, TransferAdmin(c, i, a)) ==>
              Next(rules, s, TransferAdmin(c, i, a)).admins == s.admins[i := Admins(Some(c), Some(a))]
  {
  }

  lemma PendingStep(rules: Rules, s: State, act: Action, i: Address, old': Address, new': Address)
    requires Pending(s, i, old', new') && act != ClaimAdmin(old', i) && act != ClaimAdmin(new', i)
    ensures Pending(Next(rules, s, act), i, old', new')
    ensures rules.lockAdapters ==> SameConfig(s, Next(rules, s, act), i)
  {
    ConfigStep(rules, s, act, i);
    Frame(rules, s, act);
    if ChangesAdmin(act) && !act.Register? && Enabled(rules, s, act) {
      AdminEffect(rules, s, act);
    }
    hide Next, Effect, SameConfig;
  }

  /** Step k, an accepted transfer of `i` by `c` to `a`, was not followed by a claim of either before step j. */
  ghost predicate Transferring(rules: Rules, s: State, acts: seq<Action>, k: nat, j: nat, i: Address, c: Address,
                               a: Address)
  {
    && k < j <= |acts| && acts[k] == TransferAdmin(c, i, a) && Accepted(rules, s, acts, k)
    && forall e :: k < e < j ==> acts[e] != ClaimAdmin(c, i) && acts[e] != ClaimAdmin(a, i)
  }

  /**
   * From an accepted transfer until one of the two claims: the old admin and the named one, and nobody else,
   * are admin and pending admin; with the lock nothing anybody does changes the configuration.
   */
  lemma {:induction false} TransferLocks(rules: Rules, s: State, acts: seq<Action>, k: nat, j: nat, i: Address,
                                         c: Address, a: Address)
    requires Transferring(rules, s, acts, k, j, i, c, a)
    ensures var t := Run(rules, s, acts[..j]);
            && i in t.admins && t.admins[i] == Admins(Some(c), Some(a))
            && (rules.lockAdapters ==> SameConfig(Run(rules, s, acts[..k + 1]), t, i))
    decreases j
  {
    hide Enabled, Next, Effect, Run;
    RunOneMore(rules, s, acts, j - 1);
    if j == k + 1 {
      TransferNames(rules, Run(rules, s, acts[..k]), c, i, a);
    } else {
      TransferLocks(rules, s, acts, k, j - 1, i, c, a);
      PendingStep(rules, Run(rules, s, acts[..j - 1]), acts[j - 1], i, c, a);
    }
  }

  /**
   * After an accepted transfer not claimed yet, a claim is accepted from the old and the named admin only; it
   * makes the claimer the admin and clears the transfer.
   */
  lemma {:induction false} ClaimEnds(rules: Rules, s: State, acts: seq<Action>, k: nat, j: nat, i: Address,
                                     c: Address, a: Address)
    requires Transferring(rules, s, acts, k, j, i, c, a) && j < |acts|
    requires acts[j].ClaimAdmin? && acts[j].integrator == i
    ensures Accepted(rules, s, acts, j) <==> acts[j].caller == c || acts[j].caller == a
    ensures Accepted(rules, s, acts, j) ==>
              var t := Run(rules, s, acts[..j + 1]);
              i in t.admins && t.admins[i] == Admins(Some(acts[j].caller), None)
  {
    hide Run, Effect, Enabled, Next;
    TransferLocks(rules, s, acts, k, j, i, c, a);
    RunOneMore(rules, s, acts, j);
    ClaimTakes(rules, Run(rules, s, acts[..j]), acts[j].caller, i, c, a);
  }

  lemma ClaimTakes(rules: Rules, s: State, x: Address, i: Address, c: Address, a: Address)
    requires Pending(s, i, c, a)
    ensures Enabled(rules, s, ClaimAdmin(x, i)) <==> x == c || x == a
    ensures Enabled(rules, s, ClaimAdmin(x, i)) ==>
              Next(rules, s, ClaimAdmin(x, i)).admins == s.admins[i := Admins(Some(x), None)]
  {
  }

  /** The action registers `i` with admin `x`, or is by the admin of `i` and names `x`. */
  predicate Names(s: State, act: Action, i: Address, x: Address) {
    match act
    case Register(c, y) => c == i && y == x
    case UpdateAdmin(c, j, y) => j == i && y == x && IsAdmin(s, i, c)
    case TransferAdmin(c, j, y) => j == i && y == x && IsAdmin(s, i, c)
    case _ => false
  }

  ghost predicate NamedAt(rules: Rules, acts: seq<Action>, i: Address, x: Address, k: nat) {
    k < |acts| && Accepted(rules, INITIAL, acts, k) && Names(Run(rules, INITIAL, acts[..k]), acts[k], i, x)
  }

  predicate Holder(s: State, i: Address, x: Address) {
    i in s.admins && (s.admins[i].admin == Some(x) || s.admins[i].pending == Some(x))
  }

  lemma HolderStep(rules: Rules, s: State, act: Action, i: Address, x: Address)
    requires Holder(Next(rules, s, act), i, x) && !Holder(s, i, x)
    ensures Enabled(rules, s, act) && Names(s, act, i, x)
  {
  }

  /** Every admin, or pending admin, of every run was registered or was named by the admin before it. */
  lemma {:induction false} AdminProvenance(rules: Rules, acts: seq<Action>, i: Address, x: Address)
    requires Holder(Run(rules, INITIAL, acts), i, x)
    ensures exists k: nat :: NamedAt(rules, acts, i, x, k)
    decreases |acts|
  {
    hide Enabled, Next, Effect;
    if acts != [] {
      var n := |acts| - 1;
      if Holder(Run(rules, INITIAL, acts[..n]), i, x) {
        AdminProvenance(rules, acts[..n], i, x);
        var k: nat :| NamedAt(rules, acts[..n], i, x, k);
        assert acts[..n][..k] == acts[..k];
        assert NamedAt(rules, acts, i, x, k);
      } else {
        HolderStep(rules, Run(rules, INITIAL, acts[..n]), acts[n], i, x);
        assert NamedAt(rules, acts, i, x, n);
      }
    }
  }

  // ---------------------------------------------------------------- isolation of integrators

  /** The integrator an action is about. */
  function Owner(act: Action): Address {
    match act
    case Register(c, _) => c
    case Attest(_, m) => m.dstAddr
    case Recv(m) => m.dstAddr
    case Exec(m) => m.dstAddr
    case Send(c, _, _, _, _) => c
    case _ => act.integrator
  }

  /** Everything the protocol keeps for an integrator: configuration, sequence, messages in and out. */
  ghost predicate SameIntegrator(s: State, t: State, i: Address) {
    && SameConfig(s, t, i)
    && Lookup(s.next, i, 0) == Lookup(t.next, i, 0)
    && (forall m: Message :: m.dstAddr == i ==>
          Attesters(s.attested, m) == Attesters(t.attested, m) && (m in s.executed <==> m in t.executed))
    && (forall k: OutboxKey :: k.integrator == i ==>
          (k in s.outbox <==> k in t.outbox) && (k in s.outbox ==> s.outbox[k] == t.outbox[k]))
  }

  lemma OtherConfig(rules: Rules, s: State, act: Action, i: Address)
    requires Owner(act) != i
    ensures SameConfig(s, Next(rules, s, act), i)
  {
    hide Enabled, Next;
    ConfigStep(rules, s, act, i);
  }

  lemma OtherSequence(rules: Rules, s: State, act: Action, i: Address)
    requires Owner(act) != i
    ensures Lookup(s.next, i, 0) == Lookup(Next(rules, s, act).next, i, 0)
  {
    Frame(rules, s, act);
  }

  lemma OtherMessages(rules: Rules, s: State, act: Action, m: Message)
    requires Owner(act) != m.dstAddr
    ensures Attesters(s.attested, m) == Attesters(Next(rules, s, act).attested, m)
    ensures m in s.executed <==> m in Next(rules, s, act).executed
  {
    hide Enabled, Next;
    ExecutedStep(rules, s, act, m);
    forall a: Address
      ensures a in Attesters(s.attested, m) <==> a in Attesters(Next(rules, s, act).attested, m)
    {
      AttestersStep(rules, s, act, m, a);
    }
  }

  lemma OtherParcels(rules: Rules, s: State, act: Action, k: OutboxKey)
    requires Owner(act) != k.integrator
    ensures var t := Next(rules, s, act);
            (k in s.outbox <==> k in t.outbox) && (k in s.outbox ==> s.outbox[k] == t.outbox[k])
  {
  }

  /** Whatever happens for other integrators changes nothing for this one. */
  lemma {:induction false} Isolation(rules: Rules, s: State, acts: seq<Action>, i: Address)
    requires forall k :: 0 <= k < |acts| ==> Owner(acts[k]) != i
    ensures SameIntegrator(s, Run(rules, s, acts), i)
    decreases |acts|
  {
    hide Enabled, Next, Effect;
    if acts != [] {
      var n := |acts| - 1;
      var t := Run(rules, s, acts[..n]);
      Isolation(rules, s, acts[..n], i);
      OtherConfig(rules, t, acts[n], i);
      OtherSequence(rules, t, acts[n], i);
      forall m: Message | m.dstAddr == i
        ensures Attesters(s.attested, m) == Attesters(Next(rules, t, acts[n]).attested, m)
        ensures m in s.executed <==> m in Next(rules, t, acts[n]).executed
      {
        OtherMessages(rules, t, acts[n], m);
      }
      forall k: OutboxKey | k.integrator == i
        ensures var u := Next(rules, t, acts[n]);
                (k in s.outbox <==> k in u.outbox) && (k in s.outbox ==> s.outbox[k] == u.outbox[k])
      {
        OtherParcels(rules, t, acts[n], k);
      }
    }
  }
}
