/** How the storage of an implementation agrees with the protocol state, and how updates keep it so. */
module Agreement {
  import opened Numbers
  import opened Bits
  import opened Bitmaps
  import opened Messages
  import opened Protocol

  /** The index map knows exactly the listed adapters, each at its own position. */
  ghost predicate IndexTie(indices: map<(Address, Address), u8>, adapters: map<Address, seq<Address>>) {
    forall i, a :: IndexAt(indices, AdaptersOf(adapters, i), i, a)
  }

  ghost predicate IndexAt(indices: map<(Address, Address), u8>, list: seq<Address>, i: Address, a: Address) {
    && ((i, a) in indices <==> a in list)
    && ((i, a) in indices ==> indices[(i, a)] < |list| && list[indices[(i, a)]] == a)
  }

  /** Every per-chain bitmap holds the set of adapters enabled for that chain. */
  ghost predicate BitmapTie(bitmaps: map<(Address, Chain), u128>, adapters: map<Address, seq<Address>>,
                            enabled: map<Slot, set<Address>>, side: Side)
  {
    forall i, c ::
      Holds(Lookup(bitmaps, (i, c), 0), AdaptersOf(adapters, i), EnabledAt(enabled, side, i, c))
  }

  ghost predicate ListTie(lists: map<Address, seq<Address>>, adapters: map<Address, seq<Address>>) {
    forall i :: AdaptersOf(lists, i) == AdaptersOf(adapters, i)
  }

  ghost predicate SequenceTie(sequences: map<Address, u64>, next: map<Address, nat>) {
    forall i :: Lookup(sequences, i, 0) == Lookup(next, i, 0)
  }

  /** Lists that stay duplicate-free and at most 128 long while they grow. */
  ghost predicate Grown(adapters: map<Address, seq<Address>>, later: map<Address, seq<Address>>) {
    ListsGrow(adapters, later) && forall i :: Distinct(AdaptersOf(later, i))
  }

  lemma NextGrown(rules: Rules, s: State, act: Action)
    requires Inv(rules, s)
    ensures Grown(s.adapters, Next(rules, s, act).adapters)
    ensures Inv(rules, Next(rules, s, act))
  {
    NextGrows(rules, s, act);
    NextInv(rules, s, act);
  }

  // ---------------------------------------------------------------- facts of the protocol invariant

  lemma EnabledListed(rules: Rules, s: State, side: Side, i: Address, c: Chain)
    requires Inv(rules, s)
    ensures forall a :: a in EnabledAt(s.enabled, side, i, c) ==> a in AdaptersOf(s.adapters, i)
    ensures c == 0 && !rules.zeroChain ==> EnabledAt(s.enabled, side, i, c) == {}
    ensures EnabledAt(s.enabled, side, i, c) != {} ==> (i, c) in s.configured
  {
  }

  lemma AttestersListed(rules: Rules, s: State, m: Message)
    requires Inv(rules, s)
    ensures forall a :: a in Attesters(s.attested, m) ==> a in AdaptersOf(s.adapters, m.dstAddr)
    ensures Attesters(s.attested, m) != {} ==>
              && (rules.checkDstChain ==> m.dstChain == rules.ourChain)
              && (m.srcChain != 0 || rules.zeroChain)
  {
  }

  lemma ListedBelow128(rules: Rules, s: State, i: Address)
    requires Inv(rules, s)
    ensures |AdaptersOf(s.adapters, i)| <= MAX_ADAPTERS && Distinct(AdaptersOf(s.adapters, i))
  {
  }

  // ---------------------------------------------------------------- keeping bitmaps in agreement

  lemma BitmapTieUpdate(bitmaps: map<(Address, Chain), u128>, adapters: map<Address, seq<Address>>,
                        enabled: map<Slot, set<Address>>, side: Side,
                        i: Address, c: Chain, bitmap: u128, members: set<Address>)
    requires BitmapTie(bitmaps, adapters, enabled, side)
    requires Holds(bitmap, AdaptersOf(adapters, i), members)
    ensures BitmapTie(bitmaps[(i, c) := bitmap], adapters, enabled[Slot(side, i, c) := members], side)
  {
  }

  lemma BitmapTieOtherSide(bitmaps: map<(Address, Chain), u128>, adapters: map<Address, seq<Address>>,
                           enabled: map<Slot, set<Address>>, side: Side, t: Slot, members: set<Address>)
    requires BitmapTie(bitmaps, adapters, enabled, side) && t.side != side
    ensures BitmapTie(bitmaps, adapters, enabled[t := members], side)
  {
  }

  lemma BitmapTieGrow(rules: Rules, s: State, bitmaps: map<(Address, Chain), u128>, side: Side,
                      later: map<Address, seq<Address>>)
    requires BitmapTie(bitmaps, s.adapters, s.enabled, side)
    requires Inv(rules, s) && Grown(s.adapters, later)
    ensures BitmapTie(bitmaps, later, s.enabled, side)
  {
  }

  /** Adding an adapter at the end of a list, with its position in the index map. */
  lemma IndexTieAdd(indices: map<(Address, Address), u8>, adapters: map<Address, seq<Address>>, i: Address, a: Address)
    requires IndexTie(indices, adapters)
    requires a !in AdaptersOf(adapters, i) && |AdaptersOf(adapters, i)| < MAX_ADAPTERS
    ensures IndexTie(indices[(i, a) := |AdaptersOf(adapters, i)|], adapters[i := AdaptersOf(adapters, i) + [a]])
  {
    var list := AdaptersOf(adapters, i);
    var after, adapters' := indices[(i, a) := |list|], adapters[i := list + [a]];
    forall j: Address, b: Address
      ensures IndexAt(after, AdaptersOf(adapters', j), j, b)
    {
      assert IndexAt(indices, AdaptersOf(adapters, j), j, b);
    }
  }

  lemma IndexTieRegister(indices: map<(Address, Address), u8>, adapters: map<Address, seq<Address>>, i: Address)
    requires IndexTie(indices, adapters) && i !in adapters
    ensures IndexTie(indices, adapters[i := []])
  {
    var adapters' := adapters[i := []];
    forall j: Address, b: Address
      ensures IndexAt(indices, AdaptersOf(adapters', j), j, b)
    {
      assert IndexAt(indices, AdaptersOf(adapters, j), j, b);
    }
  }

  lemma SequenceTieUse(sequences: map<Address, u64>, next: map<Address, nat>, i: Address)
    requires SequenceTie(sequences, next) && Lookup(sequences, i, 0) < MAX_U64
    ensures Lookup(sequences, i, 0) == Lookup(next, i, 0)
    ensures SequenceTie(sequences[i := Lookup(sequences, i, 0) + 1], next[i := Lookup(next, i, 0) + 1])
  {
    var sequences', next' := sequences[i := Lookup(sequences, i, 0) + 1], next[i := Lookup(next, i, 0) + 1];
    forall j: Address
      ensures Lookup(sequences', j, 0) == Lookup(next', j, 0)
    {
      assert Lookup(sequences, j, 0) == Lookup(next, j, 0);
    }
  }

  lemma SequenceTieRegister(sequences: map<Address, u64>, next: map<Address, nat>, i: Address)
    requires SequenceTie(sequences, next) && sequences.Keys == next.Keys
    ensures SequenceTie(sequences[i := 0], next[i := 0]) && sequences[i := 0].Keys == next[i := 0].Keys
  {
    var sequences', next' := sequences[i := 0], next[i := 0];
    forall j: Address
      ensures Lookup(sequences', j, 0) == Lookup(next', j, 0)
    {
      assert Lookup(sequences, j, 0) == Lookup(next, j, 0);
    }
  }

  /** Setting or clearing the adapter's bit for an accepted enable or disable. */
  lemma BitmapTieSet(rules: Rules, s: State, act: Action, bitmaps: map<(Address, Chain), u128>, bitmap: u128, index: u8)
    requires Inv(rules, s) && (act.Enable? || act.Disable?) && Enabled(rules, s, act)
    requires BitmapTie(bitmaps, s.adapters, s.enabled, act.side)
    requires index < |AdaptersOf(s.adapters, act.integrator)|
    requires AdaptersOf(s.adapters, act.integrator)[index] == act.adapter
    requires var before := Lookup(bitmaps, (act.integrator, act.chain), 0);
             if act.Enable? then BitSetAt(before, bitmap, index) else BitClearedAt(before, bitmap, index)
    ensures BitmapTie(bitmaps[(act.integrator, act.chain) := bitmap], s.adapters, Next(rules, s, act).enabled, act.side)
  {
    hide Inv, Enabled, Effect;
    var i, c := act.integrator, act.chain;
    var before, members := Lookup(bitmaps, (i, c), 0), EnabledAt(s.enabled, act.side, i, c);
    ListedBelow128(rules, s, i);
    SetEffect(rules, s, act);
    assert Holds(before, AdaptersOf(s.adapters, i), members);
    if act.Enable? {
      HoldsInsert(before, bitmap, AdaptersOf(s.adapters, i), members, index);
      BitmapTieUpdate(bitmaps, s.adapters, s.enabled, act.side, i, c, bitmap, members + {act.adapter});
    } else {
      HoldsRemove(before, bitmap, AdaptersOf(s.adapters, i), members, index);
      BitmapTieUpdate(bitmaps, s.adapters, s.enabled, act.side, i, c, bitmap, members - {act.adapter});
    }
  }

  lemma BitmapTieUnset(rules: Rules, s: State, act: Action, bitmaps: map<(Address, Chain), u128>, side: Side)
    requires BitmapTie(bitmaps, s.adapters, s.enabled, side) && (act.Enable? || act.Disable?) && act.side != side
    requires Enabled(rules, s, act)
    ensures BitmapTie(bitmaps, s.adapters, Next(rules, s, act).enabled, side)
  {
  }

  // ---------------------------------------------------------------- attestation records

  /** One record of a message: its bits and its executed flag. */
  ghost predicate RecordTie(bits: u128, executed: bool, m: Message, s: State) {
    && Holds(bits, AdaptersOf(s.adapters, m.dstAddr), Attesters(s.attested, m))
    && (executed <==> m in s.executed)
  }

  lemma RecordKeep(rules: Rules, s: State, act: Action, m: Message)
    requires !(act.Attest? || act.Recv? || act.Exec?) || act.message != m
    ensures Attesters(Next(rules, s, act).attested, m) == Attesters(s.attested, m)
    ensures m in Next(rules, s, act).executed <==> m in s.executed
  {
    Frame(rules, s, act);
  }

  /** A record whose message the action does not touch stays right. */
  lemma RecordTieKeep(rules: Rules, s: State, act: Action, bits: u128, executed: bool, m: Message)
    requires Inv(rules, s) && RecordTie(bits, executed, m, s)
    requires !(act.Attest? || act.Recv? || act.Exec?) || act.message != m
    ensures RecordTie(bits, executed, m, Next(rules, s, act))
  {
    NextGrown(rules, s, act);
    RecordKeep(rules, s, act, m);
    AttestersListed(rules, s, m);
    hide Next, Inv, Enabled, Effect, Holds;
    HoldsExtend(bits, AdaptersOf(s.adapters, m.dstAddr), AdaptersOf(Next(rules, s, act).adapters, m.dstAddr),
                Attesters(s.attested, m));
  }

  /** Setting the attester's bit records the attestation. */
  lemma RecordTieAttest(rules: Rules, s: State, act: Action, bits: u128, after: u128, executed: bool, index: u8)
    requires Inv(rules, s) && act.Attest? && Enabled(rules, s, act)
    requires RecordTie(bits, executed, act.message, s)
    requires index < |AdaptersOf(s.adapters, act.message.dstAddr)|
    requires AdaptersOf(s.adapters, act.message.dstAddr)[index] == act.caller
    requires BitSetAt(bits, after, index)
    ensures RecordTie(after, executed, act.message, Next(rules, s, act))
  {
  }

  lemma RecordTieExecute(rules: Rules, s: State, act: Action, bits: u128, m: Message)
    requires act == Recv(m) || act == Exec(m)
    requires Enabled(rules, s, act) && Holds(bits, AdaptersOf(s.adapters, m.dstAddr), Attesters(s.attested, m))
    ensures RecordTie(bits, true, m, Next(rules, s, act))
  {
  }

  /** A zeroed record is right for a message nobody attested or executed. */
  lemma RecordTieFresh(m: Message, s: State)
    requires Attesters(s.attested, m) == {} && m !in s.executed
    ensures RecordTie(0, false, m, s)
  {
    HoldsEmpty(AdaptersOf(s.adapters, m.dstAddr));
  }

  // ---------------------------------------------------------------- records stored by digest alone

  /** A store keyed by digest: a record exists exactly for a message that was attested or executed. */
  ghost predicate Stored<R>(store: map<Digest, R>, view: R -> (bool, u128), keccak: seq<u8> -> Digest, s: State) {
    forall m: Message :: StoredAt(store, view, keccak(Encode(m)), m, s)
  }

  ghost predicate StoredAt<R>(store: map<Digest, R>, view: R -> (bool, u128), d: Digest, m: Message, s: State) {
    && (d in store <==> Attesters(s.attested, m) != {} || m in s.executed)
    && (d in store ==> RecordTie(view(store[d]).1, view(store[d]).0, m, s))
  }

  lemma StoredFacts<R>(rules: Rules, s: State, store: map<Digest, R>, view: R -> (bool, u128),
                       keccak: seq<u8> -> Digest, m: Message)
    requires Inv(rules, s) && Stored(store, view, keccak, s)
    ensures var d := keccak(Encode(m));
            && StoredAt(store, view, d, m, s)
            && (d !in store ==> RecordTie(0, false, m, s))
            && (d in store && !view(store[d]).0 ==> Attesters(s.attested, m) != {} && view(store[d]).1 != 0)
  {
    var d := keccak(Encode(m));
    assert StoredAt(store, view, d, m, s);
    if d !in store {
      RecordTieFresh(m, s);
    } else {
      AttestersListed(rules, s, m);
      HoldsNonempty(view(store[d]).1, AdaptersOf(s.adapters, m.dstAddr), Attesters(s.attested, m));
    }
  }

  lemma StoredKeep<R>(rules: Rules, s: State, act: Action, store: map<Digest, R>, view: R -> (bool, u128),
                      keccak: seq<u8> -> Digest)
    requires Inv(rules, s) && Stored(store, view, keccak, s)
    requires !act.Attest? && !act.Recv? && !act.Exec?
    ensures Stored(store, view, keccak, Next(rules, s, act))
  {
    hide Inv, Enabled, Next;
    Frame(rules, s, act);
    forall m: Message
      ensures StoredAt(store, view, keccak(Encode(m)), m, Next(rules, s, act))
    {
      var d := keccak(Encode(m));
      assert StoredAt(store, view, d, m, s);
      if d in store {
        RecordTieKeep(rules, s, act, view(store[d]).1, view(store[d]).0, m);
      }
    }
  }

  /** Writing the record of one message keeps the others: no two messages share a digest. */
  lemma StoredWrite<R>(rules: Rules, s: State, act: Action, store: map<Digest, R>, view: R -> (bool, u128),
                       keccak: seq<u8> -> Digest, rec: R)
    requires Inv(rules, s) && Stored(store, view, keccak, s) && CollisionFree(keccak)
    requires (act.Attest? || act.Recv? || act.Exec?) && Enabled(rules, s, act)
    requires RecordTie(view(rec).1, view(rec).0, act.message, Next(rules, s, act))
    ensures Stored(store[keccak(Encode(act.message)) := rec], view, keccak, Next(rules, s, act))
  {
    hide Inv, Holds;
    var after, t := store[keccak(Encode(act.message)) := rec], Next(rules, s, act);
    forall m: Message
      ensures StoredAt(after, view, keccak(Encode(m)), m, t)
    {
      var d := keccak(Encode(m));
      SameDigest(keccak, m, act.message);
      if m != act.message {
        assert StoredAt(store, view, d, m, s);
        if d in store {
          RecordTieKeep(rules, s, act, view(store[d]).1, view(store[d]).0, m);
        }
      }
    }
  }

  // ---------------------------------------------------------------- outbox messages

  datatype OutboxMessage = OutboxMessage(
    srcAddr: Address, sequence: u64, dstChain: Chain, dstAddr: Address, payloadHash: u256, outstanding: u128)

  function KeyOf(o: OutboxMessage): OutboxKey {
    OutboxKey(o.srcAddr, o.sequence)
  }

  /** A stored outbox message is the parcel of its key, with the outstanding adapters as a bitmap. */
  ghost predicate ParcelTie(o: OutboxMessage, parcel: Parcel, list: seq<Address>) {
    && o.dstChain == parcel.dstChain && o.dstAddr == parcel.dstAddr && o.payloadHash == parcel.payloadHash
    && Holds(o.outstanding, list, parcel.outstanding)
  }

  lemma ParcelTieGrow(s: State, rules: Rules, later: map<Address, seq<Address>>, o: OutboxMessage, k: OutboxKey)
    requires Inv(rules, s) && Grown(s.adapters, later) && k in s.outbox
    requires ParcelTie(o, s.outbox[k], AdaptersOf(s.adapters, k.integrator))
    ensures ParcelTie(o, s.outbox[k], AdaptersOf(later, k.integrator))
  {
  }

  /** The parcel a send leaves: all adapters enabled at that moment are outstanding. */
  lemma SendEffect(rules: Rules, s: State, act: Action)
    requires Inv(rules, s) && act.Send? && Enabled(rules, s, act) && !rules.pushes
    ensures var n := Lookup(s.next, act.caller, 0);
            var parcel := Parcel(act.dstChain, act.dstAddr, act.payloadHash,
                                 EnabledAt(s.enabled, SendSide, act.caller, act.dstChain));
            && OutboxKey(act.caller, n) !in s.outbox
            && Next(rules, s, act).outbox == s.outbox[OutboxKey(act.caller, n) := parcel]
            && Next(rules, s, act).next == s.next[act.caller := n + 1]
  {
  }

  /** The parcel a pickup leaves, if any. */
  lemma PickUpEffect(rules: Rules, s: State, act: Action)
    requires act.PickUp? && Enabled(rules, s, act)
    ensures var k := OutboxKey(act.integrator, act.sequence);
            var left := s.outbox[k].outstanding - {act.caller};
            Next(rules, s, act).outbox
            == if left == {} then s.outbox - {k} else s.outbox[k := s.outbox[k].(outstanding := left)]
  {
  }

  /** Clearing a bit of an outstanding bitmap; it is zero exactly when nobody is left. */
  lemma PickUpBit(rules: Rules, s: State, act: Action, o: OutboxMessage, bits: u128, index: u8)
    requires Inv(rules, s) && act.PickUp?
    requires var k := OutboxKey(act.integrator, act.sequence);
             && k in s.outbox && ParcelTie(o, s.outbox[k], AdaptersOf(s.adapters, k.integrator))
    requires index < |AdaptersOf(s.adapters, act.integrator)|
    requires AdaptersOf(s.adapters, act.integrator)[index] == act.caller
    requires BitClearedAt(o.outstanding, bits, index)
    ensures var left := s.outbox[OutboxKey(act.integrator, act.sequence)].outstanding - {act.caller};
            && Holds(bits, AdaptersOf(s.adapters, act.integrator), left)
            && (bits == 0 <==> left == {})
  {
    var k := OutboxKey(act.integrator, act.sequence);
    ListedBelow128(rules, s, act.integrator);
    HoldsRemove(o.outstanding, bits, AdaptersOf(s.adapters, act.integrator), s.outbox[k].outstanding, index);
    HoldsNonempty(bits, AdaptersOf(s.adapters, act.integrator), s.outbox[k].outstanding - {act.caller});
  }
}
