/**
 * EVM sends call the adapters in a loop, and each adapter may call back into the endpoint before the next
 * one is called. Trees of such calls, and that every one of them is a flat run.
 */
module Reentrancy {
  import opened Numbers
  import opened Messages
  import opened Protocol
  import opened Runs

  /**
   * A call. During a send, the p-th adapter called makes the calls of `callbacks[p]` (none beyond the end).
   * `failsAt` is the position of an adapter that fails without anybody catching it: the send then fails
   * as a whole and everything done in it is undone.
   */
  datatype Tx = Tx(act: Action, callbacks: seq<Callback>, failsAt: Option<nat>)

  datatype Callback = Callback(calls: seq<Tx>)

  /** How many adapters a send calls: those enabled before it, whatever the calls nested in it change. */
  function Called(s: State, act: Action): nat
    requires act.Send?
  {
    |EnabledAt(s.enabled, SendSide, act.caller, act.dstChain)|
  }

  predicate Reverts(s: State, tx: Tx) {
    tx.act.Send? && tx.failsAt.Some? && tx.failsAt.value < Called(s, tx.act)
  }

  ghost function Perform(rules: Rules, s: State, tx: Tx): State
    decreases tx, 0
  {
    if !Enabled(rules, s, tx.act) || Reverts(s, tx) then s
    else if !tx.act.Send? then Effect(rules, s, tx.act)
    else PerformLoop(rules, Effect(rules, s, tx.act), tx.callbacks, Called(s, tx.act))
  }

  /** The state after the first `p` adapters were called. */
  ghost function PerformLoop(rules: Rules, s: State, callbacks: seq<Callback>, p: nat): State
    decreases callbacks, p
  {
    if p == 0 then s
    else
      var t := PerformLoop(rules, s, callbacks, p - 1);
      if |callbacks| < p then t else PerformAll(rules, t, callbacks[p - 1].calls)
  }

  ghost function PerformAll(rules: Rules, s: State, txs: seq<Tx>): State
    decreases txs, 1
  {
    if txs == [] then s else PerformAll(rules, Perform(rules, s, txs[0]), txs[1..])
  }

  /** Which of the calls succeed. */
  ghost function Outcomes(rules: Rules, s: State, txs: seq<Tx>): seq<bool>
    decreases |txs|
  {
    if txs == [] then []
    else [Enabled(rules, s, txs[0].act) && !Reverts(s, txs[0])]
         + Outcomes(rules, Perform(rules, s, txs[0]), txs[1..])
  }

  /** The actions that took effect, in the order in which they did. */
  ghost function Flatten(rules: Rules, s: State, tx: Tx): seq<Action>
    decreases tx, 0
  {
    if !Enabled(rules, s, tx.act) || Reverts(s, tx) then []
    else if !tx.act.Send? then [tx.act]
    else [tx.act] + FlattenLoop(rules, Effect(rules, s, tx.act), tx.callbacks, Called(s, tx.act))
  }

  ghost function FlattenLoop(rules: Rules, s: State, callbacks: seq<Callback>, p: nat): seq<Action>
    decreases callbacks, p
  {
    if p == 0 then []
    else
      var before := FlattenLoop(rules, s, callbacks, p - 1);
      if |callbacks| < p then before
      else before + FlattenAll(rules, PerformLoop(rules, s, callbacks, p - 1), callbacks[p - 1].calls)
  }

  ghost function FlattenAll(rules: Rules, s: State, txs: seq<Tx>): seq<Action>
    decreases txs, 1
  {
    if txs == [] then [] else Flatten(rules, s, txs[0]) + FlattenAll(rules, Perform(rules, s, txs[0]), txs[1..])
  }

  /** The numbers returned to an integrator by the sends that took effect, outer sends before inner ones. */
  ghost function Returned(rules: Rules, s: State, tx: Tx, i: Address): seq<nat>
    decreases tx, 0
  {
    if !Enabled(rules, s, tx.act) || Reverts(s, tx) || !tx.act.Send? then []
    else (if tx.act.caller == i then [Lookup(s.next, i, 0)] else [])
         + ReturnedLoop(rules, Effect(rules, s, tx.act), tx.callbacks, Called(s, tx.act), i)
  }

  ghost function ReturnedLoop(rules: Rules, s: State, callbacks: seq<Callback>, p: nat, i: Address): seq<nat>
    decreases callbacks, p
  {
    if p == 0 then []
    else
      var before := ReturnedLoop(rules, s, callbacks, p - 1, i);
      if |callbacks| < p then before
      else before + ReturnedAll(rules, PerformLoop(rules, s, callbacks, p - 1), callbacks[p - 1].calls, i)
  }

  ghost function ReturnedAll(rules: Rules, s: State, txs: seq<Tx>, i: Address): seq<nat>
    decreases txs, 1
  {
    if txs == [] then []
    else Returned(rules, s, txs[0], i) + ReturnedAll(rules, Perform(rules, s, txs[0]), txs[1..], i)
  }

  lemma PerformSend(rules: Rules, s: State, tx: Tx)
    requires tx.act.Send?
    ensures !Enabled(rules, s, tx.act) || Reverts(s, tx) ==> Perform(rules, s, tx) == s
    ensures Enabled(rules, s, tx.act) && !Reverts(s, tx) ==>
              Perform(rules, s, tx) == PerformLoop(rules, Next(rules, s, tx.act), tx.callbacks, Called(s, tx.act))
  {
  }

  /** A call with nothing nested in it is one step of the protocol. */
  lemma PlainSend(rules: Rules, s: State, act: Action)
    ensures Perform(rules, s, Tx(act, [], None)) == Next(rules, s, act)
  {
    hide Enabled, Effect, Called;
    if act.Send? && Enabled(rules, s, act) {
      NoCallbacks(rules, Effect(rules, s, act), Called(s, act));
    }
  }

  lemma {:induction false} NoCallbacks(rules: Rules, s: State, p: nat)
    ensures PerformLoop(rules, s, [], p) == s
  {
    if p > 0 {
      NoCallbacks(rules, s, p - 1);
    }
  }

  // ---------------------------------------------------------------- what becomes of each nested call

  /** A called adapter that fails, with nobody to catch it, undoes the send and all that was nested in it. */
  lemma FailureUndoes(rules: Rules, s: State, tx: Tx, p: nat)
    requires tx.act.Send? && tx.failsAt == Some(p)
    requires p < |EnabledAt(s.enabled, SendSide, tx.act.caller, tx.act.dstChain)|
    ensures Perform(rules, s, tx) == s && Flatten(rules, s, tx) == []
  {
    hide Enabled, Effect;
  }

  /** The calls were made one after the other, each in the state the one before it left. */
  ghost predicate MadeInOrder(rules: Rules, calls: seq<Tx>, states: seq<State>) {
    |states| == |calls| + 1 && forall q :: 0 <= q < |calls| ==> states[q + 1] == Perform(rules, states[q], calls[q])
  }

  ghost predicate Leads(rules: Rules, s: State, calls: seq<Tx>, t: State) {
    exists states :: MadeInOrder(rules, calls, states) && states[0] == s && states[|calls|] == t
  }

  lemma {:induction false} CallsInOrder(rules: Rules, s: State, txs: seq<Tx>)
    ensures Leads(rules, s, txs, PerformAll(rules, s, txs))
    decreases |txs|
  {
    hide Perform;
    if txs == [] {
      assert MadeInOrder(rules, txs, [s]);
    } else {
      var u := Perform(rules, s, txs[0]);
      CallsInOrder(rules, u, txs[1..]);
      var rest :| MadeInOrder(rules, txs[1..], rest) && rest[0] == u
                  && rest[|txs| - 1] == PerformAll(rules, u, txs[1..]);
      var states := [s] + rest;
      forall q | 0 <= q < |txs|
        ensures states[q + 1] == Perform(rules, states[q], txs[q])
      {
        if q > 0 {
          assert rest[q] == Perform(rules, rest[q - 1], txs[1..][q - 1]);
        }
      }
      assert MadeInOrder(rules, txs, states);
    }
  }

  /** The q-th outcome is that of the q-th call, in the state the calls before it left. */
  lemma {:induction false} OutcomeOf(rules: Rules, s: State, txs: seq<Tx>, q: nat)
    requires q < |txs|
    ensures |Outcomes(rules, s, txs)| == |txs|
    ensures var t := PerformAll(rules, s, txs[..q]);
            Outcomes(rules, s, txs)[q] == (Enabled(rules, t, txs[q].act) && !Reverts(t, txs[q]))
    decreases |txs|
  {
    hide Enabled, Perform, Reverts;
    var u := Perform(rules, s, txs[0]);
    if |txs| > 1 {
      OutcomeOf(rules, u, txs[1..], if q > 0 then q - 1 else 0);
    }
    if q > 0 {
      assert txs[..q][1..] == txs[1..][..q - 1];
    }
  }

  function CallsOf(callbacks: seq<Callback>, p: nat): seq<Tx> {
    if p < |callbacks| then callbacks[p].calls else []
  }

  /** Between any two adapters called, exactly the calls of the first were made; none of any adapter is left out. */
  ghost predicate LoopTrace(rules: Rules, callbacks: seq<Callback>, states: seq<State>) {
    forall p :: 0 <= p < |states| - 1 ==> Leads(rules, states[p], CallsOf(callbacks, p), states[p + 1])
  }

  lemma {:induction false} LoopInOrder(rules: Rules, s: State, callbacks: seq<Callback>, n: nat)
    ensures exists states :: |states| == n + 1 && LoopTrace(rules, callbacks, states)
                             && states[0] == s && states[n] == PerformLoop(rules, s, callbacks, n)
    decreases n
  {
    hide Leads, PerformAll;
    if n == 0 {
      assert LoopTrace(rules, callbacks, [s]);
    } else {
      LoopInOrder(rules, s, callbacks, n - 1);
      var states :| |states| == n && LoopTrace(rules, callbacks, states)
                    && states[0] == s && states[n - 1] == PerformLoop(rules, s, callbacks, n - 1);
      var t := PerformLoop(rules, s, callbacks, n);
      var longer := states + [t];
      CallsInOrder(rules, states[n - 1], CallsOf(callbacks, n - 1));
      NoCalls(rules, states[n - 1]);
      forall p | 0 <= p < n
        ensures Leads(rules, longer[p], CallsOf(callbacks, p), longer[p + 1])
      {
        if p < n - 1 {
          assert Leads(rules, states[p], CallsOf(callbacks, p), states[p + 1]);
        }
      }
      assert LoopTrace(rules, callbacks, longer) && longer[0] == s && longer[n] == t;
    }
  }

  lemma NoCalls(rules: Rules, s: State)
    ensures PerformAll(rules, s, []) == s
  {
  }

  /**
   * An accepted send of which no called adapter fails: first the send itself, then for each adapter enabled
   * before it, in turn, every one of its calls, in order. Any other action does what the protocol says.
   */
  lemma {:induction false} EveryCallMade(rules: Rules, s: State, tx: Tx)
    requires Enabled(rules, s, tx.act)
    ensures !tx.act.Send? ==> Perform(rules, s, tx) == Next(rules, s, tx.act)
    ensures tx.act.Send? ==>
              var n := |EnabledAt(s.enabled, SendSide, tx.act.caller, tx.act.dstChain)|;
              tx.failsAt.None? || tx.failsAt.value >= n ==>
                exists states :: |states| == n + 1 && LoopTrace(rules, tx.callbacks, states)
                                 && states[0] == Next(rules, s, tx.act) && states[n] == Perform(rules, s, tx)
  {
    hide Enabled, Effect, LoopTrace;
    if tx.act.Send? {
      LoopInOrder(rules, Next(rules, s, tx.act), tx.callbacks, Called(s, tx.act));
    }
  }

  // ---------------------------------------------------------------- runs in pieces

  lemma {:induction false} RunConcat(rules: Rules, s: State, a: seq<Action>, b: seq<Action>, i: Address)
    ensures Run(rules, s, a + b) == Run(rules, Run(rules, s, a), b)
    ensures Sent(rules, s, a + b, i) == Sent(rules, s, a, i) + Sent(rules, Run(rules, s, a), b, i)
    decreases |b|
  {
    hide Enabled, Next;
    if b == [] {
      assert a + b == a;
    } else {
      var n := |b| - 1;
      RunConcat(rules, s, a, b[..n], i);
      assert (a + b)[..|a + b| - 1] == a + b[..n];
    }
  }

  lemma RunOne(rules: Rules, s: State, act: Action, i: Address)
    requires Enabled(rules, s, act)
    ensures Run(rules, s, [act]) == Effect(rules, s, act)
    ensures Sent(rules, s, [act], i) == if act.Send? && act.caller == i then [Lookup(s.next, i, 0)] else []
  {
    hide Enabled, Effect;
    var acts := [act];
    assert acts[..0] == [];
    assert Run(rules, s, acts[..0]) == s;
  }

  // ---------------------------------------------------------------- nested calls are flat runs

  /** One call with everything nested in it is the flat run of the actions that took effect. */
  lemma {:induction false} FlatCall(rules: Rules, s: State, tx: Tx, i: Address)
    ensures Perform(rules, s, tx) == Run(rules, s, Flatten(rules, s, tx))
    ensures Returned(rules, s, tx, i) == Sent(rules, s, Flatten(rules, s, tx), i)
    decreases tx, 0
  {
    hide Enabled, Effect, Next, Called;
    if Enabled(rules, s, tx.act) && !Reverts(s, tx) {
      RunOne(rules, s, tx.act, i);
      if tx.act.Send? {
        var t, n := Effect(rules, s, tx.act), Called(s, tx.act);
        FlatLoop(rules, t, tx.callbacks, n, i);
        RunConcat(rules, s, [tx.act], FlattenLoop(rules, t, tx.callbacks, n), i);
      }
    }
  }

  lemma {:induction false} FlatLoop(rules: Rules, s: State, callbacks: seq<Callback>, p: nat, i: Address)
    ensures PerformLoop(rules, s, callbacks, p) == Run(rules, s, FlattenLoop(rules, s, callbacks, p))
    ensures ReturnedLoop(rules, s, callbacks, p, i) == Sent(rules, s, FlattenLoop(rules, s, callbacks, p), i)
    decreases callbacks, p
  {
    hide Enabled, Effect, Next;
    if p > 0 {
      FlatLoop(rules, s, callbacks, p - 1, i);
      if p <= |callbacks| {
        var t := PerformLoop(rules, s, callbacks, p - 1);
        FlatCalls(rules, t, callbacks[p - 1].calls, i);
        RunConcat(rules, s, FlattenLoop(rules, s, callbacks, p - 1),
                  FlattenAll(rules, t, callbacks[p - 1].calls), i);
      }
    }
  }

  lemma {:induction false} FlatCalls(rules: Rules, s: State, txs: seq<Tx>, i: Address)
    ensures PerformAll(rules, s, txs) == Run(rules, s, FlattenAll(rules, s, txs))
    ensures ReturnedAll(rules, s, txs, i) == Sent(rules, s, FlattenAll(rules, s, txs), i)
    decreases txs, 1
  {
    hide Enabled, Effect, Next;
    if txs != [] {
      var t := Perform(rules, s, txs[0]);
      FlatCall(rules, s, txs[0], i);
      FlatCalls(rules, t, txs[1..], i);
      RunConcat(rules, s, Flatten(rules, s, txs[0]), FlattenAll(rules, t, txs[1..]), i);
    }
  }

  /** With any nesting and any failures, an integrator's sends return 0, 1, ..., next - 1, each once. */
  lemma {:induction false} NestedSequencesGapFree(rules: Rules, txs: seq<Tx>, i: Address)
    requires Inv(rules, INITIAL)
    ensures var returned := ReturnedAll(rules, INITIAL, txs, i);
            && |returned| == Lookup(PerformAll(rules, INITIAL, txs).next, i, 0)
            && forall k :: 0 <= k < |returned| ==> returned[k] == k
  {
    hide Enabled, Effect, Next;
    FlatCalls(rules, INITIAL, txs, i);
    SequencesGapFree(rules, FlattenAll(rules, INITIAL, txs), i);
  }
}
