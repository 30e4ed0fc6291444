/** How often reconnection is attempted while the publisher stays disconnected. */
module ReconnectPacing {
  import opened MqttPublishers

  /** The waiting time after the k-th failed attempt of a spell, counting from 0. */
  function Wait(k: nat): real {
    if k == 0 then 1.0 else if k == 1 then 2.0 else if k == 2 then 4.0 else if k == 3 then 8.0
    else if k == 4 then 16.0 else 30.0
  }

  function Power2(k: nat): nat {
    if k == 0 then 1 else 2 * Power2(k - 1)
  }

  /** The least time between the first attempt of a spell and its k-th one. */
  function Delay(k: nat): real {
    if k <= 5 then Power2(k) as real - 1.0 else 31.0 + 30.0 * (k - 5) as real
  }

  /** The publisher stays disconnected before and after each operation. */
  predicate Spell(l: Link, ops: seq<Op>)
    decreases |ops|
  {
    !l.connected && (ops == [] || Spell(Step(l, ops[0]), ops[1..]))
  }

  predicate StartsSpell(l: Link) {
    !l.connected && l.backoff == INITIAL_RECONNECT_BACKOFF_SECONDS && l.nextAttempt == 0.0
  }

  /** The clock readings of the attempts really made. */
  function AttemptTimes(l: Link, ops: seq<Op>): seq<real>
    decreases |ops|
  {
    if ops == [] then []
    else (if ops[0].TryReconnect? && Attempts(l, ops[0].now) then [ops[0].now] else [])
         + AttemptTimes(Step(l, ops[0]), ops[1..])
  }

  /** After k failed attempts of a spell, the last one at `last`. */
  predicate Waiting(l: Link, k: nat, last: real) {
    && l.backoff == Wait(k)
    && (if k == 0 then l.nextAttempt == 0.0 else l.nextAttempt == last + Wait(k - 1))
  }

  lemma WaitingStep(l: Link, k: nat, last: real, op: Op)
    requires Waiting(l, k, last) && !l.connected && !Step(l, op).connected
    ensures if op.TryReconnect? && Attempts(l, op.now) then Waiting(Step(l, op), k + 1, op.now)
            else Waiting(Step(l, op), k, last)
  {
  }

  /** Consecutive attempts, the first of them number k of its spell. */
  ghost predicate Spaced(times: seq<real>, k: nat) {
    forall i :: 0 <= i < |times| - 1 ==> times[i + 1] >= times[i] + Wait(k + i)
  }

  /** Attempts made at `times`, numbered from k on, none before `earliest`, led
      to `after`; `last` is the attempt before them. */
  ghost predicate Paced(times: seq<real>, after: Link, k: nat, last: real, earliest: real) {
    && !after.connected
    && Waiting(after, k + |times|, if times == [] then last else times[|times| - 1])
    && (times != [] ==> times[0] >= earliest)
    && Spaced(times, k)
  }

  /** The exact backoff state anywhere inside a spell, and the exact spacing
      of the attempts made so far. */
  lemma {:induction false} SpellKeepsPace(l: Link, k: nat, last: real, ops: seq<Op>)
    requires Spell(l, ops) && Waiting(l, k, last)
    ensures Paced(AttemptTimes(l, ops), Steps(l, ops), k, last, l.nextAttempt)
    decreases |ops|
  {
    if ops != [] {
      var op, next := ops[0], Step(l, ops[0]);
      SpellTail(l, ops);
      WaitingStep(l, k, last, op);
      var rest := AttemptTimes(next, ops[1..]);
      if op.TryReconnect? && Attempts(l, op.now) {
        SpellKeepsPace(next, k + 1, op.now, ops[1..]);
      } else {
        assert next.nextAttempt == l.nextAttempt;
        SpellKeepsPace(next, k, last, ops[1..]);
        assert [] + rest == rest;
      }
    }
  }

  lemma SpellTail(l: Link, ops: seq<Op>)
    requires Spell(l, ops) && ops != []
    ensures !l.connected && !Step(l, ops[0]).connected && Spell(Step(l, ops[0]), ops[1..])
  {
  }

  lemma {:induction false} SpacingAddsUp(times: seq<real>, i: nat, j: nat)
    requires forall m :: 0 <= m < |times| - 1 ==> times[m + 1] >= times[m] + Wait(m)
    requires i <= j < |times|
    ensures times[j] >= times[i] + Delay(j - i)
    decreases j
  {
    if i < j {
      SpacingAddsUp(times, i, j - 1);
      assert times[j - 1 + 1] >= times[j - 1] + Wait(j - 1);
    }
  }

  /** In one disconnected spell the attempts `i` and `j` lie at least
      Delay(j - i) apart: 2^k - 1 seconds for the first five, then 30 seconds
      each. No assumption on the clock is needed. */
  lemma AttemptsAreSpaced(l: Link, ops: seq<Op>, i: nat, j: nat)
    requires StartsSpell(l) && Spell(l, ops)
    requires i <= j < |AttemptTimes(l, ops)|
    ensures AttemptTimes(l, ops)[j] >= AttemptTimes(l, ops)[i] + Delay(j - i)
  {
    SpellKeepsPace(l, 0, 0.0, ops);
    SpacingAddsUp(AttemptTimes(l, ops), i, j);
  }

  /** At most five attempts fit into less than 31 seconds (and then
      2^(n-1) <= T + 1), at most 6 + (T - 31) / 30 into longer windows. */
  lemma AttemptsInWindow(l: Link, ops: seq<Op>, i: nat, j: nat, seconds: real)
    requires StartsSpell(l) && Spell(l, ops)
    requires i <= j < |AttemptTimes(l, ops)|
    requires AttemptTimes(l, ops)[j] <= AttemptTimes(l, ops)[i] + seconds
    ensures var n := j - i + 1;
            if seconds < 31.0 then n <= 5 && Power2(n - 1) as real <= seconds + 1.0
            else (n - 6) as real <= (seconds - 31.0) / 30.0
  {
    AttemptsAreSpaced(l, ops, i, j);
  }

  /** When the next call really attempts: exactly from the computed instant on,
      so every call at least 30 seconds after the last failure does. */
  lemma AttemptIsDue(l: Link, ops: seq<Op>, now: real)
    requires StartsSpell(l) && Spell(l, ops)
    ensures var times := AttemptTimes(l, ops);
            var due := if times == [] then 0.0 else times[|times| - 1] + Wait(|times| - 1);
            && (Attempts(Steps(l, ops), now) <==> now >= due)
            && (times != [] && now >= times[|times| - 1] + 30.0 ==> Attempts(Steps(l, ops), now))
  {
    SpellKeepsPace(l, 0, 0.0, ops);
  }

  lemma {:induction false} SpellExtends(l: Link, ops: seq<Op>, op: Op)
    requires Spell(l, ops) && !Steps(l, ops + [op]).connected
    ensures Spell(l, ops + [op])
    decreases |ops|
  {
    if ops == [] {
      assert (ops + [op])[1..] == [];
    } else {
      assert (ops + [op])[1..] == ops[1..] + [op];
      SpellExtends(Step(l, ops[0]), ops[1..], op);
    }
  }

  /** Every disconnected state of every run lies in a spell that began with a
      reset backoff, so the bounds above govern all of them. */
  lemma {:induction false} DisconnectedMeansInSpell(ops: seq<Op>) returns (start: nat)
    requires !Steps(FRESH, ops).connected
    ensures start <= |ops|
    ensures StartsSpell(Steps(FRESH, ops[..start])) && Spell(Steps(FRESH, ops[..start]), ops[start..])
    decreases |ops|
  {
    if ops == [] {
      return 0;
    }
    var before, op := ops[..|ops| - 1], ops[|ops| - 1];
    assert ops == before + [op];
    StepsSnoc(FRESH, before, op);
    if Steps(FRESH, before).connected {
      ConnectedIsReset(before);
      start := |ops|;
      assert ops[..start] == ops && ops[start..] == [];
    } else {
      start := DisconnectedMeansInSpell(before);
      var l := Steps(FRESH, before[..start]);
      assert ops[..start] == before[..start] && ops[start..] == before[start..] + [op];
      assert before == before[..start] + before[start..];
      StepsCompose(FRESH, before[..start], before[start..]);
      StepsSnoc(l, before[start..], op);
      SpellExtends(l, before[start..], op);
    }
  }

  lemma {:induction false} ConnectedIsReset(ops: seq<Op>)
    ensures var l := Steps(FRESH, ops);
            l.connected ==> l.backoff == INITIAL_RECONNECT_BACKOFF_SECONDS && l.nextAttempt == 0.0
    decreases |ops|
  {
    if ops != [] {
      var before := ops[..|ops| - 1];
      ConnectedIsReset(before);
      StepsSnoc(FRESH, before, ops[|ops| - 1]);
      assert ops == before + [ops[|ops| - 1]];
    }
  }
}
