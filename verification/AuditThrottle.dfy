/**
 One audit row per key and minute: the in-process dictionary with its garbage collection
 (backend/app/routers/admin_users.py) and the shared Redis variant (backend/app/routers/admin_subscriptions.py),
 both against the rule that remembers every stamp for ever.

 Instants are seconds on a clock that never runs backwards.
 */
module AuditThrottle {
  import opened Options

  const WINDOW: real := 60.0

  // What became of a command sent to the store: executed and answered, executed without the answer
  // arriving, or never executed.  The in-process dictionary always answers.
  datatype Fate = Answered | Unanswered | Failed

  // One sending of a call's command.  The client sends a command again, once, when no answer arrives.
  datatype Sending<K> = Sending(call: nat, key: K, now: real, fate: Fate)

  predicate NonDecreasing<K>(trace: seq<Sending<K>>) {
    forall i, j :: 0 <= i < j < |trace| ==> trace[i].now <= trace[j].now
  }

  predicate AllAnswered<K>(trace: seq<Sending<K>>) {
    forall i :: 0 <= i < |trace| ==> trace[i].fate == Answered
  }

  // A call sends one key's command at most twice, only after no answer, and well within a window.
  predicate SentAgain<K>(trace: seq<Sending<K>>, i: nat, j: nat)
    requires i < j < |trace|
  {
    trace[j].call == trace[i].call
  }

  predicate SentByCalls<K(==)>(trace: seq<Sending<K>>) {
    && NonDecreasing(trace)
    && (forall i, j :: 0 <= i < j < |trace| && SentAgain(trace, i, j) ==>
          && trace[j].key == trace[i].key && trace[i].fate != Answered && trace[j].now - trace[i].now < WINDOW
          && forall k :: j < k < |trace| ==> !SentAgain(trace, j, k))
  }

  predicate Last<K>(trace: seq<Sending<K>>, i: nat)
    requires i < |trace|
  {
    forall j :: i < j < |trace| ==> !SentAgain(trace, i, j)
  }

  // ---------- the rule ----------

  // A sending leaves a stamp when it was executed and no earlier one for the key left one within the window.
  predicate Stamps<K(==)>(trace: seq<Sending<K>>, i: nat)
    requires i < |trace|
    decreases i
  {
    && trace[i].fate != Failed
    && forall j: nat :: j < i && trace[j].key == trace[i].key && Stamps(trace, j) ==>
        WINDOW <= trace[i].now - trace[j].now
  }

  // A call lets its audit row through when its last sending leaves a stamp or gets no answer.
  predicate Emits<K(==)>(trace: seq<Sending<K>>, i: nat)
    requires i < |trace|
  {
    trace[i].fate != Answered || Stamps(trace, i)
  }

  ghost predicate Remembered<K>(trace: seq<Sending<K>>, n: nat, key: K, t: real)
    requires n <= |trace|
  {
    exists j: nat :: j < n && StampsFor(trace, j, key) && t - trace[j].now < WINDOW
  }

  predicate StampsFor<K(==)>(trace: seq<Sending<K>>, j: nat, key: K)
    requires j < |trace|
  {
    trace[j].key == key && Stamps(trace, j)
  }

  // ---------- the dictionary ----------

  predicate DictSuppresses<K>(state: map<K, real>, key: K, now: real) {
    key in state && now - state[key] < WINDOW
  }

  function Collected<K>(state: map<K, real>, cutoff: real): map<K, real> {
    map k | k in state && cutoff <= state[k] :: state[k]
  }

  function DictNext<K>(state: map<K, real>, key: K, now: real): map<K, real> {
    if DictSuppresses(state, key, now) then state else Collected(state[key := now], now - WINDOW * 4.0)
  }

  class DictThrottle<K(==)> {
    var state: map<K, real>

    constructor ()
      ensures state == map[]
    {
      state := map[];
    }

    method ShouldEmit(key: K, now: real) returns (emit: bool)
      modifies this
      ensures emit == !DictSuppresses(old(state), key, now)
      ensures !emit <==> key in old(state) && now - old(state)[key] < 60.0
      ensures state == DictNext(old(state), key, now)
      ensures emit ==> key in state && state[key] == now && forall k :: k in state ==> now - state[k] <= 240.0
    {
      if key in state && now - state[key] < WINDOW {
        return false;
      }
      state := state[key := now];
      var cutoff := now - WINDOW * 4.0;
      ghost var written := state;
      var stale := set k | k in state && state[k] < cutoff;
      while stale != {}
        invariant stale <= state.Keys
        invariant forall k :: k in state ==>
                    k in written && state[k] == written[k] && (k in stale <==> written[k] < cutoff)
        invariant forall k :: k in written && cutoff <= written[k] ==> k in state
        decreases stale
      {
        var k :| k in stale;
        state := state - {k};
        stale := stale - {k};
      }
      assert state == Collected(written, cutoff);
      return true;
    }
  }

  // ---------- SET key 1 NX EX 60 ----------

  predicate StoreSuppresses<K>(deadlines: map<K, real>, key: K, now: real) {
    key in deadlines && now < deadlines[key]
  }

  function StoreNext<K>(deadlines: map<K, real>, s: Sending<K>): map<K, real> {
    if s.fate == Failed || StoreSuppresses(deadlines, s.key, s.now) then deadlines
    else deadlines[s.key := s.now + WINDOW]
  }

  // What a call answers whose last sending this is.
  predicate Persists<K>(deadlines: map<K, real>, s: Sending<K>) {
    s.fate != Answered || !StoreSuppresses(deadlines, s.key, s.now)
  }

  class SharedThrottle<K(==)> {
    var deadlines: map<K, real>

    constructor ()
      ensures deadlines == map[]
    {
      deadlines := map[];
    }

    method SetIfAbsent(key: K, now: real) returns (written: bool)
      modifies this
      ensures written == !StoreSuppresses(old(deadlines), key, now)
      ensures deadlines == if written then old(deadlines)[key := now + WINDOW] else old(deadlines)
    {
      written := !(key in deadlines && now < deadlines[key]);
      if written {
        deadlines := deadlines[key := now + WINDOW];
      }
    }

    method Send(s: Sending<K>) returns (reply: Option<bool>)
      modifies this
      ensures deadlines == StoreNext(old(deadlines), s)
      ensures reply.Some? <==> s.fate == Answered
      ensures reply.Some? ==> reply.value == Persists(old(deadlines), s)
    {
      if s.fate == Failed {
        return None;
      }
      var written := SetIfAbsent(s.key, s.now);
      reply := if s.fate == Answered then Some(written) else None;
    }

    // No client or no actor, so nothing sent, or no answer to the last sending: never lose the row.
    method ShouldPersist(first: Option<Sending<K>>, again: Option<Sending<K>>) returns (persist: bool)
      modifies this
      ensures first.None? ==> persist && deadlines == old(deadlines)
      ensures first.Some? && (first.value.fate == Answered || again.None?) ==>
                persist == Persists(old(deadlines), first.value) && deadlines == StoreNext(old(deadlines), first.value)
      ensures first.Some? && first.value.fate != Answered && again.Some? ==>
                var between := StoreNext(old(deadlines), first.value);
                persist == Persists(between, again.value) && deadlines == StoreNext(between, again.value)
    {
      if first.None? {
        return true;
      }
      var reply := Send(first.value);
      if reply.None? && again.Some? {
        reply := Send(again.value);
      }
      return reply.None? || reply.value;
    }
  }

  // ---------- both keep to the rule ----------

  function DictAfter<K>(trace: seq<Sending<K>>, n: nat): map<K, real>
    requires n <= |trace|
  {
    if n == 0 then map[] else DictNext(DictAfter(trace, n - 1), trace[n - 1].key, trace[n - 1].now)
  }

  function StoreAfter<K>(trace: seq<Sending<K>>, n: nat): map<K, real>
    requires n <= |trace|
  {
    if n == 0 then map[] else StoreNext(StoreAfter(trace, n - 1), trace[n - 1])
  }

  // One more sending extends what the rule remembers by at most its own stamp.
  lemma RememberedStep<K>(trace: seq<Sending<K>>, n: nat, key: K, t: real)
    requires n < |trace|
    ensures Remembered(trace, n + 1, key, t) <==>
              Remembered(trace, n, key, t) || (StampsFor(trace, n, key) && t - trace[n].now < WINDOW)
  {
  }

  lemma StampsIffForgotten<K>(trace: seq<Sending<K>>, n: nat)
    requires n < |trace|
    ensures Stamps(trace, n) <==> trace[n].fate != Failed && !Remembered(trace, n, trace[n].key, trace[n].now)
  {
    if Remembered(trace, n, trace[n].key, trace[n].now) {
      var j: nat :| j < n && StampsFor(trace, j, trace[n].key) && trace[n].now - trace[j].now < WINDOW;
      assert !Stamps(trace, n);
    } else {
      forall j: nat | j < n && trace[j].key == trace[n].key && Stamps(trace, j)
        ensures WINDOW <= trace[n].now - trace[j].now
      {
        assert StampsFor(trace, j, trace[n].key);
      }
    }
  }

  lemma {:induction false} DictRemembersEnough<K>(trace: seq<Sending<K>>, n: nat, key: K, t: real)
    requires NonDecreasing(trace) && n <= |trace| && AllAnswered(trace)
    requires 0 < n ==> trace[n - 1].now <= t
    ensures DictSuppresses(DictAfter(trace, n), key, t) <==> Remembered(trace, n, key, t)
  {
    if 0 < n {
      var last := trace[n - 1];
      DictRemembersEnough(trace, n - 1, key, t);
      DictRemembersEnough(trace, n - 1, last.key, last.now);
      StampsIffForgotten(trace, n - 1);
      RememberedStep(trace, n - 1, key, t);
    }
  }

  lemma {:induction false} StoreRemembersEnough<K>(trace: seq<Sending<K>>, n: nat, key: K, t: real)
    requires NonDecreasing(trace) && n <= |trace|
    requires 0 < n ==> trace[n - 1].now <= t
    ensures StoreSuppresses(StoreAfter(trace, n), key, t) <==> Remembered(trace, n, key, t)
  {
    if 0 < n {
      var last := trace[n - 1];
      StoreRemembersEnough(trace, n - 1, key, t);
      StoreRemembersEnough(trace, n - 1, last.key, last.now);
      StampsIffForgotten(trace, n - 1);
      RememberedStep(trace, n - 1, key, t);
    }
  }

  // Over any trace of calls the dictionary decides as if nothing were ever deleted.
  lemma {:induction false} DictionaryKeepsTheRule<K>(trace: seq<Sending<K>>, i: nat)
    requires NonDecreasing(trace) && i < |trace| && AllAnswered(trace)
    ensures !DictSuppresses(DictAfter(trace, i), trace[i].key, trace[i].now) <==> Emits(trace, i)
  {
    DictRemembersEnough(trace, i, trace[i].key, trace[i].now);
    StampsIffForgotten(trace, i);
  }

  // Over any trace, with calls sending their commands in any interleaving and whatever became of each, the
  // shared store decides by the rule; when all are answered it takes the dictionary's decisions.
  lemma {:induction false} SharedStoreKeepsTheRule<K>(trace: seq<Sending<K>>, i: nat)
    requires NonDecreasing(trace) && i < |trace|
    ensures Persists(StoreAfter(trace, i), trace[i]) <==> Emits(trace, i)
    ensures AllAnswered(trace) ==>
              (StoreSuppresses(StoreAfter(trace, i), trace[i].key, trace[i].now)
               <==> DictSuppresses(DictAfter(trace, i), trace[i].key, trace[i].now))
  {
    StoreRemembersEnough(trace, i, trace[i].key, trace[i].now);
    StampsIffForgotten(trace, i);
    if AllAnswered(trace) {
      DictionaryKeepsTheRule(trace, i);
    }
  }

  // ---------- when evidence is lost ----------

  predicate EndedInWindow<K(==)>(trace: seq<Sending<K>>, l: nat, i: nat)
    requires l <= i < |trace|
  {
    Last(trace, l) && trace[l].key == trace[i].key && trace[i].now - trace[l].now < WINDOW
  }

  // A call that ended with sending l let a row for the key through, within the window before sending i.
  predicate LetThrough<K(==)>(trace: seq<Sending<K>>, l: nat, i: nat)
    requires l <= i < |trace|
  {
    && EndedInWindow(trace, l, i)
    && Persists(StoreAfter(trace, l), trace[l])
  }

  // A row is held back although no call for its key, this one included, let one through in the window.
  ghost predicate HeldBackForNothing<K>(trace: seq<Sending<K>>, i: nat)
    requires i < |trace|
  {
    !Persists(StoreAfter(trace, i), trace[i]) && forall l: nat :: l <= i ==> !LetThrough(trace, l, i)
  }

  // The command of sending j was executed and went unanswered, and its call sent it again.
  predicate StampedAndSentAgain<K(==)>(trace: seq<Sending<K>>, j: nat, i: nat)
    requires j < i < |trace|
  {
    && StampsFor(trace, j, trace[i].key) && trace[i].now - trace[j].now < WINDOW
    && trace[j].fate == Unanswered && !Last(trace, j)
  }

  // Within a window there is only one stamp.
  lemma OneStampAWindow<K>(trace: seq<Sending<K>>, j: nat, l: nat, i: nat)
    requires NonDecreasing(trace) && j <= i < |trace| && l <= i
    requires StampsFor(trace, j, trace[i].key) && StampsFor(trace, l, trace[i].key)
    requires trace[i].now - trace[j].now < WINDOW && trace[i].now - trace[l].now < WINDOW
    ensures j == l
  {
  }

  // A row is held back for nothing exactly when it got its answer, the stamp that answered it was left by a
  // command whose own answer was lost and which its call, this one or another, sent again, and no call for
  // the key ended without an answer in the window.
  lemma {:induction false} HeldBackForNothingIff<K>(trace: seq<Sending<K>>, i: nat)
    requires SentByCalls(trace) && i < |trace| && Last(trace, i)
    ensures HeldBackForNothing(trace, i) <==>
              && trace[i].fate == Answered
              && (exists j: nat :: j < i && StampedAndSentAgain(trace, j, i))
              && (forall l: nat :: l < i && EndedInWindow(trace, l, i) ==> trace[l].fate == Answered)
  {
    SharedStoreKeepsTheRule(trace, i);
    StampsIffForgotten(trace, i);
    forall l: nat | l <= i
      ensures Persists(StoreAfter(trace, l), trace[l]) <==> Emits(trace, l)
    {
      SharedStoreKeepsTheRule(trace, l);
    }
    if HeldBackForNothing(trace, i) {
      var j: nat :| j < i && StampsFor(trace, j, trace[i].key) && trace[i].now - trace[j].now < WINDOW;
      assert !LetThrough(trace, j, i);
      assert StampedAndSentAgain(trace, j, i);
      forall l: nat | l < i && EndedInWindow(trace, l, i)
        ensures trace[l].fate == Answered
      {
        assert !LetThrough(trace, l, i);
      }
    } else if j: nat :| j < i && StampedAndSentAgain(trace, j, i) {
      if trace[i].fate == Answered {
        assert Remembered(trace, i, trace[i].key, trace[i].now);
        var l: nat :| l <= i && LetThrough(trace, l, i);
        if trace[l].fate == Answered {
          OneStampAWindow(trace, j, l, i);
        }
      }
    }
  }

  // Whose stamp holds a row back: some call's, and that call lets its own row through unless its command was
  // executed, went unanswered and was answered when sent again.
  lemma {:induction false} StampsOwnerEmitsIff<K>(trace: seq<Sending<K>>, i: nat) returns (j: nat, l: nat)
    requires SentByCalls(trace) && i < |trace|
    requires !Persists(StoreAfter(trace, i), trace[i])
    ensures j < i && StampsFor(trace, j, trace[i].key) && trace[i].now - trace[j].now < WINDOW
    ensures j <= l < |trace| && trace[l].call == trace[j].call && Last(trace, l)
    ensures Persists(StoreAfter(trace, l), trace[l]) <==> !(trace[j].fate == Unanswered && trace[l].fate == Answered)
  {
    SharedStoreKeepsTheRule(trace, i);
    StampsIffForgotten(trace, i);
    j :| j < i && StampsFor(trace, j, trace[i].key) && trace[i].now - trace[j].now < WINDOW;
    l := j;
    if !Last(trace, j) {
      l :| j < l < |trace| && SentAgain(trace, j, l);
      StampsIffForgotten(trace, l);
    }
    SharedStoreKeepsTheRule(trace, l);
  }

  // The smallest instance: the very first call for a key, its command executed and sent again after the
  // answer timed out.  It holds its own row back, and so is every answered call for the rest of the window.
  lemma OneCallCanSilenceItsKey<K>(key: K, later: real)
    requires 1.0 <= later
    ensures var first, again := Sending(0, key, 0.0, Unanswered), Sending(0, key, 1.0, Answered);
            var trace := [first, again, Sending(1, key, later, Answered)];
            && SentByCalls(trace) && HeldBackForNothing(trace, 1)
            && (HeldBackForNothing(trace, 2) <==> later < 60.0)
  {
    var first, again := Sending(0, key, 0.0, Unanswered), Sending(0, key, 1.0, Answered);
    var trace := [first, again, Sending(1, key, later, Answered)];
    assert SentAgain(trace, 0, 1) && !SentAgain(trace, 0, 2) && !SentAgain(trace, 1, 2);
    assert !Last(trace, 0) && Last(trace, 1) && Last(trace, 2);
    assert StoreAfter(trace, 0) == map[];
    assert StoreAfter(trace, 1) == StoreNext(StoreAfter(trace, 0), first) == map[key := WINDOW];
    assert StoreAfter(trace, 2) == StoreNext(StoreAfter(trace, 1), again) == map[key := WINDOW];
  }
}
