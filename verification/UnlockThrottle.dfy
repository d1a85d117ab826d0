/** The vault of the browser client: a data key wrapped under a PIN, and the delay that grows with
    every wrong PIN.  Times are in milliseconds. */
module UnlockThrottle {
  import opened Crypto

  datatype Aad = Aad(user: string, origin: string, version: nat)

  /** AES-GCM under the key that PBKDF2 derives from the PIN and the salt. */
  datatype WrappedKey = Wrapped(pin: string, salt: nat, iv: nat, aad: Aad, dek: nat)

  datatype Record = Record(wrapped: WrappedKey, iv: nat, aad: Aad, salt: nat, version: nat)

  datatype Attempts = Attempts(failCount: nat, nextAllowedAt: int)

  const RECORD_VERSION: nat := 1

  /** `memory` is the manager's own copy of the stored attempts. */
  datatype Vault = Vault(
    user: string,
    origin: string,
    dek: Option<nat>,
    memory: Option<Attempts>,
    stored: Option<Attempts>,
    record: Option<Record>)

  datatype Outcome = Unlocked | BadPin | NoRecord | Throttled(waitMs: int) | AadMismatch | WrongPin

  predicate IsPin(pin: string) {
    |pin| == 4 && forall c <- pin :: '0' <= c <= '9'
  }

  function Unwrap(r: Record, pin: string, aad: Aad): Option<nat> {
    if r.wrapped.pin == pin && r.wrapped.salt == r.salt && r.wrapped.iv == r.iv && r.wrapped.aad == aad
    then Some(r.wrapped.dek)
    else None
  }

  // Attempts

  function Pow2(n: nat): nat {
    if n == 0 then 1 else 2 * Pow2(n - 1)
  }

  function Backoff(failCount: nat): nat
    requires failCount > 0
  {
    var ms := 1000 * Pow2(failCount - 1);
    if ms < 60000 then ms else 60000
  }

  function Loaded(v: Vault): Option<Attempts> {
    if v.memory.Some? then v.memory else v.stored
  }

  function FailCount(v: Vault): nat {
    match Loaded(v) case Some(a) => a.failCount case None => 0
  }

  function WithAttempts(v: Vault, a: Attempts): Vault {
    v.(memory := Some(a), stored := Some(a))
  }

  // Operations

  function SetupPin(v: Vault, pin: string, dek: nat, salt: nat, iv: nat): (Vault, bool) {
    if !IsPin(pin) then (v, false)
    else
      var aad := Aad(v.user, v.origin, RECORD_VERSION);
      var record := Record(Wrapped(pin, salt, iv, aad, dek), iv, aad, salt, RECORD_VERSION);
      (WithAttempts(v, Attempts(0, 0)).(dek := Some(dek), record := Some(record)), true)
  }

  function Lock(v: Vault): Vault {
    v.(dek := None)
  }

  /** `now` is the time of the check, `failedAt` the time at which a failure would be recorded. */
  function Unlock(v: Vault, pin: string, now: int, failedAt: int): (Vault, Outcome) {
    if !IsPin(pin) then (v, BadPin)
    else if v.record.None? then (v, NoRecord)
    else
      var loaded := Loaded(v);
      var t := v.(memory := loaded);
      if loaded.Some? && now < loaded.value.nextAllowedAt then
        (t, Throttled(loaded.value.nextAllowedAt - now))
      else
        var r := v.record.value;
        var aad := Aad(v.user, v.origin, r.version);
        if aad != r.aad then (t, AadMismatch)
        else
          match Unwrap(r, pin, aad)
          case Some(dek) => (WithAttempts(t, Attempts(0, 0)).(dek := Some(dek)), Unlocked)
          case None =>
            var failCount := FailCount(v) + 1;
            (WithAttempts(t, Attempts(failCount, failedAt + Backoff(failCount))), WrongPin)
  }

  // The PIN

  /** After a setup exactly the PIN of the setup unwraps the key, and it is the same key; any
      other PIN fails and starts the throttle. */
  lemma OnlyThePinUnlocks(v: Vault, pin: string, dek: nat, salt: nat, iv: nat, tried: string, now: int, failedAt: int)
    requires IsPin(pin) && IsPin(tried) && now >= 0
    ensures var locked := Lock(SetupPin(v, pin, dek, salt, iv).0);
      var (after, outcome) := Unlock(locked, tried, now, failedAt);
      if tried == pin then outcome == Unlocked && after.dek == Some(dek) && FailCount(after) == 0
      else outcome == WrongPin && after.dek == None && Loaded(after) == Some(Attempts(1, failedAt + 1000))
  {
  }

  /** A PIN is four decimal digits. */
  lemma PinsExactly(pin: string)
    ensures IsPin(pin) <==> |pin| == 4 && forall i :: 0 <= i < 4 ==> pin[i] in "0123456789"
  {
    forall c: char
      ensures '0' <= c <= '9' <==> c in "0123456789"
    {
      var digits := "0123456789";
      if '0' <= c <= '9' {
        assert digits[c as int - '0' as int] == c;
      }
    }
    if IsPin(pin) {
      assert forall i :: 0 <= i < 4 ==> pin[i] in pin;
    }
  }

  /** The delay after this many failures in a row: doubling from a second, at most a minute. */
  lemma BackoffExactly(failCount: nat)
    requires failCount > 0
    ensures Backoff(failCount) ==
      if failCount >= 7 then 60000
      else [1000, 2000, 4000, 8000, 16000, 32000][failCount - 1]
  {
    PowGrows(failCount - 1);
    assert Pow2(0) == 1 && Pow2(1) == 2 && Pow2(2) == 4 && Pow2(3) == 8;
    assert Pow2(4) == 16 && Pow2(5) == 32 && Pow2(6) == 64;
  }

  /** By the manager's own copy of the attempts, or by what is stored when it has none. */
  predicate TooEarly(v: Vault, now: int) {
    || (v.memory.Some? && now < v.memory.value.nextAllowedAt)
    || (v.memory.None? && v.stored.Some? && now < v.stored.value.nextAllowedAt)
  }

  predicate Opens(v: Vault, pin: string) {
    v.record.Some? && v.record.value.wrapped ==
      Wrapped(pin, v.record.value.salt, v.record.value.iv, Aad(v.user, v.origin, v.record.value.version),
              v.record.value.wrapped.dek)
  }

  predicate Bound(v: Vault) {
    v.record.Some? && v.record.value.aad == Aad(v.user, v.origin, v.record.value.version)
  }

  /** Each outcome of an unlock, and what it leaves behind.  A try that is malformed, too early or for
      another user or origin counts as no failure and never touches the storage. */
  lemma UnlockExactly(v: Vault, pin: string, now: int, failedAt: int)
    ensures var (after, outcome) := Unlock(v, pin, now, failedAt);
      && (outcome == BadPin <==> !IsPin(pin))
      && (outcome == NoRecord <==> IsPin(pin) && v.record.None?)
      && (outcome.Throttled? <==> IsPin(pin) && v.record.Some? && TooEarly(v, now))
      && (outcome == AadMismatch <==> IsPin(pin) && v.record.Some? && !TooEarly(v, now) && !Bound(v))
      && (outcome == Unlocked <==> IsPin(pin) && !TooEarly(v, now) && Bound(v) && Opens(v, pin))
      && (outcome == WrongPin <==> IsPin(pin) && !TooEarly(v, now) && Bound(v) && !Opens(v, pin))
      && (outcome.Throttled? ==> now + outcome.waitMs == Loaded(v).value.nextAllowedAt)
      && (outcome == Unlocked ==>
            after == v.(dek := Some(v.record.value.wrapped.dek), memory := Some(Attempts(0, 0)),
                        stored := Some(Attempts(0, 0))))
      && (outcome != Unlocked ==> after.dek == v.dek && after.record == v.record)
      && (outcome !in {Unlocked, WrongPin} ==> after.stored == v.stored && Loaded(after) == Loaded(v))
      && (outcome == WrongPin ==>
            after.memory == after.stored == Some(Attempts(FailCount(v) + 1, failedAt + Backoff(FailCount(v) + 1))))
  {
  }

  /** A setup with a PIN always unlocks with the new key and clears the attempts; without one it is
      refused and changes nothing. */
  lemma SetupExactly(v: Vault, pin: string, dek: nat, salt: nat, iv: nat)
    ensures var (after, ok) := SetupPin(v, pin, dek, salt, iv);
      && ok == IsPin(pin)
      && (ok ==> Opens(after, pin) && Bound(after) && after.record.value.wrapped.dek == dek && after.dek == Some(dek)
                 && after.memory == after.stored == Some(Attempts(0, 0)) && !TooEarly(after, 0))
      && (!ok ==> after == v)
  {
  }

  // The time bound

  /** What can happen between the first failure and the last: tries, locking, and starting a new
      manager over the same storage. */
  datatype Action = Try(pin: string, now: int, failedAt: int) | LockNow | Reload

  function Act(v: Vault, a: Action): Vault {
    match a
    case Try(pin, now, failedAt) => Unlock(v, pin, now, failedAt).0
    case LockNow => Lock(v)
    case Reload => v.(dek := None, memory := None)
  }

  /** The times at which wrong PINs were recorded. */
  function Failures(v: Vault, actions: seq<Action>): seq<int>
    decreases |actions|
  {
    if actions == [] then []
    else
      var a := actions[0];
      (if a.Try? && Unlock(v, a.pin, a.now, a.failedAt).1 == WrongPin then [a.failedAt] else [])
      + Failures(Act(v, a), actions[1..])
  }

  predicate NeverUnlocks(v: Vault, actions: seq<Action>)
    decreases |actions|
  {
    actions == [] ||
    (var a := actions[0];
     (a.Try? ==> Unlock(v, a.pin, a.now, a.failedAt).1 != Unlocked) && NeverUnlocks(Act(v, a), actions[1..]))
  }

  /** Calls do not overlap and the clock does not run backwards: each try starts no earlier than
      the one before ended. */
  predicate Ordered(from: int, actions: seq<Action>)
    decreases |actions|
  {
    actions == [] ||
    match actions[0]
    case Try(_, now, failedAt) => from <= now <= failedAt && Ordered(failedAt, actions[1..])
    case _ => Ordered(from, actions[1..])
  }

  /** The delays that follow the first k - 1 failures. */
  function Delay(k: nat): nat
    requires k > 0
  {
    if k == 1 then 0 else Delay(k - 1) + Backoff(k - 1)
  }

  lemma {:induction false} PowGrows(n: nat)
    ensures n >= 6 ==> Pow2(n) >= 64
  {
    if n > 6 {
      PowGrows(n - 1);
    } else {
      assert Pow2(0) == 1 && Pow2(1) == 2 && Pow2(2) == 4 && Pow2(3) == 8;
      assert Pow2(4) == 16 && Pow2(5) == 32 && Pow2(6) == 64;
    }
  }

  /** The closed form: doubling up to the seventh failure, one minute each from then on. */
  lemma {:induction false} DelayClosedForm(k: nat)
    requires k > 0
    ensures Delay(k) == if k <= 7 then 1000 * (Pow2(k - 1) - 1) else 63000 + 60000 * (k - 7)
  {
    if k > 1 {
      DelayClosedForm(k - 1);
      PowGrows(k - 2);
      assert Pow2(0) == 1 && Pow2(1) == 2 && Pow2(2) == 4 && Pow2(3) == 8;
      assert Pow2(4) == 16 && Pow2(5) == 32 && Pow2(6) == 64;
    }
  }

  /** With `count` failures since `first`, the next try is allowed no earlier than the delay demands. */
  predicate Pending(v: Vault, count: nat, first: int) {
    && FailCount(v) == count
    && (v.memory.Some? ==> v.stored == v.memory)
    && (count > 0 ==> Loaded(v).Some? && Loaded(v).value.nextAllowedAt >= first + Delay(count + 1))
  }

  lemma {:induction false} LaterFailures(v: Vault, actions: seq<Action>, count: nat, first: int, from: int, j: nat)
    requires count > 0 && Pending(v, count, first) && NeverUnlocks(v, actions) && Ordered(from, actions)
    requires j < |Failures(v, actions)|
    ensures Failures(v, actions)[j] >= first + Delay(count + j + 1)
    decreases |actions|
  {
    var a := actions[0];
    var t := Act(v, a);
    if a.Try? && Unlock(v, a.pin, a.now, a.failedAt).1 == WrongPin {
      assert Pending(t, count + 1, first);
      if j > 0 {
        LaterFailures(t, actions[1..], count + 1, first, a.failedAt, j - 1);
      }
    } else {
      LaterFailures(t, actions[1..], count, first, if a.Try? then a.failedAt else from, j);
    }
  }

  lemma {:induction false} FailuresAfterFirst(v: Vault, actions: seq<Action>, from: int, k: nat)
    requires Pending(v, 0, 0) && NeverUnlocks(v, actions) && Ordered(from, actions)
    requires 0 < k <= |Failures(v, actions)|
    ensures Failures(v, actions)[k - 1] >= Failures(v, actions)[0] + Delay(k)
    decreases |actions|
  {
    var a := actions[0];
    var t := Act(v, a);
    if a.Try? && Unlock(v, a.pin, a.now, a.failedAt).1 == WrongPin {
      assert Delay(2) == Delay(1) + Backoff(1);
      assert Pending(t, 1, a.failedAt);
      if k > 1 {
        LaterFailures(t, actions[1..], 1, a.failedAt, a.failedAt, k - 2);
      }
    } else {
      FailuresAfterFirst(t, actions[1..], if a.Try? then a.failedAt else from, k);
    }
  }

  /** Starting with no failures on record, the k-th consecutive failure comes at least
      1000 * (2^(k-1) - 1) ms after the first if k <= 7, and 63000 + 60000 * (k - 7) ms after it from
      then on, however the tries are spread over locks and restarts. */
  lemma ThrottleBound(v: Vault, actions: seq<Action>, from: int, k: nat)
    requires FailCount(v) == 0 && (v.memory.Some? ==> v.stored == v.memory)
    requires NeverUnlocks(v, actions) && Ordered(from, actions)
    requires 0 < k <= |Failures(v, actions)|
    ensures Failures(v, actions)[k - 1] - Failures(v, actions)[0] >=
            if k <= 7 then 1000 * (Pow2(k - 1) - 1) else 63000 + 60000 * (k - 7)
  {
    FailuresAfterFirst(v, actions, from, k);
    DelayClosedForm(k);
  }

  /** Trying a wrong PIN again and again, each time as soon as it is allowed. */
  function Hammer(wrong: string, start: int, count: nat, n: nat): seq<Action>
    decreases n
  {
    if n == 0 then []
    else
      var at := start + Delay(count + 1);
      [Try(wrong, at, at)] + Hammer(wrong, start, count + 1, n - 1)
  }

  predicate Refuses(v: Vault, wrong: string) {
    && IsPin(wrong) && v.record.Some?
    && v.record.value.aad == Aad(v.user, v.origin, v.record.value.version)
    && Unwrap(v.record.value, wrong, v.record.value.aad).None?
  }

  /** The bound is sharp: the k-th failure can come exactly that long after the first. */
  lemma {:induction false} BoundIsAttained(v: Vault, wrong: string, start: int, count: nat, n: nat)
    requires Refuses(v, wrong) && FailCount(v) == count
    requires Loaded(v).Some? ==> Loaded(v).value.nextAllowedAt <= start + Delay(count + 1)
    ensures var actions := Hammer(wrong, start, count, n);
      && NeverUnlocks(v, actions) && Ordered(start + Delay(count + 1), actions)
      && |Failures(v, actions)| == n
      && forall j :: 0 <= j < n ==> Failures(v, actions)[j] == start + Delay(count + j + 1)
    decreases n
  {
    if n > 0 {
      var a := Hammer(wrong, start, count, n)[0];
      BoundIsAttained(Act(v, a), wrong, start, count + 1, n - 1);
      OrderedFromEarlier(start + Delay(count + 1), start + Delay(count + 2), Hammer(wrong, start, count + 1, n - 1));
    }
  }

  lemma OrderedFromEarlier(earlier: int, later: int, actions: seq<Action>)
    requires earlier <= later && Ordered(later, actions)
    ensures Ordered(earlier, actions)
    decreases |actions|
  {
  }
}
