/** The key manager object, over storage that outlives it. */
module KeyManagers {
  import opened Crypto
  import opened UnlockThrottle

  class Storage {
    var record: Option<Record>
    var attempts: Option<Attempts>

    constructor ()
      ensures record == None && attempts == None
    {
      record, attempts := None, None;
    }
  }

  class KeyManager {
    const userId: string
    const origin: string
    const storage: Storage
    var dek: Option<nat>
    var attempts: Option<Attempts>

    ghost function Value(): Vault
      reads this, storage
    {
      Vault(userId, origin, dek, attempts, storage.attempts, storage.record)
    }

    /** A new manager starts locked and knows only what is stored. */
    constructor (userId: string, origin: string, storage: Storage)
      ensures this.storage == storage
      ensures Value() == Vault(userId, origin, None, None, storage.attempts, storage.record)
    {
      this.userId, this.origin, this.storage := userId, origin, storage;
      dek, attempts := None, None;
    }

    method LoadAttempts() returns (loaded: Option<Attempts>)
      modifies this`attempts
      ensures loaded == Loaded(old(Value())) && attempts == loaded
    {
      if attempts.None? {
        attempts := storage.attempts;
      }
      loaded := attempts;
    }

    method RecordFailedAttempt(now: int)
      modifies this`attempts, storage`attempts
      ensures var failCount := FailCount(old(Value())) + 1;
        Value() == WithAttempts(old(Value()), Attempts(failCount, now + Backoff(failCount)))
    {
      var loaded := LoadAttempts();
      var failCount := (if loaded.Some? then loaded.value.failCount else 0) + 1;
      var updated := Attempts(failCount, now + Backoff(failCount));
      attempts := Some(updated);
      storage.attempts := Some(updated);
    }

    method ResetAttempts()
      modifies this`attempts, storage`attempts
      ensures Value() == WithAttempts(old(Value()), Attempts(0, 0))
    {
      attempts := Some(Attempts(0, 0));
      storage.attempts := Some(Attempts(0, 0));
    }

    method SetupPin(pin: string, newDek: nat, salt: nat, iv: nat) returns (ok: bool)
      modifies this, storage
      ensures (Value(), ok) == UnlockThrottle.SetupPin(old(Value()), pin, newDek, salt, iv)
    {
      if !IsPin(pin) {
        return false;
      }
      var aad := Aad(userId, origin, RECORD_VERSION);
      storage.record := Some(Record(Wrapped(pin, salt, iv, aad, newDek), iv, aad, salt, RECORD_VERSION));
      ResetAttempts();
      dek := Some(newDek);
      return true;
    }

    method Lock()
      modifies this`dek
      ensures Value() == UnlockThrottle.Lock(old(Value()))
    {
      dek := None;
    }

    method Unlock(pin: string, now: int, failedAt: int) returns (outcome: Outcome)
      modifies this, storage`attempts
      ensures (Value(), outcome) == UnlockThrottle.Unlock(old(Value()), pin, now, failedAt)
    {
      if !IsPin(pin) {
        return BadPin;
      }
      if storage.record.None? {
        return NoRecord;
      }
      var record := storage.record.value;
      var loaded := LoadAttempts();
      if loaded.Some? && now < loaded.value.nextAllowedAt {
        return Throttled(loaded.value.nextAllowedAt - now);
      }
      var aad := Aad(userId, origin, record.version);
      if aad != record.aad {
        return AadMismatch;
      }
      var unwrapped := Unwrap(record, pin, aad);
      if unwrapped.None? {
        RecordFailedAttempt(failedAt);
        return WrongPin;
      }
      dek := unwrapped;
      ResetAttempts();
      return Unlocked;
    }
  }
}
