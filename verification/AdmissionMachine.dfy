/**
 The admission flags as the statics they are: one method for each stretch of code that runs under the
 enrollment lock, and for each atomic access of the microphone and recovery flags. Every method is
 proved to be the step `Admission` interleaves.
 */
module AdmissionMachine {
  import opened Admission

  class Gate {
    var busy: nat
    var armed: nat
    var railChecked: bool
    var recovery: bool
    var window: bool
    var closing: bool
    var pending: nat
    var codeValid: bool
    var deadline: nat
    var owners: nat
    var denied: bool
    ghost var arms: nat
    ghost var captures: nat

    ghost function Value(): Shared
      reads this
    {
      Shared(busy, armed, railChecked, recovery, window, closing, pending, codeValid, deadline, owners, denied, arms,
        captures)
    }

    constructor (bonds: nat)
      ensures Value() == Shared(0, 0, false, false, false, false, 0, false, 0, bonds, false, 0, 0)
    {
      busy, armed, railChecked, recovery := 0, 0, false, false;
      window, closing, pending, codeValid, deadline, owners, denied := false, false, 0, false, 0, bonds, false;
      arms, captures := 0, 0;
    }

    /** pendant_ble_pairing_busy: one read of three statics, under the lock. */
    method PairingIsBusy() returns (r: bool)
      ensures r == PairingBusy(Value())
    {
      r := window || pending != 0 || closing;
    }

    method ClaimBusy(k: Kind) returns (won: bool)
      modifies this`busy
      ensures won == (old(busy) == 0) && Value() == Claim(old(Value()), k).0
    {
      won := busy == 0;
      if won { busy := if k.External? then 2 else 1; }
    }

    method ReleaseBusy(k: Kind, done: bool, now: nat)
      modifies this`busy
      ensures Value() == Go1(old(Value()), MicOut(k, done), now, true, false).0
    {
      if !k.External? || !done {
        busy := 0;
      } else if busy == 2 {
        busy := 0;
      }
    }

    /** The second look of a claimed request: at pairing. */
    method AskPairing(k: Kind, now: nat, good: bool) returns (next: Pc)
      ensures (Value(), next) == Go1(Value(), MicSaw(k), now, good, false)
    {
      var enrolling := PairingIsBusy();
      next := if enrolling then MicOut(k, false) else MicFree(k);
    }

    /** The last access of a queued request: a capture takes the one-shot, others clear or look at it. */
    method Admit(k: Kind, now: nat, good: bool) returns (next: Pc)
      modifies this`armed, this`captures
      ensures (Value(), next) == Go1(old(Value()), MicFree(k), now, good, false)
    {
      if k.External? {
        if armed != 0 || !good { return MicOut(k, false); }
      } else if k.Capture? || k.Record? {
        if armed != (if k.Record? then 2 else 1) { return MicOut(k, false); }
        armed, captures := 0, captures + 1;
      } else if k.Tap? {
        armed := 0;
      } else if k.Power? {
        armed := 0;
        return MicPower(k);
      } else {
        return if railChecked && good then MicArming(k) else MicOut(k, false);
      }
      return MicIn(k);
    }

    method ClearRail(k: Kind, now: nat)
      modifies this`railChecked
      ensures Value() == Go1(old(Value()), MicPower(k), now, true, false).0
    {
      railChecked := false;
    }

    method SetArm(k: Kind, now: nat)
      modifies this
      ensures Value() == Go1(old(Value()), MicArming(k), now, true, false).0
    {
      armed := if k.Arm? && k.playback then 2 else 1;
      arms := arms + 1;
    }

    method ClaimRecovery(now: nat) returns (won: bool)
      modifies this`recovery
      ensures Value() == Go1(old(Value()), RecAsked, now, true, false).0 && won == !old(recovery)
    {
      won := !recovery;
      if won { recovery := true; }
    }

    method OpenWindow(now: nat) returns (opens: bool)
      modifies this
      ensures Value() == Go1(old(Value()), OpenAsked, now, true, false).0
      ensures opens == (!PairingBusy(old(Value())) && old(busy) == 0 && !old(recovery))
    {
      opens := !(window || pending != 0 || closing || busy != 0 || recovery);
      if !opens { return; }
      window, deadline, codeValid := true, now + WINDOW_MS, false;
    }

    method DetachLocked() returns (released: nat)
      modifies this
      ensures Value() == Detach(old(Value())) && released == old(pending)
    {
      closing, window, deadline, codeValid := true, false, 0, false;
      released := pending;
      pending := 0;
    }

    /** finish_enrollment up to the end of its first lock. */
    method FinishEnrollment(who: nat, elapsed: nat, now: nat) returns (detached: bool)
      modifies this
      ensures Value() == Finish(old(Value()), who, elapsed, now).0
      ensures detached <==> Finish(old(Value()), who, elapsed, now).1 == Releasing
    {
      if (who != 0 && pending != who) || closing || (elapsed != 0 && (deadline != elapsed || now < deadline))
         || (!window && pending == 0) {
        return false;
      }
      var released := DetachLocked();
      return true;
    }

    method ConnectedSection(who: nat, now: nat) returns (accepted: bool)
      requires who != 0
      modifies this`pending
      ensures Value() == Enter(old(Value()), Connected(who, now)).0
      ensures accepted ==> pending == who && window && owners == 0
    {
      if denied { return false; }
      accepted := owners == 0 && window && !closing && pending == 0 && now < deadline && busy == 0 && !recovery;
      if accepted { pending := who; }
    }

    /** pairing_complete: success and timeout compete for the same lock. */
    method CompleteSection(who: nat, now: nat, bonded: bool) returns (expected: bool)
      requires who != 0
      modifies this
      ensures Value() == Enter(old(Value()), Complete(who, now, bonded)).0
      ensures expected == Expected(old(Value()), who, now, bonded)
    {
      expected := window && !closing && pending == who && codeValid && now < deadline && bonded;
      if expected {
        owners := 1;
        var released := DetachLocked();
      } else {
        denied := true;
      }
    }

    /** The last lock of the local replacement. */
    method ReplaceSection(now: nat, good: bool, late: bool)
      modifies this
      ensures Value() == Go1(old(Value()), Unpairing, now, good, late).0
    {
      if good {
        owners, window, deadline, codeValid := 0, true, now + WINDOW_MS, false;
      } else {
        if late { owners := 0; }
        denied, window, deadline := true, false, 0;
      }
      closing := false;
    }
  }
}
