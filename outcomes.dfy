/**
 * What a whole run of physlock leaves behind: its exit status, which values
 * it writes to the kernel toggles, and the kernel state after it exits, on
 * each of the exit paths of main.
 */
module Outcomes {
  import opened Auth
  import opened Effects
  import opened Physlock

  /** The values read before the toggles were overwritten are the kernel's
      own, and the terminal active at start is the one `vt_get_current`
      reported. */
  predicate ReadsFrom(o: Options, e: Env, k: Kernel)
  {
    && (o.disableSysrq && e.sysrqRead > 0 ==> e.sysrqRead == k.sysrq)
    && (o.muteKernelMessages && e.printkRead > 1 ==> e.printkRead == k.printk)
    && e.currentVt == k.active
  }

  /** The kernel after the toggle writes of main.c:135-147. */
  function Toggled(o: Options, e: Env, k: Kernel): Kernel
  {
    k.(sysrq := if o.disableSysrq && e.sysrqRead > 0 then 0 else k.sysrq,
       printk := if !SysrqWriteFails(o, e) && o.muteKernelMessages && e.printkRead > 1 then 1 else k.printk)
  }

  /** The kernel while the terminal is locked: switching is locked and the
      acquired terminal is held and active. */
  function Held(e: Env, k: Kernel): Kernel
  {
    k.(switchLocked := true, vtHeld := true, active := e.acquired.nr)
  }

  /** The log of attempts holds one `Authenticate` per target, in order. */
  lemma {:induction false} AttemptedInOrder(ts: seq<Target>)
    ensures |Attempted(ts)| == |ts|
    ensures forall j :: 0 <= j < |ts| ==> Attempted(ts)[j] == Authenticate(ts[j])
  {
    if ts != [] {
      AttemptedInOrder(ts[1..]);
      assert forall j :: 1 <= j < |ts| ==> Attempted(ts)[j] == Attempted(ts[1..])[j - 1];
    }
  }

  lemma AttemptedOnlyAuthenticates(ts: seq<Target>)
    ensures forall a :: a in Attempted(ts) ==> a.Authenticate?
  {
    AttemptedInOrder(ts);
  }

  lemma ApplyInertFirst(k: Kernel, a: Action, rest: seq<Action>)
    requires Inert(a)
    ensures ApplyAll(k, [a] + rest) == ApplyAll(k, rest)
  {
    assert ([a] + rest)[1..] == rest;
  }

  lemma ToggleEffect(o: Options, e: Env, k: Kernel)
    ensures ApplyAll(k, ToggleWrites(o, e)) == Toggled(o, e, k)
  {
    var sysrq := o.disableSysrq && e.sysrqRead > 0;
    var printk := !SysrqWriteFails(o, e) && o.muteKernelMessages && e.printkRead > 1;
    var k1 := if sysrq then Apply(k, WriteSysrq(0)) else k;
    ApplyAllAppend(k, When(sysrq, [WriteSysrq(0)]), When(printk, [WritePrintk(1)]));
    ApplyOptional(k, sysrq, WriteSysrq(0));
    ApplyOptional(k1, printk, WritePrintk(1));
  }

  /** From the acquisition of the terminal to the exit, the run holds the
      terminal and keeps switching locked; nothing else reaches the kernel. */
  lemma LockingEffect(o: Options, e: Env, s: Session, k: Kernel)
    ensures ApplyAll(k, Locking(o, e, s).log) == Held(e, k)
  {
    var l3 := [VtAcquire(e.acquired.nr), LockSwitch(1)];
    HoldEffect(e, k);
    if !(o.detach && e.forkPid != 0) {
      var ts := Targets(e.ownerIsRoot, Attempts(e.auth));
      assert Locking(o, e, s).log == l3 + (Securing(o) + Attempted(ts));
      AttemptedOnlyAuthenticates(ts);
      assert forall a :: a in Securing(o) ==> Inert(a);
      assert forall a :: a in Securing(o) + Attempted(ts) ==> a in Securing(o) || a in Attempted(ts);
      InertLog(Held(e, k), Securing(o) + Attempted(ts));
      ApplyAllAppend(k, l3, Securing(o) + Attempted(ts));
    }
  }

  lemma HoldEffect(e: Env, k: Kernel)
    ensures ApplyAll(k, [VtAcquire(e.acquired.nr), LockSwitch(1)]) == Held(e, k)
  {
    assert [VtAcquire(e.acquired.nr), LockSwitch(1)][1..] == [LockSwitch(1)];
    ApplyOne(Apply(k, VtAcquire(e.acquired.nr)), LockSwitch(1));
  }

  /** The kernel after `[VtInit, LookupUsers]` and the toggle writes. */
  lemma PreludeEffect(o: Options, e: Env, k: Kernel, rest: seq<Action>)
    ensures ApplyAll(k, [VtInit] + ([LookupUsers] + ToggleWrites(o, e) + rest))
         == ApplyAll(Toggled(o, e, k), rest)
  {
    ApplyInertFirst(k, VtInit, [LookupUsers] + ToggleWrites(o, e) + rest);
    ApplyInertPrefix(k, LookupUsers, ToggleWrites(o, e), rest);
    ToggleThen(o, e, k, rest);
  }

  lemma ApplyInertPrefix(k: Kernel, a: Action, x: seq<Action>, rest: seq<Action>)
    requires Inert(a)
    ensures ApplyAll(k, [a] + x + rest) == ApplyAll(k, x + rest)
  {
    assert [a] + x + rest == [a] + (x + rest);
    ApplyInertFirst(k, a, x + rest);
  }

  lemma ToggleThen(o: Options, e: Env, k: Kernel, rest: seq<Action>)
    ensures ApplyAll(k, ToggleWrites(o, e) + rest) == ApplyAll(Toggled(o, e, k), rest)
  {
    ApplyAllAppend(k, ToggleWrites(o, e), rest);
    ToggleEffect(o, e, k);
  }

  /** The kernel after a locking run, up to its exit and before `cleanup`. */
  lemma LockedPrefixEffect(o: Options, e: Env, k: Kernel)
    requires o.lockSwitch == -1 && TogglesSet(o, e)
    ensures var stop := Locking(o, e, ToggledSession(o, e));
      ApplyAll(k, Execution(o, e).log) == ApplyAll(Held(e, Toggled(o, e, k)), TeardownActions(stop.session))
  {
    var stop := Locking(o, e, ToggledSession(o, e));
    LockedLog(o, e);
    PreludeEffect(o, e, k, stop.log + TeardownActions(stop.session));
    LockingThen(o, e, ToggledSession(o, e), Toggled(o, e, k), TeardownActions(stop.session));
  }

  lemma LockedLog(o: Options, e: Env)
    requires o.lockSwitch == -1 && TogglesSet(o, e)
    ensures var stop := Locking(o, e, ToggledSession(o, e));
      Execution(o, e).log == [VtInit] + ([LookupUsers] + ToggleWrites(o, e) + (stop.log + TeardownActions(stop.session)))
  {
    var stop := Locking(o, e, ToggledSession(o, e));
    var pre := [LookupUsers] + ToggleWrites(o, e);
    assert LockOutcome(o, e).log == pre + stop.log + TeardownActions(stop.session);
    Associate(pre, stop.log, TeardownActions(stop.session));
  }

  lemma LockingThen(o: Options, e: Env, s: Session, k: Kernel, rest: seq<Action>)
    ensures ApplyAll(k, Locking(o, e, s).log + rest) == ApplyAll(Held(e, k), rest)
  {
    ApplyAllAppend(k, Locking(o, e, s).log, rest);
    LockingEffect(o, e, s, k);
  }

  /** The exit status of main: 0 after a successful switch-lock toggle, after
      an unlock, in the parent of a detached lock and when killed by a signal
      while locked; EXIT_FAILURE when the switch-lock toggle, a toggle write
      or the fork fails. */
  lemma ExitStatus(o: Options, e: Env)
    ensures Execution(o, e).code == 0 || Execution(o, e).code == ExitFailure
    ensures Execution(o, e).code == 0 <==>
      if o.lockSwitch != -1 then e.lockSwitchOk else TogglesSet(o, e) && !ForkFails(o, e)
  {
  }

  /** The administrative mode only toggles the switch lock: no users are
      looked up, no toggle is touched and `cleanup` never runs. */
  lemma AdminMode(o: Options, e: Env, k: Kernel)
    requires o.lockSwitch != -1
    ensures forall a :: a in Execution(o, e).log ==> a in [VtInit, LockSwitch(o.lockSwitch), VtDestroy]
    ensures Execution(o, e).log[..2] == [VtInit, LockSwitch(o.lockSwitch)]
    ensures e.lockSwitchOk ==> ApplyAll(k, Execution(o, e).log) == k.(switchLocked := o.lockSwitch != 0)
  {
    var log := Execution(o, e).log;
    if e.lockSwitchOk {
      assert log == [VtInit] + [LockSwitch(o.lockSwitch), VtDestroy];
      ApplyInertFirst(k, VtInit, [LockSwitch(o.lockSwitch), VtDestroy]);
      var k1 := Apply(k, LockSwitch(o.lockSwitch));
      assert [LockSwitch(o.lockSwitch), VtDestroy][1..] == [VtDestroy];
      ApplyOne(k1, VtDestroy);
    }
  }

  /** Every toggle write in `log` happens only when the option for that
      toggle is set and the value read is above its threshold (sysrq > 0,
      printk > 1), printk only once the sysrq write did not fail, and it
      writes the disabling value (sysrq 0, printk 1) or the value read. */
  predicate WritesReadOrDisabling(o: Options, e: Env, log: seq<Action>)
  {
    forall a :: a in log ==>
      && (a.WriteSysrq? ==>
            o.disableSysrq && e.sysrqRead > 0 && (a.value == 0 || a.value == e.sysrqRead))
      && (a.WritePrintk? ==>
            && o.muteKernelMessages && e.printkRead > 1 && !SysrqWriteFails(o, e)
            && (a.value == 1 || a.value == e.printkRead))
  }

  lemma WritesAppend(o: Options, e: Env, a: seq<Action>, b: seq<Action>)
    requires WritesReadOrDisabling(o, e, a) && WritesReadOrDisabling(o, e, b)
    ensures WritesReadOrDisabling(o, e, a + b)
  {
    assert forall x :: x in a + b ==> x in a || x in b;
  }

  /** From the acquisition of the terminal to the exit nothing is written
      to a toggle. */
  lemma LockingWritesNothing(o: Options, e: Env, s: Session)
    ensures forall a :: a in Locking(o, e, s).log ==> !a.WriteSysrq? && !a.WritePrintk?
  {
    AttemptedOnlyAuthenticates(Targets(e.ownerIsRoot, Attempts(e.auth)));
  }

  /** A run writes to a toggle only when its option is set and the value
      read is above the threshold, and then only the disabling value or the
      value read: the -1 "never read" sentinel never reaches the kernel, and
      a toggle at or below its threshold is never touched. */
  lemma NoSentinelWritten(o: Options, e: Env)
    ensures WritesReadOrDisabling(o, e, Execution(o, e).log)
    ensures WriteSysrq(0) in Execution(o, e).log ==> o.disableSysrq && e.sysrqRead > 0
    ensures WritePrintk(1) in Execution(o, e).log ==> o.muteKernelMessages && e.printkRead > 1
  {
    if o.lockSwitch == -1 {
      LockOutcomeWrites(o, e);
      WritesAppend(o, e, [VtInit], LockOutcome(o, e).log);
    }
  }

  /** In the locking mode the disabling writes happen exactly when the
      value read is above the threshold (printk only once the sysrq write
      did not fail). */
  lemma DisablingWrites(o: Options, e: Env)
    requires o.lockSwitch == -1
    ensures WriteSysrq(0) in Execution(o, e).log <==> o.disableSysrq && e.sysrqRead > 0
    ensures WritePrintk(1) in Execution(o, e).log
        <==> o.muteKernelMessages && e.printkRead > 1 && !SysrqWriteFails(o, e)
  {
    NoSentinelWritten(o, e);
    ToggleWritesLogged(o, e);
    var tw := ToggleWrites(o, e);
    if o.disableSysrq && e.sysrqRead > 0 {
      assert tw[0] == WriteSysrq(0);
    }
    if o.muteKernelMessages && e.printkRead > 1 && !SysrqWriteFails(o, e) {
      assert tw[|tw| - 1] == WritePrintk(1);
    }
  }

  /** The toggle writes are part of every run of the locking mode. */
  lemma ToggleWritesLogged(o: Options, e: Env)
    requires o.lockSwitch == -1
    ensures forall a :: a in ToggleWrites(o, e) ==> a in Execution(o, e).log
  {
    var pre := [LookupUsers] + ToggleWrites(o, e);
    var r := LockOutcome(o, e);
    var ts := ToggledSession(o, e);
    if !TogglesSet(o, e) {
      assert r.log == pre + TeardownActions(ts);
    } else {
      var stop := Locking(o, e, ts);
      assert r.log == pre + stop.log + TeardownActions(stop.session);
      Associate(pre, stop.log, TeardownActions(stop.session));
    }
    assert r.log[..|pre|] == pre;
    assert Execution(o, e).log == [VtInit] + r.log;
  }

  lemma LockOutcomeWrites(o: Options, e: Env)
    ensures WritesReadOrDisabling(o, e, LockOutcome(o, e).log)
  {
    var pre := [LookupUsers] + ToggleWrites(o, e);
    var ts := ToggledSession(o, e);
    assert WritesReadOrDisabling(o, e, pre);
    if !TogglesSet(o, e) {
      assert WritesReadOrDisabling(o, e, TeardownActions(ts)) by {
        TeardownWritesNoSentinel(ts);
      }
      WritesAppend(o, e, pre, TeardownActions(ts));
    } else {
      var stop := Locking(o, e, ts);
      assert WritesReadOrDisabling(o, e, stop.log) by {
        LockingWritesNothing(o, e, ts);
      }
      WritesAppend(o, e, pre, stop.log);
      assert WritesReadOrDisabling(o, e, TeardownActions(stop.session)) by {
        TeardownWritesNoSentinel(stop.session);
      }
      WritesAppend(o, e, pre + stop.log, TeardownActions(stop.session));
    }
  }

  /**
   * Every run of the locking mode that ends in this process other than by a
   * signal during authentication (an unlock, or a failure before the
   * terminal was locked) gives everything back: both toggles hold their
   * values from before, switching is unlocked, and the terminal active before
   * is active again.
   */
  lemma UnlockedExitRestores(o: Options, e: Env, k: Kernel)
    requires o.lockSwitch == -1 && ReadsFrom(o, e, k)
    requires !ParentExits(o, e) && !KilledWhileLocked(o, e)
    ensures ApplyAll(k, Execution(o, e).log) == k.(switchLocked := false, vtHeld := false)
  {
    var ts := ToggledSession(o, e);
    if !TogglesSet(o, e) {
      assert Execution(o, e).log == [VtInit] + ([LookupUsers] + ToggleWrites(o, e) + TeardownActions(ts));
      PreludeEffect(o, e, k, TeardownActions(ts));
      TeardownRestores(Toggled(o, e, k), ts);
    } else {
      var stop := Locking(o, e, ts);
      LockedPrefixEffect(o, e, k);
      TeardownRestores(Held(e, Toggled(o, e, k)), stop.session);
    }
  }

  /**
   * Killed by SIGTERM or SIGQUIT during authentication, the process exits
   * with status 0 and `cleanup` restores only printk: sysrq stays disabled,
   * switching stays locked and the locked terminal stays held and active.
   */
  lemma KilledWhileLockedKeepsLock(o: Options, e: Env, k: Kernel)
    requires o.lockSwitch == -1 && ReadsFrom(o, e, k) && KilledWhileLocked(o, e)
    ensures Execution(o, e).code == 0
    ensures ApplyAll(k, Execution(o, e).log)
         == Held(e, k).(sysrq := if o.disableSysrq && e.sysrqRead > 0 then 0 else k.sysrq)
  {
    var stop := Locking(o, e, ToggledSession(o, e));
    LockedPrefixEffect(o, e, k);
    TeardownWhileLocked(Held(e, Toggled(o, e, k)), stop.session);
  }

  /**
   * The parent of a successful fork exits with status 0 without undoing
   * anything: the child it leaves behind holds the locked terminal and the
   * toggles stay disabled.
   */
  lemma DetachedParentLeavesLock(o: Options, e: Env, k: Kernel)
    requires o.lockSwitch == -1 && ParentExits(o, e)
    ensures Execution(o, e).code == 0
    ensures ApplyAll(k, Execution(o, e).log) == Held(e, Toggled(o, e, k))
  {
    var stop := Locking(o, e, ToggledSession(o, e));
    LockedPrefixEffect(o, e, k);
    assert TeardownActions(stop.session) == [];
  }
}
