/**
 * The privileged effects of physlock as a log of actions, the teardown
 * performed by `cleanup`, and how the actions change the state the kernel
 * keeps outside the process.
 */
module Effects {
  import opened Auth

  /** The fields of `vt_t` that matter here: the terminal number and its
      file descriptor, both -1 until `vt_acquire`. */
  datatype Vt = Vt(nr: int, fd: int)

  /** One externally visible call made by main or cleanup. */
  datatype Action =
    | VtInit                    // vt_init()
    | LookupUsers               // get_user and get_user_by_id
    | LockSwitch(on: int)       // vt_lock_switch(on)
    | VtDestroy                 // vt_destroy()
    | WriteSysrq(value: int)    // write_int_to_file(SYSRQ_PATH, value)
    | WritePrintk(value: int)   // write_int_to_file(PRINTK_PATH, value)
    | VtAcquire(nr: int)        // vt_acquire(&vt), which switches to terminal nr
    | Setsid                    // setsid() and sleep(1) in the forked child
    | VtReopen                  // vt_reopen(&vt)
    | VtSecure                  // vt_secure(&vt)
    | RedirectStd               // dup2 of vt.fd onto 0, 1 and 2
    | Banner(text: string)      // the optional prompt message
    | Authenticate(target: Target)
    | FreeUsers                 // free_user(&user) and free_user(&root)
    | CloseStd                  // close(0), close(1), close(2)
    | VtReset                   // vt_reset(&vt)
    | VtRelease(to: int)        // vt_release(&vt, to)

  /** The globals that `cleanup` inspects, with the `detach` option. */
  datatype Session = Session(
    detach: bool,
    chpid: int,
    oldvt: int,
    vt: Vt,
    oldsysrq: int,
    oldprintk: int,
    locked: bool)

  /** The parent of a successful fork holds nothing: the child owns the lock. */
  predicate DetachedParent(s: Session)
  {
    s.detach && s.chpid > 0
  }

  /** The actions `acts` if the guard `c` holds, none otherwise. */
  function When(c: bool, acts: seq<Action>): seq<Action>
  {
    if c then acts else []
  }

  /** The actions of `cleanup` in a given state (see TeardownOrder and
      TeardownWritesNoSentinel for what they amount to). */
  function TeardownActions(s: Session): seq<Action>
  {
    if DetachedParent(s) then []
    else
      [FreeUsers, CloseStd] + When(s.oldprintk > 1, [WritePrintk(s.oldprintk)])
      + When(!s.locked, Unwind(s))
  }

  /** What `cleanup` does once the terminal is no longer locked. */
  function Unwind(s: Session): seq<Action>
  {
    When(s.oldsysrq > 0, [WriteSysrq(s.oldsysrq)]) + When(s.vt.fd >= 0, [VtReset])
    + [LockSwitch(0), VtRelease(s.oldvt), VtDestroy]
  }

  /** A toggle is written back only with the value read before it was
      overwritten, and only above its threshold (sysrq > 0, printk > 1), so
      the -1 "never read" sentinel is never written back. */
  lemma TeardownWritesNoSentinel(s: Session)
    ensures forall a :: a in TeardownActions(s) && a.WriteSysrq? ==> a.value == s.oldsysrq > 0
    ensures forall a :: a in TeardownActions(s) && a.WritePrintk? ==> a.value == s.oldprintk > 1
  {
  }

  /** The two early exits of `cleanup`, and how every other path begins. */
  lemma TeardownOrder(s: Session)
    // the parent of a successful fork does nothing
    ensures DetachedParent(s) ==> TeardownActions(s) == []
    // otherwise the users are freed and the standard streams closed first,
    // then printk is restored if it was overwritten
    ensures !DetachedParent(s) ==> |TeardownActions(s)| >= 2 && TeardownActions(s)[..2] == [FreeUsers, CloseStd]
    ensures WritePrintk(s.oldprintk) in TeardownActions(s) <==> !DetachedParent(s) && s.oldprintk > 1
    // while still locked nothing else happens: sysrq is not restored and
    // the terminal stays switch-locked and held
    ensures s.locked ==> forall a :: a in TeardownActions(s) ==> a in [FreeUsers, CloseStd, WritePrintk(s.oldprintk)]
  {
    if !DetachedParent(s) {
      var head := [FreeUsers, CloseStd] + When(s.oldprintk > 1, [WritePrintk(s.oldprintk)]);
      var rest := When(!s.locked, Unwind(s));
      assert TeardownActions(s) == [FreeUsers, CloseStd] + (When(s.oldprintk > 1, [WritePrintk(s.oldprintk)]) + rest);
      assert WritePrintk(s.oldprintk) !in rest;
    }
  }

  /** Past the `locked` check `cleanup` restores sysrq if it was overwritten,
      resets the input discipline if the terminal was opened, and ends by
      unlocking switching, releasing back to the old terminal and destroying
      its handle, in that order. */
  lemma TeardownUnwindOrder(s: Session)
    requires !DetachedParent(s) && !s.locked
    ensures WriteSysrq(s.oldsysrq) in TeardownActions(s) <==> s.oldsysrq > 0
    ensures var r := TeardownActions(s);
      |r| >= 5 && r[|r| - 3..] == [LockSwitch(0), VtRelease(s.oldvt), VtDestroy]
    ensures VtReset in TeardownActions(s) <==> s.vt.fd >= 0
    ensures VtReset in TeardownActions(s) ==> TeardownActions(s)[|TeardownActions(s)| - 4] == VtReset
  {
    var r := TeardownActions(s);
    var head := [FreeUsers, CloseStd] + When(s.oldprintk > 1, [WritePrintk(s.oldprintk)]);
    var u := Unwind(s);
    assert r == head + u;
    UnwindShape(s);
    assert WriteSysrq(s.oldsysrq) !in head && VtReset !in head;
    assert r[|r| - 3..] == u[|u| - 3..];
    if VtReset in u {
      assert r[|r| - 4] == u[|u| - 4];
    }
  }

  lemma UnwindShape(s: Session)
    ensures var u := Unwind(s);
      && |u| >= 3 && u[|u| - 3..] == [LockSwitch(0), VtRelease(s.oldvt), VtDestroy]
      && (WriteSysrq(s.oldsysrq) in u <==> s.oldsysrq > 0)
      && (VtReset in u <==> s.vt.fd >= 0)
      && (VtReset in u ==> |u| >= 4 && u[|u| - 4] == VtReset)
  {
    var sysrq := When(s.oldsysrq > 0, [WriteSysrq(s.oldsysrq)]);
    var reset := When(s.vt.fd >= 0, [VtReset]);
    var tail := [LockSwitch(0), VtRelease(s.oldvt), VtDestroy];
    assert Unwind(s) == sysrq + (reset + tail);
    assert WriteSysrq(s.oldsysrq) !in reset + tail;
    assert VtReset !in sysrq;
  }

  /**
   * The state outside the process that physlock changes: the two kernel
   * toggles, whether terminal switching is locked, whether a terminal is
   * held by physlock, and which terminal is active. How each `vt_*` call
   * changes it is what vt.c does; vt.c is not part of this model.
   */
  datatype Kernel = Kernel(sysrq: int, printk: int, switchLocked: bool, vtHeld: bool, active: int)

  function Apply(k: Kernel, a: Action): Kernel
  {
    match a
    case WriteSysrq(v) => k.(sysrq := v)
    case WritePrintk(v) => k.(printk := v)
    case LockSwitch(on) => k.(switchLocked := on != 0)
    case VtAcquire(nr) => k.(vtHeld := true, active := nr)
    case VtRelease(to) => k.(vtHeld := false, active := to)
    case _ => k
  }

  /** The kernel state after a log of actions, applied in order. */
  function ApplyAll(k: Kernel, log: seq<Action>): Kernel
    decreases |log|
  {
    if log == [] then k else ApplyAll(Apply(k, log[0]), log[1..])
  }

  lemma {:induction false} ApplyAllAppend(k: Kernel, a: seq<Action>, b: seq<Action>)
    ensures ApplyAll(k, a + b) == ApplyAll(ApplyAll(k, a), b)
    decreases |a|
  {
    if a == [] {
      assert a + b == b;
    } else {
      assert (a + b)[1..] == a[1..] + b;
      ApplyAllAppend(Apply(k, a[0]), a[1..], b);
    }
  }

  /** An action that does not touch the kernel state modelled here. */
  predicate Inert(a: Action)
  {
    !(a.WriteSysrq? || a.WritePrintk? || a.LockSwitch? || a.VtAcquire? || a.VtRelease?)
  }

  lemma {:induction false} InertLog(k: Kernel, log: seq<Action>)
    requires forall a :: a in log ==> Inert(a)
    ensures ApplyAll(k, log) == k
    decreases |log|
  {
    if log != [] {
      assert log[0] in log;
      assert Apply(k, log[0]) == k;
      assert forall a :: a in log[1..] ==> a in log;
      InertLog(k, log[1..]);
    }
  }

  lemma ApplyOne(k: Kernel, a: Action)
    ensures ApplyAll(k, [a]) == Apply(k, a)
  {
    assert [a][1..] == [];
  }

  /** The kernel state after an optional single action. */
  lemma ApplyOptional(k: Kernel, c: bool, a: Action)
    ensures ApplyAll(k, When(c, [a])) == if c then Apply(k, a) else k
  {
    if c {
      ApplyOne(k, a);
    }
  }

  /** Unwinding an unlocked session restores both toggles to the values read
      before (if any were overwritten), unlocks switching, and gives the
      terminal back to the one active before. */
  lemma TeardownRestores(k: Kernel, s: Session)
    requires !DetachedParent(s) && !s.locked
    ensures ApplyAll(k, TeardownActions(s)) == k.(
      sysrq := if s.oldsysrq > 0 then s.oldsysrq else k.sysrq,
      printk := if s.oldprintk > 1 then s.oldprintk else k.printk,
      switchLocked := false,
      vtHeld := false,
      active := s.oldvt)
  {
    var release := [FreeUsers, CloseStd] + When(s.oldprintk > 1, [WritePrintk(s.oldprintk)]);
    assert TeardownActions(s) == release + Unwind(s);
    ApplyAllAppend(k, release, Unwind(s));
    ReleaseEffect(k, s);
    UnwindEffect(k.(printk := if s.oldprintk > 1 then s.oldprintk else k.printk), s);
  }

  /** Freeing the users and closing the streams leave the kernel alone;
      printk gets back its value from before if it was overwritten. */
  lemma ReleaseEffect(k: Kernel, s: Session)
    ensures ApplyAll(k, [FreeUsers, CloseStd] + When(s.oldprintk > 1, [WritePrintk(s.oldprintk)]))
         == k.(printk := if s.oldprintk > 1 then s.oldprintk else k.printk)
  {
    var inert := [FreeUsers, CloseStd];
    InertLog(k, inert);
    ApplyAllAppend(k, inert, When(s.oldprintk > 1, [WritePrintk(s.oldprintk)]));
    ApplyOptional(k, s.oldprintk > 1, WritePrintk(s.oldprintk));
  }

  lemma UnwindEffect(k: Kernel, s: Session)
    ensures ApplyAll(k, Unwind(s)) == k.(
      sysrq := if s.oldsysrq > 0 then s.oldsysrq else k.sysrq,
      switchLocked := false,
      vtHeld := false,
      active := s.oldvt)
  {
    var sysrq := When(s.oldsysrq > 0, [WriteSysrq(s.oldsysrq)]);
    var reset := When(s.vt.fd >= 0, [VtReset]);
    var tail := [LockSwitch(0), VtRelease(s.oldvt), VtDestroy];
    var k1 := k.(sysrq := if s.oldsysrq > 0 then s.oldsysrq else k.sysrq);
    assert Unwind(s) == sysrq + (reset + tail);
    assert ApplyAll(k, sysrq + (reset + tail)) == ApplyAll(k1, reset + tail) by {
      ApplyAllAppend(k, sysrq, reset + tail);
      ApplyOptional(k, s.oldsysrq > 0, WriteSysrq(s.oldsysrq));
    }
    assert ApplyAll(k1, reset + tail) == ApplyAll(k1, tail) by {
      InertLog(k1, reset);
      ApplyAllAppend(k1, reset, tail);
    }
    UnwindTerminal(k1, s.oldvt);
  }

  lemma UnwindTerminal(k: Kernel, oldvt: int)
    ensures ApplyAll(k, [LockSwitch(0), VtRelease(oldvt), VtDestroy])
         == k.(switchLocked := false, vtHeld := false, active := oldvt)
  {
    var k1 := Apply(k, LockSwitch(0));
    var k2 := Apply(k1, VtRelease(oldvt));
    assert [LockSwitch(0), VtRelease(oldvt), VtDestroy][1..] == [VtRelease(oldvt), VtDestroy];
    assert [VtRelease(oldvt), VtDestroy][1..] == [VtDestroy];
    ApplyOne(k2, VtDestroy);
  }

  /** Cleanup of a process killed while still locked only restores printk:
      sysrq, the switch lock and the held terminal stay as they are. */
  lemma TeardownWhileLocked(k: Kernel, s: Session)
    requires !DetachedParent(s) && s.locked
    ensures ApplyAll(k, TeardownActions(s)) == k.(printk := if s.oldprintk > 1 then s.oldprintk else k.printk)
  {
    assert TeardownActions(s) == [FreeUsers, CloseStd] + When(s.oldprintk > 1, [WritePrintk(s.oldprintk)]);
    ReleaseEffect(k, s);
  }
}
