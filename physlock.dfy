/**
 * physlock's main.c: the process-wide globals, `cleanup`, `prompt` and
 * `main`. Calls into code outside main.c are oracles given by `Env` and are
 * recorded in the effect log; the consequences for the kernel state are in
 * the theorems at the end.
 */
module Physlock {
  import opened Auth
  import opened LineReader
  import opened Effects

  const ExitFailure: int := 1

  /** The fields of `options` that main.c reads. `lockSwitch` is -1 unless
      the administrative "only toggle the switch lock" mode was asked for. */
  datatype Options = Options(
    detach: bool,
    disableSysrq: bool,
    lockSwitch: int,
    muteKernelMessages: bool,
    prompt: string)

  /** What the external calls report during one run. */
  datatype Env = Env(
    currentVt: int,         // the terminal vt_get_current reports
    ownerIsRoot: bool,      // strcmp(user.name, root.name) == 0
    lockSwitchOk: bool,     // vt_lock_switch(options->lock_switch) != -1
    sysrqRead: int,         // read_int_from_file(SYSRQ_PATH, '\n')
    sysrqWriteOk: bool,     // write_int_to_file(SYSRQ_PATH, 0) != -1
    printkRead: int,        // read_int_from_file(PRINTK_PATH, '\t')
    printkWriteOk: bool,    // write_int_to_file(PRINTK_PATH, 1) != -1
    acquired: Vt,           // vt after vt_acquire
    forkPid: int,           // what fork returns
    auth: seq<bool>)        // the successive results of authenticate

  /** The exit status of the process and the effects it had, cleanup included. */
  datatype Outcome = Outcome(code: int, log: seq<Action>)

  // The exit paths of a run in the normal (locking) mode.

  predicate SysrqWriteFails(o: Options, e: Env)
  {
    o.disableSysrq && e.sysrqRead > 0 && !e.sysrqWriteOk
  }

  predicate PrintkWriteFails(o: Options, e: Env)
  {
    o.muteKernelMessages && e.printkRead > 1 && !e.printkWriteOk
  }

  predicate TogglesSet(o: Options, e: Env)
  {
    !SysrqWriteFails(o, e) && !PrintkWriteFails(o, e)
  }

  predicate ForkFails(o: Options, e: Env)
  {
    TogglesSet(o, e) && o.detach && e.forkPid < 0
  }

  predicate ParentExits(o: Options, e: Env)
  {
    TogglesSet(o, e) && o.detach && e.forkPid > 0
  }

  /** The run reaches `locked = 1` and the authentication loop. */
  predicate Locks(o: Options, e: Env)
  {
    TogglesSet(o, e) && (!o.detach || e.forkPid == 0)
  }

  /** No attempt succeeds: the process is killed by a signal while locked. */
  predicate KilledWhileLocked(o: Options, e: Env)
  {
    Locks(o, e) && !(true in e.auth)
  }

  /** One `Authenticate` action per attempt, in order. */
  function Attempted(targets: seq<Target>): seq<Action>
  {
    if targets == [] then [] else [Authenticate(targets[0])] + Attempted(targets[1..])
  }

  /** The toggle writes of main.c:135-147, stopping at the first that fails. */
  function ToggleWrites(o: Options, e: Env): seq<Action>
  {
    When(o.disableSysrq && e.sysrqRead > 0, [WriteSysrq(0)])
    + When(!SysrqWriteFails(o, e) && o.muteKernelMessages && e.printkRead > 1, [WritePrintk(1)])
  }

  /** The globals after the toggle setup: the sentinel -1 (main.c:100) stays
      in each toggle that was not read. */
  function ToggledSession(o: Options, e: Env): Session
  {
    Session(o.detach, 0, e.currentVt, Vt(-1, -1),
      if o.disableSysrq then e.sysrqRead else -1,
      if o.muteKernelMessages && !SysrqWriteFails(o, e) then e.printkRead else -1,
      false)
  }

  /** Where main.c:149-192 stops: the exit status, the actions up to that
      point, and the globals that `cleanup` then sees. */
  datatype Stop = Stop(code: int, log: seq<Action>, session: Session)

  /** main.c:159-172: detach in the child, secure the terminal, redirect the
      standard streams to it and show the optional message. */
  function Securing(o: Options): seq<Action>
  {
    When(o.detach, [Setsid, VtReopen]) + [VtSecure, RedirectStd] + When(|o.prompt| > 0, [Banner(o.prompt)])
  }

  /** main.c:149-192 from the globals `s`, up to the exit. */
  function Locking(o: Options, e: Env, s: Session): Stop
  {
    var s3 := s.(vt := e.acquired, chpid := if o.detach then e.forkPid else 0);
    var l3 := [VtAcquire(e.acquired.nr), LockSwitch(1)];
    if o.detach && e.forkPid != 0 then
      Stop(if e.forkPid < 0 then ExitFailure else 0, l3, s3)
    else
      Stop(0, l3 + Securing(o) + Attempted(Targets(e.ownerIsRoot, Attempts(e.auth))), s3.(locked := !(true in e.auth)))
  }

  /** main.c:119-124: with `-l` or `-L` only the switch lock is toggled. */
  function AdminOutcome(o: Options, e: Env): Outcome
  {
    if e.lockSwitchOk then Outcome(0, [LockSwitch(o.lockSwitch), VtDestroy])
    else Outcome(ExitFailure, [LockSwitch(o.lockSwitch)])
  }

  /** main.c:126-193: look up the users, register `cleanup`, disable the
      toggles, lock and authenticate, up to process exit. */
  function LockOutcome(o: Options, e: Env): Outcome
  {
    var pre := [LookupUsers] + ToggleWrites(o, e);
    if !TogglesSet(o, e) then Outcome(ExitFailure, pre + TeardownActions(ToggledSession(o, e)))
    else
      var stop := Locking(o, e, ToggledSession(o, e));
      Outcome(stop.code, pre + stop.log + TeardownActions(stop.session))
  }

  /** The whole run of main, from the sentinels of main.c:100 to process exit,
      including the `cleanup` that `exit` runs once it is registered. */
  function Execution(o: Options, e: Env): Outcome
  {
    var r := if o.lockSwitch != -1 then AdminOutcome(o, e) else LockOutcome(o, e);
    Outcome(r.code, [VtInit] + r.log)
  }

  /** The static variables of main.c, and what the process did so far. */
  class Process {
    var buf: array<char>
    var options: Options
    var oldvt: int
    var vt: Vt
    var oldsysrq: int
    var oldprintk: int
    var chpid: int
    var locked: bool
    var cleanupRegistered: bool   // atexit(cleanup) was called
    var log: seq<Action>

    /** Program start: static storage is zero-initialised. */
    constructor ()
      ensures fresh(buf) && buf.Length == BufSize
      ensures forall j :: 0 <= j < buf.Length ==> buf[j] == '\0'
      ensures oldvt == 0 && vt == Vt(0, 0) && oldsysrq == 0 && oldprintk == 0
      ensures chpid == 0 && !locked && !cleanupRegistered && log == []
    {
      buf := new char[BufSize](_ => '\0');
      options := Options(false, false, -1, false, "");
      oldvt, vt, oldsysrq, oldprintk := 0, Vt(0, 0), 0, 0;
      chpid, locked, cleanupRegistered := 0, false, false;
      log := [];
    }

    /** The globals that `cleanup` inspects. */
    function Snapshot(): Session
      reads this`options, this`chpid, this`oldvt, this`vt, this`oldsysrq, this`oldprintk, this`locked
    {
      Session(options.detach, chpid, oldvt, vt, oldsysrq, oldprintk, locked)
    }

    /** `cleanup`, as registered with `atexit`: the calls are collected in
        order, each early `return` of main.c:39-41 and main.c:49-50 ending
        the collection, and then appended to the log. */
    method Cleanup()
      modifies this`log
      ensures log == old(log) + TeardownActions(Snapshot())
    {
      var acts: seq<Action> := [];
      if !(options.detach && chpid > 0) {
        acts := [FreeUsers, CloseStd];
        if oldprintk > 1 {
          acts := acts + [WritePrintk(oldprintk)];
        }
        assert acts == [FreeUsers, CloseStd] + When(oldprintk > 1, [WritePrintk(oldprintk)]);
        if !locked {
          ghost var release := acts;
          if oldsysrq > 0 {
            acts := acts + [WriteSysrq(oldsysrq)];
          }
          assert acts == release + When(oldsysrq > 0, [WriteSysrq(oldsysrq)]);
          ghost var step := acts;
          if vt.fd >= 0 {
            acts := acts + [VtReset];
          }
          assert acts == step + When(vt.fd >= 0, [VtReset]);
          Associate(release, When(oldsysrq > 0, [WriteSysrq(oldsysrq)]), When(vt.fd >= 0, [VtReset]));
          step := acts;
          acts := acts + [LockSwitch(0)];
          acts := acts + [VtRelease(oldvt)];
          acts := acts + [VtDestroy];
          assert acts == step + [LockSwitch(0), VtRelease(oldvt), VtDestroy];
          Associate(release, When(oldsysrq > 0, [WriteSysrq(oldsysrq)]) + When(vt.fd >= 0, [VtReset]), [LockSwitch(0), VtRelease(oldvt), VtDestroy]);
        }
      }
      assert acts == TeardownActions(Snapshot());
      log := log + acts;
    }

    /** `exit(status)`, which runs `cleanup` once it has been registered. */
    method Exit(status: int) returns (code: int)
      modifies this`log
      ensures code == status
      ensures log == old(log) + (if cleanupRegistered then TeardownActions(Snapshot()) else [])
    {
      if cleanupRegistered {
        Cleanup();
      }
      code := status;
    }

    /**
     * The loop of `prompt`: reads until a newline, end of file or failure,
     * storing each non-NUL character while the buffer has room for it and
     * the terminator, and reading on past the buffer's capacity. `c` is the
     * read that ended the line.
     */
    method ReadLine(input: seq<Read>) returns (c: Read, i: nat, rest: seq<Read>)
      requires buf.Length == BufSize
      modifies buf
      ensures i < BufSize
      ensures buf[..i] == Truncate(Line(input))
      ensures forall j :: i <= j < BufSize ==> buf[j] == old(buf[j])
      ensures c.Failed? <==> Terminator(input) < |input| && input[Terminator(input)].Failed?
      ensures rest == Rest(input)
    {
      var b := buf;
      i := 0;
      var k := 0;
      ghost var seen: seq<char> := [];
      while true
        invariant 0 <= k <= Terminator(input)
        invariant Line(input) == seen + Line(input[k..])
        invariant i < BufSize
        invariant b[..i] == Truncate(seen)
        invariant forall j :: i <= j < BufSize ==> b[j] == old(b[j])
        decreases |input| - k
      {
        var next;
        c, next := GetChar(input, k);
        ReadStep(input, k, c, next);
        if Ends(c) {
          assert Line(input) == seen;
          rest := input[next..];
          return;
        }
        assert Line(input) == (seen + KeptOf(c)) + Line(input[next..]) by {
          assert Line(input[k..]) == KeptOf(c) + Line(input[next..]);
        }
        k := next;
        TruncateAppend(seen, KeptOf(c));
        if c.c != '\0' && i + 1 < BufSize {
          ghost var stored := b[..i];
          b[i] := c.c;
          assert b[..i + 1] == stored + [c.c];
          i := i + 1;
        }
        seen := seen + KeptOf(c);
      }
    }

    /**
     * `prompt`: reads one line from the console into `buf`. On a read
     * failure (`ferror`) it stops with `ok` false before writing the
     * terminator; main.c then exits through `error`.
     */
    method Prompt(input: seq<Read>) returns (ok: bool, i: nat, rest: seq<Read>)
      requires buf.Length == BufSize
      modifies buf
      ensures i < BufSize
      ensures buf[..i] == Truncate(Line(input))
      ensures forall j :: 0 <= j < i ==> buf[j] != '\n' && buf[j] != '\0'
      ensures ok <==> !(Terminator(input) < |input| && input[Terminator(input)].Failed?)
      ensures ok ==> buf[i] == '\0'
      ensures forall j :: i < j < BufSize ==> buf[j] == old(buf[j])
      ensures !ok ==> buf[i] == old(buf[i])
      ensures rest == Rest(input)
    {
      var c;
      c, i, rest := ReadLine(input);
      assert forall j :: 0 <= j < i ==> buf[j] == Line(input)[j] by {
        assert forall j :: 0 <= j < i ==> buf[j] == buf[..i][j];
      }
      LineExcludesBreaks(input);
      ok := !c.Failed?;
      if !ok {
        return;
      }
      ghost var line := buf[..i];
      buf[i] := '\0';
      assert buf[..i] == line;
    }

    /**
     * `main` after option parsing and the privilege check. `Execution`
     * states the log and exit status of every path.
     */
    method Run(o: Options, e: Env) returns (code: int)
      requires chpid == 0 && !locked && !cleanupRegistered
      modifies this
      ensures code == Execution(o, e).code
      ensures log == old(log) + Execution(o, e).log
      ensures cleanupRegistered <==> o.lockSwitch == -1
      ensures locked <==> o.lockSwitch == -1 && KilledWhileLocked(o, e)
      ensures buf == old(buf)
    {
      ghost var start := log;
      oldvt, oldsysrq, oldprintk, vt := -1, -1, -1, Vt(-1, -1);
      options := o;
      log := log + [VtInit];
      oldvt := e.currentVt;
      ghost var r := if o.lockSwitch != -1 then AdminOutcome(o, e) else LockOutcome(o, e);
      if o.lockSwitch != -1 {
        code := SwitchLockOnly(o, e);
      } else {
        code := LockSession(o, e);
      }
      Associate(start, [VtInit], r.log);
    }

    /** main.c:119-124: toggle the switch lock and exit, without `cleanup`. */
    method SwitchLockOnly(o: Options, e: Env) returns (code: int)
      requires !cleanupRegistered
      modifies this`log
      ensures code == AdminOutcome(o, e).code
      ensures log == old(log) + AdminOutcome(o, e).log
    {
      log := log + [LockSwitch(o.lockSwitch)];
      if !e.lockSwitchOk {
        code := Exit(ExitFailure);
        return;
      }
      log := log + [VtDestroy];
      code := Exit(0);
    }

    /** main.c:126-193, from the user lookup to process exit. */
    method LockSession(o: Options, e: Env) returns (code: int)
      requires options == o && chpid == 0 && !locked && !cleanupRegistered
      requires oldvt == e.currentVt && oldsysrq == -1 && oldprintk == -1 && vt == Vt(-1, -1)
      modifies this`log, this`cleanupRegistered, this`oldsysrq, this`oldprintk, this`vt, this`chpid, this`locked
      ensures code == LockOutcome(o, e).code
      ensures log == old(log) + LockOutcome(o, e).log
      ensures cleanupRegistered
      ensures locked <==> KilledWhileLocked(o, e)
    {
      ghost var start := log;
      log := log + [LookupUsers];
      var rootUser := e.ownerIsRoot;
      cleanupRegistered := true;
      var failed := DisableToggles(o, e);
      ghost var pre := [LookupUsers] + ToggleWrites(o, e);
      Associate(start, [LookupUsers], ToggleWrites(o, e));
      assert Snapshot() == ToggledSession(o, e);
      if failed {
        code := Exit(ExitFailure);
        Associate(start, pre, TeardownActions(ToggledSession(o, e)));
        return;
      }
      ghost var stop := Locking(o, e, ToggledSession(o, e));
      var status := LockAndAuthenticate(o, e, rootUser);
      Associate(start, pre, stop.log);
      code := Exit(status);
      Associate(start, pre + stop.log, TeardownActions(stop.session));
    }

    /** main.c:135-147: read each toggle that is to be disabled and overwrite
        it only above its threshold; a failed write means exit(EXIT_FAILURE). */
    method DisableToggles(o: Options, e: Env) returns (failed: bool)
      requires options == o && oldsysrq == -1 && oldprintk == -1
      modifies this`oldsysrq, this`oldprintk, this`log
      ensures failed <==> !TogglesSet(o, e)
      ensures oldsysrq == ToggledSession(o, e).oldsysrq
      ensures oldprintk == ToggledSession(o, e).oldprintk
      ensures log == old(log) + ToggleWrites(o, e)
    {
      failed := false;
      if o.disableSysrq {
        oldsysrq := e.sysrqRead;
        if oldsysrq > 0 {
          log := log + [WriteSysrq(0)];
          if !e.sysrqWriteOk {
            failed := true;
            return;
          }
        }
      }

      if o.muteKernelMessages {
        oldprintk := e.printkRead;
        if oldprintk > 1 {
          log := log + [WritePrintk(1)];
          if !e.printkWriteOk {
            failed := true;
            return;
          }
        }
      }
    }

    /** main.c:149-192: acquire the terminal, lock switching, optionally
        detach, secure the terminal and run the authentication loop, up to
        the point where the process exits with `status`. */
    method LockAndAuthenticate(o: Options, e: Env, rootUser: bool) returns (status: int)
      requires rootUser == e.ownerIsRoot && options == o && TogglesSet(o, e)
      requires Snapshot() == ToggledSession(o, e)
      modifies this`vt, this`chpid, this`locked, this`log
      ensures status == Locking(o, e, old(Snapshot())).code
      ensures log == old(log) + Locking(o, e, old(Snapshot())).log
      ensures Snapshot() == Locking(o, e, old(Snapshot())).session
    {
      vt := e.acquired;
      var acts := [VtAcquire(vt.nr), LockSwitch(1)];
      if o.detach {
        chpid := e.forkPid;
        if chpid < 0 {
          // error(EXIT_FAILURE, errno, "fork")
          log := log + acts;
          return ExitFailure;
        } else if chpid > 0 {
          // the parent returns from main
          log := log + acts;
          return 0;
        }
      }
      ghost var held := acts;
      if o.detach {
        acts := acts + [Setsid, VtReopen];
      }
      assert acts == held + When(o.detach, [Setsid, VtReopen]);
      acts := acts + [VtSecure, RedirectStd];
      ghost var step := acts;
      if |o.prompt| > 0 {
        acts := acts + [Banner(o.prompt)];
      }
      assert acts == step + When(|o.prompt| > 0, [Banner(o.prompt)]);
      assert acts == held + Securing(o);

      locked := true;
      var tried, unlocked := AwaitAuthentication(rootUser, e.auth);
      acts := acts + Attempted(tried);
      log := log + acts;
      if !unlocked {
        // SIGTERM or SIGQUIT during the loop: sa_handler_exit calls exit(0)
        return 0;
      }
      locked := false;
      return 0;
    }
  }

  lemma Associate(a: seq<Action>, b: seq<Action>, c: seq<Action>)
    ensures a + b + c == a + (b + c)
  {
  }
}
