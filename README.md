# physlock main.c — a verified Dafny model

physlock locks every virtual console of a Linux machine. It acquires a
terminal of its own (`vt_acquire`), disables console switching, and waits
until the owner of the terminal that was active or root types a correct
password. On the way out it switches back to the terminal that was active
before. This project models the sequential
logic of its `main.c`. The process-wide globals (`buf`, `oldvt`, `vt`,
`oldsysrq`, `oldprintk`, `chpid`, `locked`) become the fields of the class
`Physlock.Process`. Every privileged call the program makes is recorded as
an `Effects.Action` in an effect log that the methods append to.

The model has five modules:

- `Auth` (auth.dfy) is the authentication-target state machine of the
  unlock loop. Each failed `authenticate` moves the pair (target, `try`) by
  the rule `!root_user && (u == &root || ++try == 3)`. The loop itself is
  `AwaitAuthentication`, fed by a sequence of oracle results.
- `LineReader` (line_reader.dfy) specifies what `prompt` reads from a
  stream. The stream is a sequence of `Read` items: a character, end of
  file, an interrupted read (`EINTR`), or a read error. The module defines
  the line the stream holds (`Line`) and the part `prompt` keeps in its
  1024-byte buffer (`Truncate`). One `Char` item stands for one byte
  returned by `fgetc`, so the 1023-character limit counts bytes, as in C.
- `Effects` (effects.dfy) holds the action log, the session snapshot that
  `cleanup` inspects, and `TeardownActions`, which lists exactly the calls
  `cleanup` makes in order. It also holds `Kernel`, an interpretation of
  the actions as changes to the machine's state: the sysrq and printk
  settings, the switch lock, the held terminal and the active terminal.
  The lemmas there show that the teardown restores what setup changed.
- `Physlock` (physlock.dfy) holds the class `Process`. Its methods are
  `Cleanup`, `Exit`, `Prompt` (filling the `buf` array in place) and `Run`
  (the body of `main`) with its parts. Each method is proved against a
  specification function (`TeardownActions`, `Truncate(Line(…))`,
  `Execution`).
- `Outcomes` (outcomes.dfy) proves whole-run theorems about `Execution`:
  - the exit status;
  - the administrative switch-lock mode;
  - no sentinel value is ever written back;
  - what the machine looks like after an unlock, after the process is
    killed while locked, and after a detached parent exits.

The external calls are parameters of the model. These are the calls in
`vt.c`, `auth.c` and `util.c`, plus `fork`, `authenticate` and the reads of
`/proc`. They appear as the record `Physlock.Env`: the values read, whether
each write or fork succeeded, and the sequence of authentication results.
A result sequence without a success means the process was killed (SIGTERM
or SIGQUIT) while the screen was locked. `sa_handler_exit` then calls
`exit(0)`, and `exit` runs the registered `cleanup`.

`cleanup` returns early while `locked` is still set. That is the case of a
process killed in the middle of authentication, and this early return
keeps the terminal locked. It does not mean "the lock was already
released"; it means the opposite. The model follows the code
(main.c:49-50).

## Model

| member | source | states |
|---|---|---|
| Auth.Initial | main.c:128-131 | The first target is root when the owner's name equals root's and the owner otherwise, with `try` 0 |
| Auth.AfterFailure | main.c:183-186 | After a failure: a root owner's state never changes; a failure on root switches to the owner with `try` 0; the third consecutive owner failure switches to root with `try` 0; any other owner failure increments `try` |
| Auth.StateAfter | main.c:128-188 | At every loop head `try` is in 0..2 and is 0 whenever the target is root; when the owner is root the state is always (root, 0) |
| Auth.FailureCycle | main.c:183-186 | For a non-root owner the state after n failures is (owner, n mod 4), except that every fourth state is (root, 0) |
| Auth.Targets | main.c:176-188 | One target per attempt made |
| Auth.TargetsPattern | main.c:176-188 | Attempt j goes to root exactly when the owner is root or j mod 4 == 3; otherwise it goes to the owner |
| Auth.Attempts | main.c:181-182 | The loop makes at most as many attempts as there are results; every attempt before the last failed; the last succeeded iff some result is a success; with no success every result is consumed |
| Auth.FirstSuccess | main.c:181-182 | The loop stops right after the first successful authentication |
| Auth.AwaitAuthentication | main.c:174-190 | The loop ends unlocked iff some authentication succeeds, and it tries the targets the state machine prescribes, in order |
| Auth.OwnerThenRootScenario | main.c:183-186 | Three owner failures followed by a success on root make four attempts: owner, owner, owner, root |
| LineReader.Terminator | main.c:84-86 | The index of the first newline, end of file or read error, which stops the read |
| LineReader.Line | main.c:83-89 | The characters `prompt` keeps from the stream when the buffer is large enough: the non-NUL characters up to the first newline, end of file or read error, with interrupted reads skipped |
| LineReader.LineIsKeptPrefix | main.c:83-89 | The line is the in-order sequence of non-NUL characters before the terminator |
| LineReader.LineExcludesBreaks | main.c:85-88 | The line never contains `'\n'` or `'\0'` |
| LineReader.SkipInterrupted | main.c:84 | Interrupted reads before the next real item are skipped without changing the line |
| LineReader.LineStep | main.c:83-89 | Reading one character before the terminator adds that character (unless NUL) to the line read so far |
| LineReader.GetChar | main.c:84 | Returns the first item that is not an interrupted read, or end of file when the stream runs out |
| LineReader.ReadStep | main.c:83-86 | One iteration of the read loop: either it consumes a character before the terminator and the line advances by it, or it stops at the terminator and reports a read error exactly when the terminator is one |
| LineReader.Truncate | main.c:87-88 | The buffer keeps at most 1023 characters, and they are a prefix of the line |
| LineReader.TruncateAppend | main.c:87-88 | A character is stored only while fewer than 1023 are kept; later ones are consumed but dropped |
| LineReader.Rest | main.c:83-86 | The stream left after the call starts just past the terminator |
| Physlock.Process.constructor | main.c:29-36 | The globals start zero-initialised: a fresh 1024-byte buffer filled with `'\0'`, the integers 0, both flags clear and an empty log |
| Physlock.Process.Cleanup | main.c:38-58 | The calls `cleanup` makes, in order and with both early returns, are exactly `TeardownActions` of the current globals; they are appended to the log and nothing else changes |
| Physlock.Process.Exit | main.c:133 | `exit(status)` returns the status and runs `cleanup` iff it has been registered |
| Physlock.Process.ReadLine | main.c:83-89 | The loop stores `Truncate(Line(input))` in `buf[..i]` with `i` < 1024, leaves `buf` beyond `i` untouched, reports a read error iff the terminator is one, and leaves the stream just past the terminator |
| Physlock.Process.Prompt | main.c:75-93 | The buffer holds the truncated line, which has no newline or NUL, and `buf[i] == '\0'` with `i` ≤ 1023; on a read error it fails before writing the terminator; nothing beyond `i` changes |
| Physlock.Execution | main.c:100-193 | The status and the calls of a whole run: `vt_init`, then the switch-lock mode when a switch-lock option is given and the locking mode otherwise |
| Physlock.AdminOutcome | main.c:119-124 | `vt_lock_switch(v)`; on failure exit with `EXIT_FAILURE`, otherwise `vt_destroy` and status 0, with no `cleanup` |
| Physlock.LockOutcome | main.c:126-147 | Look up the users, register `cleanup`, write the toggles; a failed write exits with `EXIT_FAILURE` through `cleanup`; otherwise `Locking`, then `cleanup` of the globals it leaves |
| Physlock.ToggleWrites | main.c:135-147 | sysrq 0 when sysrq is to be disabled and its value read is > 0; then, unless that write failed, printk 1 when messages are to be muted and its value read is > 1 |
| Physlock.ToggledSession | main.c:135-147 | The globals after the toggle setup: each saved value is the value read when its option is set (printk only when the sysrq write did not fail) and the sentinel -1 otherwise |
| Physlock.Securing | main.c:159-172 | In the child of a detached lock, `setsid` and `vt_reopen`; then, in every locking process, `vt_secure`, the redirection of fds 0-2 to the terminal, and the banner when a non-empty message is set |
| Physlock.Locking | main.c:149-192 | `vt_acquire` and `vt_lock_switch(1)`; a failed fork exits with `EXIT_FAILURE` and the parent returns 0; otherwise the child or the undetached process secures the terminal, shows the banner, and authenticates the prescribed targets until one succeeds, leaving `locked` set iff none did |
| Physlock.Process.Run | main.c:95-193 | The exit status and the calls logged are those of `Execution`; `cleanup` is registered iff not in switch-lock mode; `locked` stays set iff the process was killed while locked |
| Physlock.Process.SwitchLockOnly | main.c:119-124 | The switch-lock mode calls `vt_lock_switch(v)` and then, only if that succeeded, `vt_destroy`, returning 0 or `EXIT_FAILURE` |
| Physlock.Process.LockSession | main.c:126-193 | The lock path logs the user lookup, the toggle writes, the locking calls and then the teardown of the final globals, as `LockOutcome` says |
| Physlock.Process.DisableToggles | main.c:135-147 | sysrq is written to 0 only when its value read is > 0, and printk to 1 only when its value read is > 1; it fails iff one of those writes fails; the old values are saved |
| Physlock.Process.LockAndAuthenticate | main.c:149-192 | Acquires the terminal and locks switching; then the detached parent returns or the failed fork exits; otherwise it secures the terminal, shows the banner if one is set, and runs the authentication loop with `locked` set, clearing `locked` after a success |
| Effects.TeardownActions | main.c:38-50 | The calls `cleanup` makes from a snapshot of the globals: none in the parent of a successful fork; otherwise free the users, close fds 0-2, restore printk when its saved value is > 1, and, unless `locked` is set, `Unwind` |
| Effects.Unwind | main.c:51-57 | The rest of `cleanup`: restore sysrq when its saved value is > 0, `vt_reset` when `vt.fd >= 0`, then `vt_lock_switch(0)`, `vt_release(oldvt)` and `vt_destroy` |
| Effects.TeardownOrder | main.c:38-50 | A detached parent does nothing; otherwise the first calls free the users and close fds 0-2; printk is restored iff its saved value is > 1; while locked, nothing else happens |
| Effects.TeardownUnwindOrder | main.c:51-57 | When not locked: sysrq is restored iff its saved value is > 0, `vt_reset` happens iff `vt.fd >= 0`, and the last three calls are `vt_lock_switch(0)`, `vt_release(oldvt)` and `vt_destroy` |
| Effects.TeardownWritesNoSentinel | main.c:47-52 | Teardown writes back only saved values above their threshold, so never the -1 "not read" sentinel |
| Effects.TeardownRestores | main.c:47-57 | A full teardown restores the saved sysrq and printk, unlocks switching, releases the terminal and makes the old terminal active |
| Effects.TeardownWhileLocked | main.c:42-50 | A teardown while locked restores only printk; the switch lock and the held terminal stay |
| Outcomes.AttemptedInOrder | main.c:176-188 | The log holds one `authenticate` call per attempt, on the prescribed target, in order |
| Outcomes.ExitStatus | main.c:119-193 | The status is 0 or `EXIT_FAILURE`; it is 0 iff the switch-lock call succeeds (switch-lock mode) or the toggle writes and the fork succeed (lock mode) |
| Outcomes.AdminMode | main.c:119-124 | The switch-lock mode makes no call other than `vt_init`, `vt_lock_switch(v)` and `vt_destroy`, and it starts with the first two; on success only the switch lock changes |
| Outcomes.NoSentinelWritten | main.c:100 | Over a whole run, sysrq is written only when its option is set and its value read is > 0, and then only with 0 or that value; printk only when its option is set, its value read is > 1 and the sysrq write did not fail, and then only with 1 or that value; so the -1 sentinel is never written |
| Outcomes.DisablingWrites | main.c:135-147 | In the locking mode sysrq 0 is written iff sysrq is to be disabled and its value read is > 0, and printk 1 iff messages are to be muted, its value read is > 1 and the sysrq write did not fail |
| Outcomes.UnlockedExitRestores | main.c:174-193 | On every lock-mode exit except a detached parent's and a kill while locked (a successful unlock, a failed toggle write, a failed fork), the machine ends as it started: sysrq, printk and the active terminal are restored, switching is unlocked and no terminal is held |
| Outcomes.KilledWhileLockedKeepsLock | main.c:49-50 | A process killed while locked exits with 0 and leaves switching locked and the terminal held; printk is restored and sysrq stays disabled |
| Outcomes.DetachedParentLeavesLock | main.c:152-157 | The parent of a successful fork exits with 0 and undoes nothing: the toggles stay disabled and the terminal stays locked |

## Left out

- Signal handling (main.c:60-73, 109-114): the handlers are not modelled. Only `sa_handler_exit` calling `exit(0)` while the unlock loop runs is modelled, as an oracle sequence of authentication results that has no success. A SIGTERM or SIGQUIT before `locked = 1` (main.c:174) or during `cleanup`'s own unwind is not modelled.
- Exits from inside external calls: the model assumes every external call returns. `vt_init`, `vt_get_current`, `get_user`, `get_user_by_id`, `vt_acquire`, `vt_secure` and `authenticate` can call `error(EXIT_FAILURE, …)` in files that are not part of this model. The same holds for `prompt`'s own `error` call (main.c:90-91): `prompt` is called from outside main.c, and if it runs inside `authenticate`, the process exits with status 1 while `locked` is still set and keeps the lock. `Outcomes.ExitStatus`, `Outcomes.UnlockedExitRestores` and the other whole-run theorems cover only the exits the model has: a failed switch-lock call, a failed toggle write, a failed fork, the detached parent's return, an unlock, and a signal during the unlock loop.
- The `geteuid` check, `error_init` and `parse_options` (main.c:103-107): the options are a parameter (`Physlock.Options`).
- `vt.c`, `auth.c`, `util.c` and the user lookups are not part of this model. Their calls are logged actions, and their results are oracle values in `Physlock.Env`. How `Effects.Kernel` interprets `vt_acquire`, `vt_lock_switch` and `vt_release` is an assumption about `vt.c`.
- fork, setsid and sleep (main.c:152-163): the fork is an oracle pid. The parent and child are not modelled as two processes.
- `vt_reopen` (main.c:161) is logged, but the model does not change `vt.fd` by it. The teardown's `vt.fd >= 0` test reads the value `vt_acquire` produced.
- The messages written to the terminal are not logged: the root-name prefix, "Authentication failed", and `prompt`'s `vfprintf` (main.c:80, 178-179, 187). The banner (main.c:170-172) and the `dup2` redirections are logged as single actions.
- `Physlock.Process.Prompt`: a read error ends the call with `ok` false. The `error(EXIT_FAILURE, …)` it leads to is not modelled. Nor is glibc setting the stream's error flag after an interrupted read. A stale `errno` equal to `EINTR` at a real end of file would loop forever in C; the model treats that end of file as final.
- `Physlock.Process.Run`: `authenticate` is an oracle, so `Run` does not call `Prompt`. `Prompt` is modelled and proved on its own.
- Errors of the writes `cleanup` makes are ignored, as in the source. `Effects.Kernel` applies every logged write.
- The unchecked switch-lock calls: main.c:150 calls `vt_lock_switch(1)` and main.c:55 calls `vt_lock_switch(0)`, and neither checks the result. If either fails in C, switching is not locked, or stays locked. `Effects.Kernel` assumes both calls succeed; only the administrative call of main.c:120, whose result is checked, has an oracle (`Env.lockSwitchOk`). "Switching stays locked" in `Outcomes.KilledWhileLockedKeepsLock`, "the terminal stays locked" in `Outcomes.DetachedParentLeavesLock` and "switching is unlocked" in `Outcomes.UnlockedExitRestores` hold under that assumption.
- `Effects.Session` (the snapshot `cleanup` reads) does not include the user records. `free_user` is logged only as an action.
- `Outcomes.AdminMode`: the kernel effect is stated only when the switch-lock call succeeds. When it fails, the log is stated but the kernel is not.
- Integer widths: sysrq and printk values and pids are unbounded integers. The source reads them as C `int` and never does arithmetic on them.
