/**
 * The authentication-target state machine of physlock's main loop.
 *
 * The loop authenticates either the owner of the locked terminal or root.
 * `u` points at the current target and `try` counts consecutive failures
 * against the owner. After every failed attempt the C condition
 *
 *     !root_user && (u == &root || ++try == 3)
 *
 * decides whether to swap the target and reset the counter. Because `||`
 * short-circuits, `try` is incremented only when the owner failed.
 */
module Auth {

  /** The identity `u` points at: `&user` (the terminal owner) or `&root`. */
  datatype Target = Owner | Root

  function Other(t: Target): Target
  {
    if t == Root then Owner else Root
  }

  /** The loop state: the target `u` and the failure counter `try`. */
  datatype AuthState = AuthState(target: Target, try: int)

  /** The state at the loop head before the first attempt. When the owner's
      name equals root's, `u` starts at `&root`. */
  function Initial(rootUser: bool): AuthState
  {
    AuthState(if rootUser then Root else Owner, 0)
  }

  /** The state after one failed attempt, evaluating the C condition with its
      short-circuit: `++try` happens only for a non-root owner's failure. */
  function AfterFailure(rootUser: bool, s: AuthState): (r: AuthState)
    ensures rootUser ==> r == s
    ensures !rootUser && s.target == Root ==> r == AuthState(Owner, 0)
    ensures !rootUser && s.target == Owner && s.try == 2 ==> r == AuthState(Root, 0)
    ensures !rootUser && s.target == Owner && s.try != 2 ==> r == AuthState(Owner, s.try + 1)
  {
    var try := if !rootUser && s.target == Owner then s.try + 1 else s.try;
    if !rootUser && (s.target == Root || try == 3) then AuthState(Other(s.target), 0)
    else AuthState(s.target, try)
  }

  /** The state at the loop head after `n` failed attempts. */
  function StateAfter(rootUser: bool, n: nat): (s: AuthState)
    ensures 0 <= s.try <= 2
    ensures s.target == Root ==> s.try == 0
    ensures rootUser ==> s == AuthState(Root, 0)
  {
    if n == 0 then Initial(rootUser) else AfterFailure(rootUser, StateAfter(rootUser, n - 1))
  }

  /** For an ordinary owner the targets cycle with period four: three owner
      attempts, then one root attempt, then back to the owner with `try` = 0. */
  lemma {:induction false} FailureCycle(n: nat)
    ensures StateAfter(false, n) == if n % 4 == 3 then AuthState(Root, 0) else AuthState(Owner, n % 4)
  {
    if n > 0 {
      FailureCycle(n - 1);
    }
  }

  /** The targets of the first `n` attempts, in order. */
  function Targets(rootUser: bool, n: nat): (ts: seq<Target>)
    ensures |ts| == n
  {
    if n == 0 then [] else Targets(rootUser, n - 1) + [StateAfter(rootUser, n - 1).target]
  }

  /** Which identity each attempt addressed: only root when the owner is root,
      otherwise every fourth attempt goes to root and the rest to the owner. */
  lemma {:induction false} TargetsPattern(rootUser: bool, n: nat, j: nat)
    requires j < n
    ensures |Targets(rootUser, n)| == n
    ensures Targets(rootUser, n)[j] == if rootUser || j % 4 == 3 then Root else Owner
  {
    if j < n - 1 {
      TargetsPattern(rootUser, n - 1, j);
    } else {
      if n > 1 {
        TargetsPattern(rootUser, n - 1, 0);
      }
      if !rootUser {
        FailureCycle(j);
      }
    }
  }

  /** The number of attempts the loop makes given the oracle's answers: up to
      and including the first success, or all of them if none succeeds. */
  function Attempts(results: seq<bool>): (n: nat)
    ensures n <= |results|
    ensures forall j :: 0 <= j < n - 1 ==> !results[j]
    ensures (true in results) <==> 0 < n && results[n - 1]
    ensures !(true in results) ==> n == |results|
  {
    if results == [] then 0
    else if results[0] then 1
    else 1 + Attempts(results[1..])
  }

  /** The loop stops at the first success. */
  lemma {:induction false} FirstSuccess(results: seq<bool>, k: nat)
    requires k < |results| && results[k]
    requires forall j :: 0 <= j < k ==> !results[j]
    ensures Attempts(results) == k + 1
  {
    if k > 0 {
      FirstSuccess(results[1..], k - 1);
    }
  }

  /**
   * The `for(;;)` loop of main. `results[k]` is what the k-th call to
   * `authenticate` reports (true for success, i.e. a return value of 0).
   * The loop leaves only on success; if the answers run out first, the
   * process is still inside the loop when it is killed.
   */
  method AwaitAuthentication(rootUser: bool, results: seq<bool>) returns (tried: seq<Target>, unlocked: bool)
    ensures unlocked <==> true in results
    ensures |tried| == Attempts(results)
    ensures tried == Targets(rootUser, Attempts(results))
  {
    var u := if rootUser then Root else Owner;
    var try := 0;
    var k := 0;
    tried := [];
    while k < |results|
      invariant 0 <= k <= |results|
      invariant AuthState(u, try) == StateAfter(rootUser, k)
      invariant tried == Targets(rootUser, k)
      invariant forall j :: 0 <= j < k ==> !results[j]
    {
      tried := tried + [u];
      if results[k] {
        FirstSuccess(results, k);
        unlocked := true;
        return;
      }
      ghost var before := AuthState(u, try);
      var swap := false;
      if !rootUser {
        if u == Root {
          swap := true;
        } else {
          try := try + 1;
          swap := try == 3;
        }
      }
      if swap {
        u := Other(u);
        try := 0;
      }
      assert AuthState(u, try) == AfterFailure(rootUser, before);
      k := k + 1;
    }
    assert !(true in results);
    unlocked := false;
  }

  /** A regular user's terminal: three wrong owner passwords, then root's
      correct one. The target flips to root after the third failure and the
      fourth attempt succeeds. */
  lemma {:induction false} OwnerThenRootScenario()
    ensures Attempts([false, false, false, true]) == 4
    ensures Targets(false, 4) == [Owner, Owner, Owner, Root]
  {
    assert StateAfter(false, 3) == AuthState(Root, 0) by { FailureCycle(3); }
  }
}
