/** Control flow of `boot` (app/vzgot.c:1357-1578): which phase body runs after which, and with what status.

    `After` is the control graph: one step is one phase body.  The method `Boot` is the C loop itself, with
    its phase counter, its TOOBAD and REBOOT jumps and its `phase=999` escape.  The kernel calls and scripts of
    a body are represented by an `Outcome`, so a run is fixed by an oracle `nat -> Outcome` that is asked once
    per executed body, and a statement about every oracle and every index is about every run. */
module BootPhases {
  import opened Options

  /** What the calls of one body reported: `ok` when none of them made the body jump, `attend` the value that
      `cont_attend` returned (read by body 13 only). */
  datatype Outcome = Outcome(ok: bool, attend: int)

  /** Where the supervisor is between two bodies. */
  datatype Control = Run(body: nat, status: int) | Halt(status: int)

  const Start := Run(0, 0)

  /** The bodies that jump to TOOBAD when one of their calls fails. */
  predicate JumpsOnFailure(body: nat) {
    body == 0 || 2 <= body <= 9 || body == 11 || body == 14
  }

  function After(c: Control, o: Outcome): Control
    requires c.Run?
  {
    if JumpsOnFailure(c.body) then
      Run(if o.ok then c.body + 1 else 16, c.status)
    else if c.body == 1 then
      if o.ok then Run(2, c.status) else Halt(1)
    else if c.body == 13 then
      Run(14, o.attend)
    else if c.body == 18 then
      if o.ok then Run(19, c.status) else Halt(c.status)
    else if c.body == 19 then
      if c.status == 1 then Run(2, 1) else Run(20, if c.status == 2 then 0 else c.status)
    else if c.body < 21 then
      Run(c.body + 1, c.status)
    else
      Halt(c.status)
  }

  /** The control state once `n` bodies have run. */
  function At(o: nat -> Outcome, n: nat): (c: Control)
    ensures c.Run? ==> c.body <= 21
  {
    if n == 0 then Start
    else
      var c := At(o, n - 1);
      if c.Halt? then c else After(c, o(n - 1))
  }

  predicate Runs(o: nat -> Outcome, n: nat, body: nat) {
    var c := At(o, n);
    c.Run? && c.body == body
  }

  /** The value returned by the latest `cont_attend` among the first `n` bodies. */
  function LatestAttend(o: nat -> Outcome, n: nat): Option<int> {
    if n == 0 then None
    else if Runs(o, n - 1, 13) then Some(o(n - 1).attend)
    else LatestAttend(o, n - 1)
  }

  // ----- the C loop

  /** The phase loop.  `limit` only says how long the run is observed: a rebooting supervisor need not stop. */
  method Boot(o: nat -> Outcome, limit: nat) returns (status: int, trace: seq<nat>, finished: bool)
    ensures forall k :: 0 <= k < |trace| ==> Runs(o, k, trace[k])
    ensures finished ==> At(o, |trace|) == Halt(status)
    ensures !finished ==> At(o, |trace|).Run? && At(o, |trace|).status == status && |trace| >= limit
  {
    status := 0;
    trace := [];
    var phase := 0;
    var proceed := true;
    while proceed && |trace| < limit
      invariant forall k :: 0 <= k < |trace| ==> Runs(o, k, trace[k])
      invariant proceed && phase <= 21 ==> At(o, |trace|) == Run(phase, status)
      invariant !proceed || phase > 21 ==> At(o, |trace|) == Halt(status)
      decreases proceed, if phase > 21 then 0 else 1, limit - |trace|
    {
      assert proceed && phase <= 21 ==> Runs(o, |trace|, phase);
      if phase > 21 {                                  // default: SAFE Guard
        proceed := false;
      } else if phase == 19 {
        trace := trace + [19];
        if status == 1 {                               // goto REBOOT, which falls into case 2
          assert Runs(o, |trace|, 2);
          var out := o(|trace|);
          trace := trace + [2];
          phase := 2;
          if !out.ok {
            assert Runs(o, |trace|, 16);
            trace := trace + [16];                     // TOOBAD sets the phase and falls into case 16
            phase := 16;
          }
        } else if status == 2 {
          status := 0;
        }
      } else {
        var out := o(|trace|);
        trace := trace + [phase];
        if JumpsOnFailure(phase) && !out.ok {
          assert Runs(o, |trace|, 16);
          trace := trace + [16];
          phase := 16;
        } else if phase == 1 && !out.ok {
          status := phase;
          proceed := false;
        } else if phase == 13 {
          status := out.attend;
        } else if phase == 18 && !out.ok {
          phase := 999;
        }
      }
      phase := phase + 1;
    }
    finished := At(o, |trace|).Halt?;
  }

  // ----- which body follows which

  /** The bodies written out, when none of their calls fails: each is followed by the next one, but 19 by 2 again
      when the container asked for a reboot. */
  lemma AfterSuccess(o: nat -> Outcome, n: nat, body: nat)
    requires Runs(o, n, body) && body <= 20 && o(n).ok
    ensures Runs(o, n + 1, if body == 19 && At(o, n).status == 1 then 2 else body + 1)
    ensures body != 13 && body != 19 ==> At(o, n + 1).status == At(o, n).status
    ensures body == 13 ==> At(o, n + 1).status == o(n).attend
  {
    Successor(o, n);
  }

  /** And when one fails: the configuration, the init script, the pipe, the pty, the cgroups, the devices, the
      console, the clone, its pid and start time, and the two network scripts lead to the cleanup at once; the lock
      and the umount end the run; the failures of all other bodies are passed over. */
  lemma AfterFailure(o: nat -> Outcome, n: nat, body: nat)
    requires Runs(o, n, body) && !o(n).ok
    ensures body in {0, 2, 3, 4, 5, 6, 7, 8, 9, 11, 14} ==> Runs(o, n + 1, 16) && At(o, n + 1).status == At(o, n).status
    ensures body == 1 ==> At(o, n + 1) == Halt(1)
    ensures body == 18 ==> At(o, n + 1) == Halt(At(o, n).status)
    ensures body in {10, 12, 13, 15, 16, 17, 20} ==> Runs(o, n + 1, body + 1)
  {
    Successor(o, n);
  }

  /** A run ends behind body 21. */
  lemma AfterLast(o: nat -> Outcome, n: nat)
    requires Runs(o, n, 21)
    ensures At(o, n + 1) == Halt(At(o, n).status)
  {
    Successor(o, n);
  }

  lemma Successor(o: nat -> Outcome, n: nat)
    requires At(o, n).Run?
    ensures At(o, n + 1) == After(At(o, n), o(n))
  {
  }

  /** Bodies 2 to 9 and 11 must succeed. */
  predicate Prepared(o: nat -> Outcome, m: nat) {
    && o(m).ok && o(m + 1).ok && o(m + 2).ok && o(m + 3).ok && o(m + 4).ok && o(m + 5).ok && o(m + 6).ok && o(m + 7).ok
    && o(m + 9).ok
  }

  /** An attempt that begins at `m` gives its container the clearance and watches it, with body 13 at `m + 11`, if and
      only if its init script, pipe, pty, cgroups, devices, console, clone, pid file, start time and network succeed. */
  lemma WatchesIff(o: nat -> Outcome, m: nat)
    requires Runs(o, m, 2)
    ensures Runs(o, m + 11, 13) <==> Prepared(o, m)
  {
    WatchesFrom(o, m, 2);
    assert Rest(o, m, 2) <==> o(m).ok && o(m + 1).ok && o(m + 2).ok && Rest(o, m + 3, 5);
    assert Rest(o, m + 3, 5) <==> o(m + 3).ok && o(m + 4).ok && o(m + 5).ok && Rest(o, m + 6, 8);
    assert Rest(o, m + 6, 8) <==> o(m + 6).ok && o(m + 7).ok && Rest(o, m + 8, 10);
    assert Rest(o, m + 8, 10) <==> Rest(o, m + 9, 11);
    assert Rest(o, m + 9, 11) <==> o(m + 9).ok;
  }

  /** The bodies from this one to the watch that must succeed all do. */
  predicate Rest(o: nat -> Outcome, n: nat, body: nat)
    decreases 13 - body
  {
    body >= 13 || ((body <= 9 || body == 11 ==> o(n).ok) && Rest(o, n + 1, body + 1))
  }

  lemma {:induction false} WatchesFrom(o: nat -> Outcome, n: nat, body: nat)
    requires Runs(o, n, body) && 2 <= body <= 13
    ensures Runs(o, n + (13 - body), 13) <==> Rest(o, n, body)
    decreases 13 - body
  {
    if body < 13 {
      if o(n).ok { AfterSuccess(o, n, body); } else { AfterFailure(o, n, body); }
      if Runs(o, n + 1, 16) {
        CleanupGoesOn(o, n + 1, n + (13 - body));
      } else {
        WatchesFrom(o, n + 1, body + 1);
      }
    }
  }

  /** From body 16 on it is at least eleven bodies to the next watch. */
  lemma CleanupGoesOn(o: nat -> Outcome, n: nat, m: nat)
    requires Runs(o, n, 16) && n <= m <= n + 10
    ensures !Runs(o, m, 13)
  {
    var k := n;
    while k < m
      invariant n <= k <= m
      invariant At(o, k).Run? ==>
                  || 16 <= At(o, k).body <= 16 + k - n
                  || (k >= n + 4 && 2 <= At(o, k).body <= k - n - 2)
                  || (k >= n + 5 && At(o, k).body >= 16)
      decreases m - k
    {
      k := k + 1;
    }
  }

  // ----- what every run does

  /** Every attempt that enters body 2 reaches the cleanup within fourteen bodies, runs 16, 17 and 18 in order,
      and neither ends nor starts another attempt before that. */
  lemma AttemptCleansUp(o: nat -> Outcome, n: nat) returns (m: nat)
    requires Runs(o, n, 2)
    ensures n < m <= n + 14
    ensures forall k :: n < k < m ==> At(o, k).Run? && At(o, k).body == 2 + k - n <= 15
    ensures Runs(o, m, 16) && Runs(o, m + 1, 17) && Runs(o, m + 2, 18)
  {
    m := n + 1;
    while !Runs(o, m, 16)
      invariant n < m <= n + 14
      invariant Runs(o, m, 16) || (m < n + 14 && Runs(o, m, 2 + m - n))
      invariant forall k :: n < k < m ==> At(o, k).Run? && At(o, k).body == 2 + k - n <= 15
      decreases n + 14 - m
    {
      m := m + 1;
    }
    assert Runs(o, m + 1, 17);
  }

  /** The status a body sees is the latest `cont_attend` result, 0 when there was none; only body 19 rewrites it
      (2 becomes 0 on the way to 20). */
  lemma {:induction false} StatusIsLatestAttend(o: nat -> Outcome, n: nat)
    requires At(o, n).Run?
    ensures var seen := match LatestAttend(o, n) case None => 0 case Some(v) => v;
            At(o, n).status == if At(o, n).body >= 20 && seen == 2 then 0 else seen
    ensures At(o, n).body >= 20 ==> LatestAttend(o, n) != Some(1)
  {
    if n > 0 {
      StatusIsLatestAttend(o, n - 1);
    }
  }

  /** A reboot happens exactly when the latest `cont_attend` returned 1; otherwise body 20, the unlock, is next.
      An attempt that failed before its own `cont_attend` therefore repeats the decision of an earlier one. */
  lemma RebootDecision(o: nat -> Outcome, n: nat)
    requires Runs(o, n, 19)
    ensures Runs(o, n + 1, 2) <==> LatestAttend(o, n) == Some(1)
    ensures Runs(o, n + 1, 20) <==> LatestAttend(o, n) != Some(1)
  {
    StatusIsLatestAttend(o, n);
  }

  /** Between a result 1 and the next watch. */
  predicate Rebooting(c: Control) {
    c.Run? && c.status == 1 && (2 <= c.body <= 9 || 14 <= c.body <= 19)
  }

  lemma StillRebooting(c: Control, o: Outcome)
    requires Rebooting(c) && (c.body == 9 ==> !o.ok) && (c.body == 18 ==> o.ok)
    ensures Rebooting(After(c, o))
  {
  }

  lemma AtStep(o: nat -> Outcome, m: nat, c: Control)
    requires At(o, m) == c && c.Run?
    ensures At(o, m + 1) == After(c, o(m))
  {
  }

  /** Body 9 fails and body 18 works. */
  predicate Unlucky(c: Control, o: Outcome) {
    c.Run? && (c.body == 9 ==> !o.ok) && (c.body == 18 ==> o.ok)
  }

  /** So at every body after number `n` and before number `m`. */
  predicate UnluckyUntil(o: nat -> Outcome, n: nat, m: nat) {
    m <= n + 1 || (UnluckyUntil(o, n, m - 1) && (At(o, m - 1).Run? ==> Unlucky(At(o, m - 1), o(m - 1))))
  }

  /** So one reboot can go on for ever: once a watch returned 1, a supervisor whose body 9 fails whenever it runs, and
      whose umount works, never halts and never watches a container again. */
  lemma {:induction false} RebootsForEver(o: nat -> Outcome, n: nat, m: nat)
    requires n < m && Runs(o, n, 13) && o(n).attend == 1 && UnluckyUntil(o, n, m)
    ensures Rebooting(At(o, m))
  {
    if m == n + 1 {
      AtStep(o, n, At(o, n));
    } else {
      RebootsForEver(o, n, m - 1);
      StillRebooting(At(o, m - 1), o(m - 1));
      AtStep(o, m - 1, At(o, m - 1));
    }
  }

  /** The only way into body 2 is the lock (body 1) or a reboot (body 19). */
  lemma AttemptEntry(o: nat -> Outcome, n: nat)
    requires Runs(o, n, 2)
    ensures n > 0 && (Runs(o, n - 1, 1) || (Runs(o, n - 1, 19) && LatestAttend(o, n - 1) == Some(1)))
  {
    if Runs(o, n - 1, 19) {
      StatusIsLatestAttend(o, n - 1);
    }
  }

  /** How a run ends: the loser of the lock with status 1 right after body 1; a failed body 18 with the latest
      `cont_attend` result and no unlock; or bodies 20 and 21, with a power-off result 2 reported as 0. */
  lemma HowARunEnds(o: nat -> Outcome, n: nat)
    requires n > 0 && At(o, n - 1).Run? && At(o, n).Halt?
    ensures var seen := match LatestAttend(o, n) case None => 0 case Some(v) => v;
            || (n == 2 && Runs(o, 1, 1) && !o(1).ok && At(o, n).status == 1)
            || (n > 3 && Runs(o, n - 1, 18) && !o(n - 1).ok && At(o, n).status == seen)
            || (n > 3 && Runs(o, n - 1, 21) && Runs(o, n - 2, 20) && seen != 1
                && At(o, n).status == if seen == 2 then 0 else seen)
  {
    StatusIsLatestAttend(o, n - 1);
    if Runs(o, n - 1, 1) {
      LockIsSecond(o, n - 1);
    } else {
      assert At(o, 1).Run? && At(o, 0) == Start;
      assert n > 3 by { LateBodies(o, n - 1); }
    }
  }

  /** Body 1 runs at most once, as the second body of the run. */
  lemma {:induction false} LockIsSecond(o: nat -> Outcome, n: nat)
    requires Runs(o, n, 1)
    ensures n == 1
  {
    if n > 1 {
      NeverBackToZero(o, n - 1);
    }
  }

  lemma NeverBackToZero(o: nat -> Outcome, n: nat)
    requires n > 0
    ensures !Runs(o, n, 0)
  {
    var before := At(o, n - 1);
  }

  lemma LateBodies(o: nat -> Outcome, n: nat)
    requires At(o, n).Run? && At(o, n).body >= 18
    ensures n >= 3
  {
    assert At(o, 0) == Start;
    assert At(o, 1).Run? && At(o, 1).body in {1, 16};
    assert At(o, 2) == After(At(o, 1), o(1));
  }

  /** The loser of the lock runs nothing after body 1: no cleanup body and no unlock. */
  lemma {:induction false} LoserRunsNoCleanup(o: nat -> Outcome, n: nat)
    requires o(0).ok && !o(1).ok
    ensures n >= 2 ==> At(o, n) == Halt(1)
    ensures forall body :: Runs(o, n, body) ==> body <= 1
  {
    assert At(o, 0) == Start;
    assert At(o, 1) == Run(1, 0);
    if n > 2 {
      LoserRunsNoCleanup(o, n - 1);
    }
  }

  /** A supervisor that could not load its configuration runs the cleanup without having locked anything and,
      when its umount succeeds, the unlock too. */
  lemma ConfigFailureUnlocksUnlocked(o: nat -> Outcome)
    requires !o(0).ok && o(3).ok
    ensures Runs(o, 1, 16) && Runs(o, 2, 17) && Runs(o, 3, 18) && Runs(o, 4, 19) && Runs(o, 5, 20)
    ensures forall k :: 0 <= k <= 5 ==> !Runs(o, k, 1)
  {
    assert At(o, 0) == Start;
    assert At(o, 1) == Run(16, 0);
    assert At(o, 2) == Run(17, 0);
    assert At(o, 3) == Run(18, 0);
    assert At(o, 4) == Run(19, 0);
    assert At(o, 5) == Run(20, 0);
  }
}
