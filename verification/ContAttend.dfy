/** The supervisor's event loop: signal counters and sticky flags (lib/utlapl.c:38-66, 845-901), the power-off
    request (app/vzgot.c:315-368, 376-485) and the escalation of kills (app/vzgot.c:493-625). */
module ContAttend {

  // ----- signal counters

  const NSIG := 65
  const SIGHUP := 1
  const SIGINT := 2
  const SIGQUIT := 3
  const SIGUSR1 := 10
  const SIGUSR2 := 12
  const SIGTERM := 15
  const SIGCONT := 18

  datatype Flags = Flags(sigterm: bool, sigquit: bool, sigint: bool, sighup: bool, sigcont: bool, debug: nat)

  type Counts = c: seq<nat> | |c| == NSIG witness seq(NSIG, _ => 0)

  function Total(c: seq<nat>): nat {
    if c == [] then 0 else Total(c[..|c| - 1]) + c[|c| - 1]
  }

  /** The flags after the first `n` signal numbers have been looked at. */
  function Raised(f: Flags, c: Counts, n: nat): Flags
    requires n <= NSIG
  {
    if n == 0 then f
    else
      var g := Raised(f, c, n - 1);
      if c[n - 1] == 0 then g
      else if n - 1 == SIGINT then g.(sigint := true)
      else if n - 1 == SIGHUP then g.(sighup := true)
      else if n - 1 == SIGQUIT then g.(sigquit := true, sigterm := true)
      else if n - 1 == SIGUSR1 then g.(debug := g.debug + 1)
      else if n - 1 == SIGUSR2 then g.(debug := if g.debug > 0 then g.debug - 1 else 0)
      else if n - 1 == SIGTERM then g.(sigterm := true)
      else if n - 1 == SIGCONT then g.(sigcont := true)
      else g
  }

  /** Each flag says whether its signal was ever seen: flags are only ever raised, whatever order the signals came
      in, and SIGQUIT counts as SIGTERM too.  SIGUSR1 and SIGUSR2 together leave the debug level alone,
      one of them alone moves it by one, not below 0. */
  lemma RaisedMeaning(f: Flags, c: Counts)
    ensures var g := Raised(f, c, NSIG);
            && g.sigint == (f.sigint || c[SIGINT] > 0)
            && g.sighup == (f.sighup || c[SIGHUP] > 0)
            && g.sigquit == (f.sigquit || c[SIGQUIT] > 0)
            && g.sigterm == (f.sigterm || c[SIGTERM] > 0 || c[SIGQUIT] > 0)
            && g.sigcont == (f.sigcont || c[SIGCONT] > 0)
            && g.debug == (if c[SIGUSR1] > 0 then (if c[SIGUSR2] > 0 then f.debug else f.debug + 1)
                           else if c[SIGUSR2] > 0 && f.debug > 0 then f.debug - 1 else f.debug)
  {
    RaisedUpTo(f, c, NSIG);
  }

  lemma RaisedUpTo(f: Flags, c: Counts, n: nat)
    requires n <= NSIG
    ensures var g := Raised(f, c, n);
            && g.sigint == (f.sigint || (n > SIGINT && c[SIGINT] > 0))
            && g.sighup == (f.sighup || (n > SIGHUP && c[SIGHUP] > 0))
            && g.sigquit == (f.sigquit || (n > SIGQUIT && c[SIGQUIT] > 0))
            && g.sigterm == (f.sigterm || (n > SIGTERM && c[SIGTERM] > 0) || (n > SIGQUIT && c[SIGQUIT] > 0))
            && g.sigcont == (f.sigcont || (n > SIGCONT && c[SIGCONT] > 0))
            && g.debug == (var up := f.debug + if n > SIGUSR1 && c[SIGUSR1] > 0 then 1 else 0;
                           if n > SIGUSR2 && c[SIGUSR2] > 0 && up > 0 then up - 1 else up)
  {
    RaisedStops(f, c, n);
    RaisedEnds(f, c, n);
    RaisedDebug(f, c, n);
  }

  lemma {:induction false} RaisedStops(f: Flags, c: Counts, n: nat)
    requires n <= NSIG
    ensures var g := Raised(f, c, n);
            && g.sigint == (f.sigint || (n > SIGINT && c[SIGINT] > 0))
            && g.sighup == (f.sighup || (n > SIGHUP && c[SIGHUP] > 0))
            && g.sigcont == (f.sigcont || (n > SIGCONT && c[SIGCONT] > 0))
  {
    if n > 0 {
      RaisedStops(f, c, n - 1);
    }
  }

  lemma {:induction false} RaisedEnds(f: Flags, c: Counts, n: nat)
    requires n <= NSIG
    ensures var g := Raised(f, c, n);
            && g.sigquit == (f.sigquit || (n > SIGQUIT && c[SIGQUIT] > 0))
            && g.sigterm == (f.sigterm || (n > SIGTERM && c[SIGTERM] > 0) || (n > SIGQUIT && c[SIGQUIT] > 0))
  {
    if n > 0 {
      RaisedEnds(f, c, n - 1);
    }
  }

  lemma {:induction false} RaisedDebug(f: Flags, c: Counts, n: nat)
    requires n <= NSIG
    ensures Raised(f, c, n).debug ==
            (var up := f.debug + if n > SIGUSR1 && c[SIGUSR1] > 0 then 1 else 0;
             if n > SIGUSR2 && c[SIGUSR2] > 0 && up > 0 then up - 1 else up)
  {
    if n > 0 {
      RaisedDebug(f, c, n - 1);
    }
  }

  class Signals {
    const counts: array<nat>
    var flags: Flags

    ghost predicate Valid()
      reads this
    {
      counts.Length == NSIG
    }

    constructor ()
      ensures Valid() && fresh(counts) && flags == Flags(false, false, false, false, false, 0)
      ensures forall i :: 0 <= i < NSIG ==> counts[i] == 0
    {
      counts := new nat[NSIG](_ => 0);
      flags := Flags(false, false, false, false, false, 0);
    }

    /** The handler `trapsig`. */
    method Trap(sig: nat)
      requires Valid() && sig < NSIG
      modifies counts
      ensures counts[..] == old(counts[..])[sig := old(counts[sig]) + 1]
    {
      counts[sig] := counts[sig] + 1;
    }

    /** apl_checksig: counters become flags, and are cleared. */
    method Check() returns (count: nat)
      requires Valid()
      modifies this`flags, counts
      ensures flags == Raised(old(flags), old(counts[..]), NSIG)
      ensures count == Total(old(counts[..]))
      ensures forall i :: 0 <= i < NSIG ==> counts[i] == 0
    {
      count := 0;
      ghost var was := counts[..];
      var i := 0;
      while i < NSIG
        invariant i <= NSIG
        invariant forall k :: 0 <= k < i ==> counts[k] == 0
        invariant forall k :: i <= k < NSIG ==> counts[k] == was[k]
        invariant flags == Raised(old(flags), was, i)
        invariant count == Total(was[..i])
      {
        assert was[..i + 1][..i] == was[..i];
        var c := counts[i];
        if c != 0 {
          count := count + c;
          counts[i] := 0;
          match i {
            case 2 => flags := flags.(sigint := true);
            case 1 => flags := flags.(sighup := true);
            case 3 => flags := flags.(sigquit := true, sigterm := true);
            case 10 => flags := flags.(debug := flags.debug + 1);
            case 12 => if flags.debug > 0 { flags := flags.(debug := flags.debug - 1); }
            case 15 => flags := flags.(sigterm := true);
            case 18 => flags := flags.(sigcont := true);
            case _ =>
          }
        }
        i := i + 1;
      }
      assert was[..NSIG] == was;
    }

    // ----- the wait

    /** Phase 3 of `cont_attend`, observed for at most `limit` polls. */
    method Watch(polls: nat -> Poll, limit: nat) returns (s: Watching, n: nat)
      requires Valid()
      modifies this`flags, counts
      ensures n <= limit && s == At(old(flags), polls, n) && s.flags == flags
      ensures s.attend ==> n == limit
      ensures forall k :: 0 <= k < n ==> At(old(flags), polls, k).attend
    {
      var killMode := 0;
      var sleepMs := 5000;
      var attend := true;
      var sent: seq<Signal> := [];
      n := 0;
      while attend && n < limit
        invariant n <= limit
        invariant Watching(attend, killMode, sleepMs, flags, sent) == At(old(flags), polls, n)
        invariant forall k :: 0 <= k < n ==> At(old(flags), polls, k).attend
        invariant attend ==> 0 <= killMode <= 2
        decreases limit - n
      {
        match polls(n) {
          case Interrupt(c, sh) =>
            Deliver(c);
            var _ := Check();
            if flags.sigterm { flags := flags.(sigint := true); }
            if flags.sigint || flags.sighup {
              killMode := 1;
              sent := sent + Shutdown(sh);
              sleepMs := 10000;
            }
          case PollError => attend := false;
          case Timeout(monitored) =>
            match killMode {
              case 0 =>
                if !monitored {
                  sleepMs := 1000;
                  killMode := killMode + 1;
                }
              case 1 =>
                killMode := killMode + 1;
                sent := sent + [Int];
              case 2 =>
                killMode := killMode + 1;
                sent := sent + [Kill];
                attend := false;
              case _ =>
                assert false;                    // "case never reachable"
            }
          case Exited => attend := false;
        }
        n := n + 1;
      }
      s := Watching(attend, killMode, sleepMs, flags, sent);
    }

    /** cont_attend: find the monitoring process within five seconds, open the pid descriptor, watch, reap.
        `pending(i)` is what arrived during second `i`, `found` the second that found the monitor. */
    method Attend(pending: nat -> Counts, found: nat, pidfd: bool, polls: nat -> Poll, limit: nat, wait: Wait)
      returns (status: int, s: Watching, over: bool, n: nat)
      requires Valid()
      modifies this`flags, counts
      ensures s.flags == flags && n <= limit
      ensures found < 5 && pidfd ==>
                s == At(Gathered(old(flags), pending, found + 2), polls, n) && (over <==> !s.attend)
      ensures found >= 5 || !pidfd ==>
                over && n == 0 && s == Watching(true, 0, 5000, Gathered(old(flags), pending, Min(found + 1, 5)), [])
      ensures over ==> status == Result(found < 5 && pidfd, s, wait)
    {
      status, n := 0, 0;
      over := true;
      var i := 0;
      var seen := false;
      while i < 5 && !seen
        invariant 0 <= i <= 5 && (seen <==> i == found + 1) && i <= found + 1 && Valid()
        invariant flags == Gathered(old(flags), pending, i)
        decreases 5 - i, !seen
      {
        Deliver(pending(i));
        var _ := Check();
        seen := i == found;
        i := i + 1;
      }
      s := Watching(true, 0, 5000, flags, []);
      if seen && pidfd {
        Deliver(pending(i));
        var _ := Check();
        s, n := Watch(polls, limit);
        over := !s.attend;
        if s.killMode < 3 {
          status := AfterWait(wait);
        }
      }
      if flags.sighup {
        status := 1;
      }
    }

    /** The pending counters when an interrupted poll returns. */
    method Deliver(c: Counts)
      requires Valid()
      modifies counts
      ensures counts[..] == c
    {
      forall i | 0 <= i < NSIG { counts[i] := c[i]; }
    }
  }

  /** The flags once the signals of the first `i` looks are taken note of. */
  function Gathered(f: Flags, pending: nat -> Counts, i: nat): Flags {
    if i == 0 then f else Raised(Gathered(f, pending, i - 1), pending(i - 1), NSIG)
  }

  function Min(a: nat, b: nat): nat { if a <= b then a else b }

  /** A stop that is asked for while the monitor is still looked up is not lost: the loop starts with it, but acts on it
      only at the next interrupt. */
  lemma {:induction false} GatheredKeeps(f: Flags, pending: nat -> Counts, i: nat, j: nat)
    requires i < j
    ensures pending(i)[SIGHUP] > 0 ==> Gathered(f, pending, j).sighup
    ensures pending(i)[SIGINT] > 0 ==> Gathered(f, pending, j).sigint
    ensures pending(i)[SIGTERM] > 0 || pending(i)[SIGQUIT] > 0 ==> Gathered(f, pending, j).sigterm
    ensures At(Gathered(f, pending, j), n => Timeout(true), j).killMode == 0
    decreases j
  {
    RaisedMeaning(Gathered(f, pending, j - 1), pending(j - 1));
    if i < j - 1 {
      GatheredKeeps(f, pending, i, j - 1);
    }
    QuietStart(Gathered(f, pending, j), j);
  }

  lemma {:induction false} QuietStart(f: Flags, n: nat)
    ensures At(f, n => Timeout(true), n) == Watching(true, 0, 5000, f, [])
  {
    if n > 0 {
      QuietStart(f, n - 1);
    }
  }

  // ----- from one attempt to the next

  /** REBOOT (app/vzgot.c:1380-1383) lowers the two flags that ask for a stop, and no other. */
  function Rebooted(f: Flags): Flags { f.(sighup := false, sigint := false) }

  /** The flags after all looks at the counters during one attempt. */
  function Taken(f: Flags, looks: seq<Counts>): Flags {
    if looks == [] then f else Raised(Taken(f, looks[..|looks| - 1]), looks[|looks| - 1], NSIG)
  }

  const NoFlags := Flags(false, false, false, false, false, 0)

  /** The flags at the beginning of the attempt that follows `attempts`. */
  function Carried(attempts: seq<seq<Counts>>): Flags {
    if attempts == [] then NoFlags
    else Rebooted(Taken(Carried(attempts[..|attempts| - 1]), attempts[|attempts| - 1]))
  }

  predicate EndSignal(c: Counts) { c[SIGTERM] > 0 || c[SIGQUIT] > 0 }

  /** A stop signal: one that makes the loop request the power-off. */
  predicate StopSignal(c: Counts) { c[SIGINT] > 0 || c[SIGHUP] > 0 || EndSignal(c) }

  ghost predicate EverEnded(attempts: seq<seq<Counts>>) {
    exists k, j :: 0 <= k < |attempts| && 0 <= j < |attempts[k]| && EndSignal(attempts[k][j])
  }

  lemma {:induction false} TakenEnds(f: Flags, looks: seq<Counts>)
    ensures Taken(f, looks).sigterm <==> f.sigterm || exists j :: 0 <= j < |looks| && EndSignal(looks[j])
  {
    if looks != [] {
      var n := |looks| - 1;
      TakenEnds(f, looks[..n]);
      RaisedMeaning(Taken(f, looks[..n]), looks[n]);
      assert forall j :: 0 <= j < n ==> looks[..n][j] == looks[j];
    }
  }

  lemma EndedMore(attempts: seq<seq<Counts>>)
    requires attempts != []
    ensures var n := |attempts| - 1;
            EverEnded(attempts) <==>
            EverEnded(attempts[..n]) || exists j :: 0 <= j < |attempts[n]| && EndSignal(attempts[n][j])
  {
    var n := |attempts| - 1;
    assert forall k :: 0 <= k < n ==> attempts[..n][k] == attempts[k];
    if EverEnded(attempts) {
      var k, j :| 0 <= k < |attempts| && 0 <= j < |attempts[k]| && EndSignal(attempts[k][j]);
      assert k < n ==> EndSignal(attempts[..n][k][j]);
    }
    if EverEnded(attempts[..n]) {
      var k, j :| 0 <= k < n && 0 <= j < |attempts[..n][k]| && EndSignal(attempts[..n][k][j]);
      assert EndSignal(attempts[k][j]);
    }
  }

  /** An attempt begins with the flag of SIGTERM raised if and only if SIGTERM or SIGQUIT ever arrived before, and with
      no other stop flag. */
  lemma {:induction false} CarriedStop(attempts: seq<seq<Counts>>)
    ensures Carried(attempts).sigterm <==> EverEnded(attempts)
    ensures !Carried(attempts).sigint && !Carried(attempts).sighup
  {
    if attempts != [] {
      var n := |attempts| - 1;
      CarriedStop(attempts[..n]);
      TakenEnds(Carried(attempts[..n]), attempts[n]);
      EndedMore(attempts);
    }
  }

  lemma {:induction false} OnlyTimeouts(f: Flags, polls: nat -> Poll, n: nat)
    requires forall k: nat :: k < n ==> polls(k) == Timeout(true)
    ensures At(f, polls, n) == Watching(true, 0, 5000, f, [])
  {
    if n > 0 {
      OnlyTimeouts(f, polls, n - 1);
    }
  }

  /** The first interrupt of an attempt powers its container off if and only if it brings a stop signal itself, or
      SIGTERM or SIGQUIT came in any earlier attempt: a stop that was answered by a reboot is not forgotten, and a
      SIGCHLD or a SIGUSR1 then ends the new container. */
  lemma StopOutlivesReboot(attempts: seq<seq<Counts>>, polls: nat -> Poll, n: nat, c: Counts, k: ShutdownCalls)
    requires (forall j: nat :: j < n ==> polls(j) == Timeout(true)) && polls(n) == Interrupt(c, k)
    ensures var s := At(Carried(attempts), polls, n + 1);
            if StopSignal(c) || EverEnded(attempts) then s.killMode == 1 && s.sent == Shutdown(k)
            else s.killMode == 0 && s.sent == []
  {
    var f := Carried(attempts);
    CarriedStop(attempts);
    OnlyTimeouts(f, polls, n);
    RaisedMeaning(f, c);
  }

  // ----- the power-off request

  /** What the supervisor sends to the container: a power-off command that ran, SIGINT, SIGKILL. */
  datatype Signal = PowerOff | Int | Kill

  /** The calls of `cont_shutdown`: its own configuration load and pid lookup, the same two again inside `vzexec`,
      and the injected command. */
  datatype ShutdownCalls = ShutdownCalls(config: bool, pid: bool, execConfig: bool, execPid: bool, inject: bool)

  /** `vzexec` runs the command, and returns 0; but it also returns 0 when its configuration load or its pid lookup
      fails, and then runs nothing. */
  function Exec(k: ShutdownCalls): (int, seq<Signal>)
  {
    if !k.execConfig || !k.execPid then (0, [])
    else if !k.inject then (2, [])
    else (0, [PowerOff])
  }

  /** What `cont_shutdown` sends: after a `vzexec` that returned 0 it always ends with SIGKILL. */
  function Shutdown(k: ShutdownCalls): seq<Signal> {
    if !k.config || !k.pid then []
    else
      var (status, sent) := Exec(k);
      if status != 0 then sent else sent + [Kill]
  }

  // ----- the loop as a function of the polls

  datatype Poll =
    | Interrupt(counts: Counts, shutdown: ShutdownCalls)
    | PollError
    | Timeout(monitored: bool)
    | Exited

  datatype Watching = Watching(attend: bool, killMode: int, sleepMs: int, flags: Flags, sent: seq<Signal>)

  function OnPoll(s: Watching, p: Poll): Watching {
    match p
    case Interrupt(c, sh) =>
      var g := Raised(s.flags, c, NSIG);
      var f := if g.sigterm then g.(sigint := true) else g;
      if f.sigint || f.sighup then Watching(true, 1, 10000, f, s.sent + Shutdown(sh))
      else s.(flags := f)
    case PollError => s.(attend := false)
    case Exited => s.(attend := false)
    case Timeout(monitored) =>
      if s.killMode == 0 then
        if monitored then s else s.(killMode := 1, sleepMs := 1000)
      else if s.killMode == 1 then
        s.(killMode := 2, sent := s.sent + [Int])
      else
        s.(killMode := 3, sent := s.sent + [Kill], attend := false)
  }

  function At(f: Flags, polls: nat -> Poll, n: nat): Watching {
    if n == 0 then Watching(true, 0, 5000, f, [])
    else
      var s := At(f, polls, n - 1);
      if s.attend then OnPoll(s, polls(n - 1)) else s
  }

  // ----- what `waitpid` reports

  datatype Exit = ExitCode(code: nat) | BySignal(sig: nat, core: bool)

  datatype Wait = WaitFailed | Reaped(e: Exit)

  predicate RealWait(w: Wait) {
    w.Reaped? ==> match w.e case ExitCode(c) => c < 256 case BySignal(g, _) => 1 <= g <= 126
  }

  /** The status word of wait(2). */
  function Raw(e: Exit): nat {
    match e
    case ExitCode(c) => c * 256
    case BySignal(g, core) => g + if core then 128 else 0
  }

  predicate IfSignaled(raw: nat) { 1 <= raw % 128 <= 126 }

  function AfterWait(w: Wait): int {
    if w == WaitFailed then 0
    else if IfSignaled(Raw(w.e)) then Raw(w.e) % 128 else Raw(w.e)
  }

  function Result(watched: bool, s: Watching, w: Wait): int {
    if s.flags.sighup then 1
    else if watched && s.killMode < 3 then AfterWait(w) else 0
  }

  /** `cont_attend` asks for a reboot, by returning 1, exactly when SIGHUP was ever seen or the container's first
      process was reaped after dying by signal 1; it reports a power-off, 2, exactly when SIGHUP was not seen and
      that process died by signal 2.  No exit code can be mistaken for either. */
  lemma ResultMeaning(watched: bool, s: Watching, w: Wait)
    requires RealWait(w)
    ensures Result(watched, s, w) == 1 <==>
              s.flags.sighup || (watched && s.killMode < 3 && w.Reaped? && w.e.BySignal? && w.e.sig == 1)
    ensures Result(watched, s, w) == 2 <==>
              !s.flags.sighup && watched && s.killMode < 3 && w.Reaped? && w.e.BySignal? && w.e.sig == 2
  {
    if w.Reaped? && w.e.ExitCode? {
      assert Raw(w.e) % 128 == 0 by { ExitCodeWord(w.e.code); }
    }
  }

  lemma ExitCodeWord(c: nat)
    ensures (c * 256) % 128 == 0
  {
    assert c * 256 == (c * 2) * 128;
  }

  /** What is returned when SIGHUP was not seen: 0 when nothing could be reaped, an exit code times 256, or the signal
      that ended the container's first process, dumped or not. */
  lemma AfterWaitMeaning(w: Wait)
    requires RealWait(w)
    ensures match w
            case WaitFailed => AfterWait(w) == 0
            case Reaped(ExitCode(c)) => AfterWait(w) == 256 * c
            case Reaped(BySignal(g, _)) => AfterWait(w) == g
  {
    if w.Reaped? && w.e.ExitCode? { ExitCodeWord(w.e.code); }
  }

  // ----- how the wait ends

  /** Poll `n` ends the wait: the container's process exited, the poll failed, or it timed out after the second kill. */
  predicate Ends(f: Flags, polls: nat -> Poll, n: nat) {
    || polls(n) == Exited
    || polls(n) == PollError
    || (polls(n).Timeout? && At(f, polls, n).killMode == 2)
  }

  ghost predicate EverEnds(f: Flags, polls: nat -> Poll, n: nat) {
    exists m: nat :: m < n && Ends(f, polls, m)
  }

  /** Over any polls, with or without a stop pending: the supervisor still waits if and only if no earlier poll
      found the container's process gone, failed, or timed out at kill mode 2. */
  lemma {:induction false} WaitEnds(f: Flags, polls: nat -> Poll, n: nat)
    ensures At(f, polls, n).attend <==> !EverEnds(f, polls, n)
  {
    if n > 0 {
      WaitEnds(f, polls, n - 1);
      assert EverEnds(f, polls, n) <==> EverEnds(f, polls, n - 1) || Ends(f, polls, n - 1);
      KillModes(f, polls, n - 1);
    }
  }

  /** The end itself: an exit sends nothing and keeps the flags and the kill mode; only the last time-out kills. */
  lemma EndingPoll(f: Flags, polls: nat -> Poll, n: nat)
    requires At(f, polls, n).attend && Ends(f, polls, n)
    ensures var s, t := At(f, polls, n), At(f, polls, n + 1);
            && !t.attend && t.flags == s.flags
            && (!polls(n).Timeout? ==> t.sent == s.sent && t.killMode == s.killMode <= 2)
            && (polls(n).Timeout? ==> t.sent == s.sent + [Kill] && t.killMode == 3)
  {
    KillModes(f, polls, n);
  }

  /** A stop is asked for: now, or at an earlier poll. */
  predicate StopPending(f: Flags, c: Counts) { f.sigint || f.sighup || f.sigterm || StopSignal(c) }

  /** The kill mode leaves 0 by an interrupt while a stop is asked for, or when a time-out finds the monitoring process
      lost, and by nothing else. */
  lemma LeavesZero(f: Flags, polls: nat -> Poll, n: nat)
    requires At(f, polls, n).attend && At(f, polls, n).killMode == 0
    ensures At(f, polls, n + 1).killMode <= 1
    ensures At(f, polls, n + 1).killMode == 1 <==>
              || (polls(n).Interrupt? && StopPending(At(f, polls, n).flags, polls(n).counts))
              || polls(n) == Timeout(false)
  {
    if polls(n).Interrupt? { RaisedMeaning(At(f, polls, n).flags, polls(n).counts); }
  }

  // ----- the escalation

  /** From the request to the end: an interrupt while a stop is asked for, and two time-outs without another one. */
  lemma StopEscalates(f: Flags, polls: nat -> Poll, n: nat)
    requires At(f, polls, n).attend && polls(n).Interrupt? && StopPending(At(f, polls, n).flags, polls(n).counts)
    requires polls(n + 1).Timeout? && polls(n + 2).Timeout?
    ensures At(f, polls, n + 3).sent == At(f, polls, n).sent + Shutdown(polls(n).shutdown) + [Int, Kill]
    ensures At(f, polls, n + 2).attend && !At(f, polls, n + 3).attend && At(f, polls, n + 3).killMode == 3
  {
    RaisedMeaning(At(f, polls, n).flags, polls(n).counts);
    TwoTimeouts(f, polls, n + 1);
  }

  lemma TwoTimeouts(f: Flags, polls: nat -> Poll, n: nat)
    requires At(f, polls, n).attend && At(f, polls, n).killMode == 1 && polls(n).Timeout? && polls(n + 1).Timeout?
    ensures At(f, polls, n + 2).sent == At(f, polls, n).sent + [Int, Kill]
    ensures At(f, polls, n + 1).attend && !At(f, polls, n + 2).attend && At(f, polls, n + 2).killMode == 3
  {
    assert At(f, polls, n + 1) == OnPoll(At(f, polls, n), polls(n));
    assert At(f, polls, n + 2) == OnPoll(At(f, polls, n + 1), polls(n + 1));
  }

  /** A lost monitoring process escalates too, without a power-off: three time-outs, a second apart. */
  lemma LostMonitorEscalates(f: Flags, polls: nat -> Poll, n: nat)
    requires At(f, polls, n).attend && At(f, polls, n).killMode == 0
    requires polls(n) == Timeout(false) && polls(n + 1).Timeout? && polls(n + 2).Timeout?
    ensures At(f, polls, n + 1).sleepMs == At(f, polls, n + 2).sleepMs == 1000
    ensures At(f, polls, n + 3).sent == At(f, polls, n).sent + [Int, Kill] && !At(f, polls, n + 3).attend
  {
    TwoTimeouts(f, polls, n + 1);
  }

  /** What a power-off request sends: the command when all five calls work, and SIGKILL when the lookups of the
      supervisor work, unless the command was tried and failed. */
  lemma ShutdownMeaning(k: ShutdownCalls)
    ensures var sent := Shutdown(k);
            && (PowerOff in sent <==> k.config && k.pid && k.execConfig && k.execPid && k.inject)
            && (Kill in sent <==> k.config && k.pid && (k.execConfig && k.execPid ==> k.inject))
            && (sent == [] || sent == [Kill] || sent == [PowerOff, Kill])
  {
    var (status, sent) := Exec(k);
    assert [PowerOff] + [Kill] == [PowerOff, Kill] && [] + [Kill] == [Kill];
  }

  /** At every poll the kill mode is 0, 1 or 2; it is 3 exactly when the loop ended by the sure kill. */
  lemma {:induction false} KillModes(f: Flags, polls: nat -> Poll, n: nat)
    ensures var s := At(f, polls, n);
            && 0 <= s.killMode <= 3 && (s.killMode == 3 ==> !s.attend && Kill in s.sent)
            && s.sleepMs in {1000, 5000, 10000}
  {
    if n > 0 {
      KillModes(f, polls, n - 1);
    }
  }

  /** A stop stays requested: flags are never lowered while waiting, so once SIGINT, SIGTERM, SIGQUIT or SIGHUP was
      acted on, every later interrupt of whatever kind requests the power-off again. */
  lemma {:induction false} StopIsSticky(f: Flags, polls: nat -> Poll, n: nat, m: nat)
    requires n <= m
    requires At(f, polls, n).flags.sigint || At(f, polls, n).flags.sighup
    ensures At(f, polls, m).flags.sigint || At(f, polls, m).flags.sighup
    ensures At(f, polls, m).attend && polls(m).Interrupt? ==>
              var s := At(f, polls, m + 1);
              s.killMode == 1 && s.sleepMs == 10000 && s.sent == At(f, polls, m).sent + Shutdown(polls(m).shutdown)
  {
    if n < m {
      StopIsSticky(f, polls, n, m - 1);
      if polls(m - 1).Interrupt? { RaisedMeaning(At(f, polls, m - 1).flags, polls(m - 1).counts); }
    }
    if polls(m).Interrupt? { RaisedMeaning(At(f, polls, m).flags, polls(m).counts); }
  }

  function Interrupts(polls: nat -> Poll, n: nat, m: nat): nat
    requires n <= m
    decreases m - n
  {
    if n == m then 0 else (if polls(n).Interrupt? then 1 else 0) + Interrupts(polls, n + 1, m)
  }

  /** By which poll a pending stop has ended the loop, with `left` interrupts to come. */
  function Deadline(n: nat, left: nat, mode: int): int { n + 3 * left + 3 - mode }

  /** Once a stop is pending, the loop ends within three polls per further interrupt plus the timeouts left in the
      current escalation: at most two more timeouts when interrupts cease. */
  lemma {:induction false} EscalationEnds(f: Flags, polls: nat -> Poll, n: nat, left: nat)
    requires 1 <= At(f, polls, n).killMode <= 3
    requires Interrupts(polls, n, n + 3 * left + 3 - At(f, polls, n).killMode) <= left
    ensures !At(f, polls, n + 3 * left + 3 - At(f, polls, n).killMode).attend
  {
    EndsBy(f, polls, n, left, At(f, polls, n).killMode, Deadline(n, left, At(f, polls, n).killMode));
  }

  lemma {:induction false} EndsBy(f: Flags, polls: nat -> Poll, n: nat, left: nat, mode: int, end: nat)
    requires mode == At(f, polls, n).killMode && 1 <= mode <= 3 && end == Deadline(n, left, mode)
    requires Interrupts(polls, n, end) <= left
    ensures !At(f, polls, end).attend
    decreases end - n
  {
    KillModes(f, polls, n);
    if !At(f, polls, n).attend {
      StaysEnded(f, polls, n, end);
    } else {
      var t := NextMode(f, polls, n, mode);
      if !At(f, polls, n + 1).attend {
        StaysEnded(f, polls, n + 1, end);
      } else if polls(n).Interrupt? {
        var sooner := Deadline(n + 1, left - 1, t);
        FewerInterrupts(polls, n + 1, sooner, end);
        EndsBy(f, polls, n + 1, left - 1, t, sooner);
        StaysEnded(f, polls, sooner, end);
      } else {
        EndsBy(f, polls, n + 1, left, t, end);
      }
    }
  }

  /** One poll while a stop is pending: an interrupt may put the mode back to 1 but never lower, anything else raises it
      or ends the loop. */
  lemma NextMode(f: Flags, polls: nat -> Poll, n: nat, mode: int) returns (t: int)
    requires mode == At(f, polls, n).killMode && 1 <= mode <= 2 && At(f, polls, n).attend
    ensures t == At(f, polls, n + 1).killMode && 1 <= t <= 3
    ensures At(f, polls, n + 1).attend ==> t <= 2 && (polls(n).Interrupt? || t == mode + 1)
  {
    t := At(f, polls, n + 1).killMode;
  }

  lemma {:induction false} FewerInterrupts(polls: nat -> Poll, n: nat, m: nat, k: nat)
    requires n <= m <= k
    ensures Interrupts(polls, n, m) <= Interrupts(polls, n, k)
    decreases m - n
  {
    if n < m {
      FewerInterrupts(polls, n + 1, m, k);
    }
  }

  lemma {:induction false} StaysEnded(f: Flags, polls: nat -> Poll, n: nat, m: nat)
    requires n <= m && !At(f, polls, n).attend
    ensures At(f, polls, m) == At(f, polls, n)
    decreases m
  {
    if n < m {
      StaysEnded(f, polls, n, m - 1);
    }
  }

  // ----- no kill without a warning

  predicate Warned(sent: seq<Signal>) { PowerOff in sent || Int in sent }

  /** Every SIGKILL comes after a power-off command that ran or after a SIGINT. */
  predicate KillsAreWarned(sent: seq<Signal>) {
    forall k :: 0 <= k < |sent| && sent[k] == Kill ==> Warned(sent[..k])
  }

  /** The supervisor's own lookups work but those inside `vzexec` do not: it reports success and runs nothing. */
  predicate Unheard(k: ShutdownCalls) { k.config && k.pid && !(k.execConfig && k.execPid) }

  /** Poll `n` makes the supervisor request the power-off. */
  predicate Requests(f: Flags, polls: nat -> Poll, n: nat) {
    && At(f, polls, n).attend && polls(n).Interrupt?
    && (At(f, polls, n + 1).flags.sigint || At(f, polls, n + 1).flags.sighup)
  }

  /** Poll `n` requests the power-off through a `vzexec` that runs nothing, with no warning sent before. */
  predicate KillsUnwarned(f: Flags, polls: nat -> Poll, n: nat) {
    Requests(f, polls, n) && Unheard(polls(n).shutdown) && !Warned(At(f, polls, n).sent)
  }

  lemma {:induction false} SinkingPrefix(sent: seq<Signal>, more: seq<Signal>)
    requires KillsAreWarned(sent + more)
    ensures KillsAreWarned(sent)
  {
    forall k | 0 <= k < |sent| && sent[k] == Kill ensures Warned(sent[..k]) {
      assert (sent + more)[..k] == sent[..k];
    }
  }

  lemma StillWarned(sent: seq<Signal>, more: seq<Signal>)
    requires KillsAreWarned(sent)
    requires forall k :: 0 <= k < |more| && more[k] == Kill ==> Warned(sent + more[..k])
    ensures KillsAreWarned(sent + more)
  {
    var all := sent + more;
    forall k | 0 <= k < |all| && all[k] == Kill ensures Warned(all[..k]) {
      if k < |sent| {
        assert all[..k] == sent[..k];
      } else {
        assert all[..k] == sent + more[..k - |sent|];
      }
    }
  }

  /** One poll: the kills stay warned unless the poll requests the power-off through a `vzexec` that runs nothing
      while no power-off and no SIGINT had been sent before. */
  lemma OnePollWarns(f: Flags, polls: nat -> Poll, n: nat)
    requires KillsAreWarned(At(f, polls, n).sent)
    requires At(f, polls, n).killMode == 2 ==> Int in At(f, polls, n).sent
    ensures KillsAreWarned(At(f, polls, n + 1).sent) <==> !KillsUnwarned(f, polls, n)
    ensures At(f, polls, n + 1).killMode == 2 ==> Int in At(f, polls, n + 1).sent
  {
    KillModes(f, polls, n);
    var s := At(f, polls, n);
    var more := SentBy(f, polls, n);
    MoreWarned(s.sent, more);
  }

  /** What one poll sends. */
  lemma SentBy(f: Flags, polls: nat -> Poll, n: nat) returns (more: seq<Signal>)
    requires 0 <= At(f, polls, n).killMode <= 3 && (At(f, polls, n).killMode == 3 ==> !At(f, polls, n).attend)
    requires At(f, polls, n).killMode == 2 ==> Int in At(f, polls, n).sent
    ensures var s, t := At(f, polls, n), At(f, polls, n + 1);
            && t.sent == s.sent + more
            && (t.killMode == 2 ==> Int in t.sent)
            && (more != [] && more[0] == Kill && !Warned(s.sent) <==> KillsUnwarned(f, polls, n))
            && (more == [] || more == [Int] || more == [Kill] || more == [PowerOff, Kill])
  {
    var s, t := At(f, polls, n), At(f, polls, n + 1);
    more := [];
    if Requests(f, polls, n) {
      more := Shutdown(polls(n).shutdown);
    } else if s.attend && polls(n).Timeout? && s.killMode > 0 {
      more := if s.killMode == 1 then [Int] else [Kill];
    }
    assert s.sent + [] == s.sent;
  }

  lemma MoreWarned(sent: seq<Signal>, more: seq<Signal>)
    requires KillsAreWarned(sent)
    requires more == [] || more == [Int] || more == [Kill] || more == [PowerOff, Kill]
    ensures KillsAreWarned(sent + more) <==> !(more != [] && more[0] == Kill && !Warned(sent))
  {
    if more != [] && more[0] == Kill && !Warned(sent) {
      assert (sent + more)[|sent|] == Kill && (sent + more)[..|sent|] == sent;
    } else {
      assert sent + more[..0] == sent;
      assert more == [PowerOff, Kill] ==> PowerOff in sent + more[..1] by {
        assert more == [PowerOff, Kill] ==> (sent + more[..1])[|sent|] == PowerOff;
      }
      StillWarned(sent, more);
    }
  }

  lemma SentGrows(f: Flags, polls: nat -> Poll, n: nat)
    requires !KillsAreWarned(At(f, polls, n).sent)
    ensures !KillsAreWarned(At(f, polls, n + 1).sent)
  {
    var s, t := At(f, polls, n), At(f, polls, n + 1);
    assert s.sent <= t.sent;
    assert t.sent == s.sent + t.sent[|s.sent|..];
    if KillsAreWarned(t.sent) { SinkingPrefix(s.sent, t.sent[|s.sent|..]); }
  }

  ghost predicate EverUnwarned(f: Flags, polls: nat -> Poll, n: nat) {
    exists m: nat :: m < n && KillsUnwarned(f, polls, m)
  }

  lemma EverUnwarnedStep(f: Flags, polls: nat -> Poll, n: nat)
    ensures EverUnwarned(f, polls, n + 1) <==> EverUnwarned(f, polls, n) || KillsUnwarned(f, polls, n)
  {
    if EverUnwarned(f, polls, n + 1) {
      var m: nat :| m < n + 1 && KillsUnwarned(f, polls, m);
      assert m == n || m < n;
    }
  }

  /** In every run, up to every poll: a SIGKILL without warning was sent if and only if some power-off request went
      through a `vzexec` that ran nothing, before any power-off or SIGINT had reached the container. */
  lemma {:induction false} KillsWarnedUnlessUnheard(f: Flags, polls: nat -> Poll, n: nat)
    ensures KillsAreWarned(At(f, polls, n).sent) <==> !EverUnwarned(f, polls, n)
    ensures KillsAreWarned(At(f, polls, n).sent) && At(f, polls, n).killMode == 2 ==> Int in At(f, polls, n).sent
  {
    if n == 0 {
      assert At(f, polls, 0).sent == [];
    } else {
      KillsWarnedUnlessUnheard(f, polls, n - 1);
      EverUnwarnedStep(f, polls, n - 1);
      if KillsAreWarned(At(f, polls, n - 1).sent) {
        OnePollWarns(f, polls, n - 1);
      } else {
        SentGrows(f, polls, n - 1);
      }
    }
  }

  /** Such a kill does occur: the first interrupt finds the pid file, `vzexec` a moment later does not. */
  lemma UnwarnedKillExample(f: Flags)
    ensures exists polls: nat -> Poll :: At(f, polls, 1).sent == [Kill]
  {
    var c: Counts := seq(NSIG, i => if i == SIGINT then 1 else 0);
    var polls: nat -> Poll := n => Interrupt(c, ShutdownCalls(true, true, true, false, true));
    RaisedMeaning(f, c);
    assert At(f, polls, 0).attend;
    assert At(f, polls, 1).sent == [Kill];
  }
}
