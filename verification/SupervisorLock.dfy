/** The pid lock file of a container (lib/unilck.c:34-275) and the supervisors that compete for it
    (app/vzgot.c:1371-1379, 1562-1567).

    Pids are not reused.  One look at the lock file and the create-and-write that follows it are one action: the
    code has nothing that keeps two contenders apart in between. */
module SupervisorLock {
  import opened Options
  import opened BootPhases

  datatype LockFile = Missing | NotRegular | Empty | Garbage | Owner(pid: int)

  /** Answers of the kernel during one `lck_locking` call; `openOk` and `removeOk` are asked once per try. */
  datatype Calls = Calls(dirOk: bool, statOk: bool, creatOk: bool, flockOk: bool, writeOk: bool,
                         openOk: nat -> bool, removeOk: nat -> bool)

  /** prc_checkprocess (lib/subprc.c:65-83). */
  predicate ProcessActive(pid: int, alive: set<int>) {
    pid != 0 && (pid == 1 || pid in alive)
  }

  /** A lock file that a contender may remove: empty, or naming a process that is not active. */
  predicate Removable(file: LockFile, alive: set<int>) {
    file == Empty || (file.Owner? && !ProcessActive(file.pid, alive))
  }

  datatype Look = Take(file: LockFile) | Wait

  /** One try of the loop at lib/unilck.c:180-220: go on to create the file, or wait a second. */
  function LookAt(file: LockFile, alive: set<int>, openOk: bool, removeOk: bool): Look {
    if file == Missing || !openOk then Take(file)
    else if Removable(file, alive) && removeOk then Take(Missing)
    else Wait
  }

  /** Creating the file truncates it; the call reports success even when the pid could not be written. */
  function Create(file: LockFile, me: int, k: Calls): (r: (LockFile, bool)) {
    if !k.creatOk then (file, false)
    else if !k.flockOk then (Empty, false)
    else (if k.writeOk then Owner(me) else Empty, true)
  }

  /** The tries from number `n` on, `left` of them, when the others leave the file as `seen(n)` before try `n`. */
  function Tries(me: int, left: nat, n: nat, seen: nat -> LockFile, alive: nat -> set<int>, k: Calls)
    : (LockFile, bool)
    requires left > 0
    decreases left
  {
    match LookAt(seen(n), alive(n), k.openOk(n), k.removeOk(n))
    case Take(f) => Create(f, me, k)
    case Wait => if left == 1 then (seen(n), false) else Tries(me, left - 1, n + 1, seen, alive, k)
  }

  function LockCall(me: int, tries: int, seen: nat -> LockFile, alive: nat -> set<int>, k: Calls)
    : (LockFile, bool)
  {
    if !k.dirOk then (seen(0), false)
    else if seen(0) == Missing || !k.statOk then Create(seen(0), me, k)
    else if seen(0) == NotRegular then (seen(0), false)
    else if tries <= 0 then Create(seen(0), me, k)
    else Tries(me, tries, 0, seen, alive, k)
  }

  /** The unlock removes a lock file without asking whose it is; its `unlink` removes no directory. */
  function Unlocked(file: LockFile, k: Calls): LockFile {
    if k.dirOk && k.removeOk(0) && file != NotRegular then Missing else file
  }

  class LockDirectory {
    var file: LockFile

    /** lck_locking(ident, LCK_LOCK, tentative): `seen` is what the other processes leave behind before each try,
        the first time being what the call itself finds. */
    method Lock(me: int, tentative: int, seen: nat -> LockFile, alive: nat -> set<int>, k: Calls)
      returns (done: bool)
      requires file == seen(0)
      modifies this
      ensures (file, done) == LockCall(me, tentative, seen, alive, k)
    {
      done := false;
      var phase := 0;
      var f := file;
      while phase <= 8
        invariant 0 <= phase
        invariant phase <= 8 ==> !done
        invariant phase <= 5 ==> f == file == seen(0)
        invariant 1 <= phase <= 8 ==> k.dirOk
        invariant 4 <= phase <= 5 ==> file != Missing && k.statOk
        invariant phase == 5 ==> file != NotRegular
        invariant phase == 6 ==> Create(file, me, k) == LockCall(me, tentative, seen, alive, k)
        invariant phase == 7 ==> file == Empty && k.creatOk
                                 && Create(f, me, k) == LockCall(me, tentative, seen, alive, k)
        invariant phase == 8 ==> file == Empty && k.creatOk && k.flockOk
                                 && Create(f, me, k) == LockCall(me, tentative, seen, alive, k)
        invariant phase > 8 ==> (file, done) == LockCall(me, tentative, seen, alive, k)
        decreases 9 - phase
      {
        match phase {
          case 0 =>
            if !k.dirOk { phase := 999; }
          case 1 =>
          case 2 =>
          case 3 =>
            if file == Missing || !k.statOk { phase := phase + 2; }
          case 4 =>
            if file == NotRegular { phase := 999; }
          case 5 =>
            var gaveUp := WaitForFile(me, tentative, seen, alive, k);
            if gaveUp { phase := 999; }
          case 6 =>
            f := file;
            if k.creatOk { file := Empty; } else { phase := 999; }
          case 7 =>
            if !k.flockOk { phase := 999; }
          case _ =>
            if k.writeOk { file := Owner(me); }
            done := true;
        }
        phase := phase + 1;
      }
    }

    /** The loop that waits for an old lock file to go away. */
    method WaitForFile(me: int, tentative: int, seen: nat -> LockFile, alive: nat -> set<int>, k: Calls)
      returns (gaveUp: bool)
      requires file == seen(0)
      modifies this
      ensures tentative <= 0 ==> !gaveUp && file == old(file)
      ensures tentative > 0 ==>
                Tries(me, tentative, 0, seen, alive, k) == if gaveUp then (file, false) else Create(file, me, k)
    {
      var left := tentative;
      var n := 0;
      gaveUp := false;
      while left > 0
        invariant left <= 0 ==> tentative <= 0 && file == old(file)
        invariant left > 0 ==> Tries(me, tentative, 0, seen, alive, k) == Tries(me, left, n, seen, alive, k)
        invariant !gaveUp
      {
        file := seen(n);
        if file == Missing || !k.openOk(n) {
          break;
        }
        if Removable(file, alive(n)) && k.removeOk(n) {
          file := Missing;
          break;
        }
        left := left - 1;
        n := n + 1;
        if left == 0 {
          gaveUp := true;
          return;
        }
      }
    }

    /** lck_locking(ident, LCK_UNLOCK, 1): it reports success whether or not there was a file to remove. */
    method Unlock(k: Calls) returns (done: bool)
      modifies this
      ensures done == k.dirOk
      ensures file == Unlocked(old(file), k)
    {
      done := false;
      if k.dirOk {
        if k.removeOk(0) && file != NotRegular { file := Missing; }
        done := true;
      }
    }
  }

  // ----- what the call returns and leaves

  /** At try `t` nothing stands in the way any more: no file, one that cannot be opened, or one that is empty or names
      no running process (0, or a pid that is neither 1 nor alive) and that `unlink` removes. */
  predicate Free(t: nat, seen: nat -> LockFile, alive: nat -> set<int>, k: Calls) {
    || seen(t) == Missing
    || !k.openOk(t)
    || (k.removeOk(t) && (seen(t) == Empty
                          || (seen(t).Owner? && (seen(t).pid == 0 || (seen(t).pid != 1 && seen(t).pid !in alive(t))))))
  }

  /** The file once the calls that create it are through: `before` when it cannot be created, else empty or with the
      pid. */
  function Left(before: LockFile, me: int, k: Calls): LockFile {
    if !k.creatOk then before else if k.flockOk && k.writeOk then Owner(me) else Empty
  }

  /** The first free try decides, whatever follows it. */
  lemma {:induction false} FirstFreeTry(me: int, left: nat, n: nat, t: nat, seen: nat -> LockFile,
                                        alive: nat -> set<int>, k: Calls)
    requires n <= t < n + left && Free(t, seen, alive, k)
    requires forall i: nat :: n <= i < t ==> !Free(i, seen, alive, k)
    ensures Tries(me, left, n, seen, alive, k)
         == (Left(if seen(t) == Missing || !k.openOk(t) then seen(t) else Missing, me, k), k.creatOk && k.flockOk)
    decreases left
  {
    if n < t {
      assert !Free(n, seen, alive, k);
      FirstFreeTry(me, left - 1, n + 1, t, seen, alive, k);
    }
  }

  /** Without one the call gives up and leaves the file as it last saw it. */
  lemma {:induction false} NoFreeTry(me: int, left: nat, n: nat, seen: nat -> LockFile, alive: nat -> set<int>,
                                     k: Calls)
    requires left > 0 && forall i: nat :: n <= i < n + left ==> !Free(i, seen, alive, k)
    ensures Tries(me, left, n, seen, alive, k) == (seen(n + (left - 1)), false)
    decreases left
  {
    assert !Free(n, seen, alive, k);
    if left > 1 {
      NoFreeTry(me, left - 1, n + 1, seen, alive, k);
    }
  }

  /** The first free try from number `n` on, or `n + left` when there is none. */
  function FirstFree(left: nat, n: nat, seen: nat -> LockFile, alive: nat -> set<int>, k: Calls): (t: nat)
    ensures n <= t <= n + left && (t < n + left ==> Free(t, seen, alive, k))
    ensures forall i: nat :: n <= i < t ==> !Free(i, seen, alive, k)
    decreases left
  {
    if left == 0 || Free(n, seen, alive, k) then n else FirstFree(left - 1, n + 1, seen, alive, k)
  }

  /** The lock call returns true if and only if the lock directory, `creat` and `flock` work, and the file is missing or
      cannot be looked at, or is a regular file and either no tries are asked for or one of them is free. */
  lemma LockMeaning(me: int, tries: int, seen: nat -> LockFile, alive: nat -> set<int>, k: Calls)
    ensures LockCall(me, tries, seen, alive, k).1 <==>
              && k.dirOk && k.creatOk && k.flockOk
              && (|| seen(0) == Missing
                  || !k.statOk
                  || (seen(0) != NotRegular && (tries <= 0 || exists t: nat :: t < tries && Free(t, seen, alive, k))))
  {
    if tries > 0 { TriesSucceed(me, tries, 0, seen, alive, k); }
  }

  /** The tries get the lock exactly when one of them is free and the create and flock calls work. */
  lemma TriesSucceed(me: int, left: nat, n: nat, seen: nat -> LockFile, alive: nat -> set<int>, k: Calls)
    requires left > 0
    ensures Tries(me, left, n, seen, alive, k).1 <==>
              k.creatOk && k.flockOk && exists t: nat :: n <= t < n + left && Free(t, seen, alive, k)
    ensures Tries(me, left, n, seen, alive, k).1 ==>
              Tries(me, left, n, seen, alive, k).0 == if k.writeOk then Owner(me) else Empty
  {
    var t := FirstFree(left, n, seen, alive, k);
    if t < n + left {
      FirstFreeTry(me, left, n, t, seen, alive, k);
    } else {
      NoFreeTry(me, left, n, seen, alive, k);
    }
  }

  /** A call that returns true leaves its own pid in the file, or an empty file when the pid could not be written. */
  lemma LockedFile(me: int, tries: int, seen: nat -> LockFile, alive: nat -> set<int>, k: Calls)
    requires LockCall(me, tries, seen, alive, k).1
    ensures LockCall(me, tries, seen, alive, k).0 == if k.writeOk then Owner(me) else Empty
  {
    if tries > 0 { TriesLeave(me, tries, seen, alive, k); }
  }

  /** A refused call leaves the file that was there, but for two cases: it removed a stale file that it could not create
      anew, or it created the file and could not `flock` it. */
  lemma RefusedFile(me: int, tries: int, seen: nat -> LockFile, alive: nat -> set<int>, k: Calls)
    requires !LockCall(me, tries, seen, alive, k).1
    ensures var file := LockCall(me, tries, seen, alive, k).0;
            || (exists t: nat :: t < (if tries <= 0 then 1 else tries) && file == seen(t))
            || (file == Missing && !k.creatOk && exists t: nat :: t < tries && Free(t, seen, alive, k) && k.removeOk(t))
            || (file == Empty && k.creatOk && !k.flockOk)
  {
    if tries > 0 { TriesLeave(me, tries, seen, alive, k); }
  }

  lemma TriesLeave(me: int, tries: nat, seen: nat -> LockFile, alive: nat -> set<int>, k: Calls)
    requires tries > 0
    ensures var (file, done) := Tries(me, tries, 0, seen, alive, k);
            if done then file == if k.writeOk then Owner(me) else Empty
            else
              || (exists t: nat :: t < tries && file == seen(t))
              || (file == Missing && !k.creatOk
                  && exists t: nat :: t < tries && Free(t, seen, alive, k) && k.removeOk(t))
              || (file == Empty && k.creatOk && !k.flockOk)
  {
    var t := FirstFree(tries, 0, seen, alive, k);
    if t < tries {
      FirstFreeTry(me, tries, 0, t, seen, alive, k);
    } else {
      NoFreeTry(me, tries, 0, seen, alive, k);
    }
  }

  // ----- any number of supervisors of one container

  /** A supervisor: its control state, the tries it has left in body 1, and whether its process exists. */
  datatype Supervisor = Supervisor(ctl: Control, left: int, alive: bool)

  datatype World = World(file: LockFile, sups: map<int, Supervisor>)

  /** The answers one action of a supervisor gets: `k` for the lock file, `o` for any other body. */
  datatype Answer = Answer(k: Calls, o: Outcome)

  datatype Action = Spawn(pid: int) | Act(pid: int, a: Answer) | Exits(pid: int)

  const Tentative := 5

  function Alive(w: World): set<int> { set p | p in w.sups && w.sups[p].alive }

  predicate CanAct(w: World, pid: int) {
    pid in w.sups && w.sups[pid].alive && w.sups[pid].ctl.Run?
  }

  predicate Enabled(w: World, x: Action) {
    match x
    case Spawn(pid) => pid > 1 && pid !in w.sups
    case Act(pid, _) => CanAct(w, pid)
    case Exits(pid) => pid in w.sups && w.sups[pid].alive
  }

  /** One action: a try of the lock call with the creation that may follow, the unlock, or another body. */
  function Step(w: World, x: Action): World
    requires Enabled(w, x)
  {
    match x
    case Spawn(pid) => w.(sups := w.sups[pid := Supervisor(Start, Tentative, true)])
    case Exits(pid) => w.(sups := w.sups[pid := w.sups[pid].(alive := false)])
    case Act(pid, a) =>
      var s := w.sups[pid];
      if s.ctl.body == 1 then
        LockStep(w, pid, a.k)
      else if s.ctl.body == 20 then
        World(Unlocked(w.file, a.k), w.sups[pid := s.(ctl := After(s.ctl, a.o))])
      else
        w.(sups := w.sups[pid := s.(ctl := After(s.ctl, a.o))])
  }

  /** One try of body 1.  The first one also finds the directory and looks at what stands under the lock's name. */
  function LockStep(w: World, pid: int, k: Calls): World
    requires CanAct(w, pid) && w.sups[pid].ctl.body == 1
  {
    var s := w.sups[pid];
    var first := FirstTry(s);
    var lost := s.(ctl := After(s.ctl, Outcome(false, 0)));
    if first && (!k.dirOk || (k.statOk && w.file == NotRegular)) then
      w.(sups := w.sups[pid := lost])
    else
      var look := if first && !k.statOk then Take(w.file) else LookAt(w.file, Alive(w), k.openOk(0), k.removeOk(0));
      match look
      case Wait => w.(sups := w.sups[pid := if s.left <= 1 then lost else s.(left := s.left - 1)])
      case Take(f) =>
        var (file, done) := Create(f, pid, k);
        World(file, w.sups[pid := if done then s.(ctl := After(s.ctl, Outcome(true, 0))) else lost])
  }

  predicate FirstTry(s: Supervisor) { s.left == Tentative }

  /** `stat`, asked once, and `open` let this try look at an existing lock file. */
  predicate Looks(s: Supervisor, k: Calls) { (FirstTry(s) ==> k.statOk) && k.openOk(0) }

  /** The directory, asked for once, is there. */
  predicate Finds(s: Supervisor, k: Calls) { FirstTry(s) ==> k.dirOk }

  /** The supervisor is between its lock and its unlock. */
  predicate Critical(s: Supervisor) { s.alive && s.ctl.Run? && 2 <= s.ctl.body <= 20 }

  /** What an action must not run into: a configuration that cannot be loaded, a lock file that exists but cannot
      be looked at, a pid that cannot be written. */
  predicate Sound(w: World, x: Action)
    requires Enabled(w, x)
  {
    x.Act? ==>
      var b := w.sups[x.pid].ctl.body;
      && (b == 0 ==> x.a.o.ok)
      && (b == 1 ==> Looks(w.sups[x.pid], x.a.k) && x.a.k.writeOk)
  }

  ghost predicate Inv(w: World) {
    && (w.file == Missing || w.file == Empty || w.file.Owner?)
    && (w.file.Owner? ==> w.file.pid in w.sups && w.file.pid > 1)
    && (forall p :: p in w.sups ==> p > 1 && (w.sups[p].ctl.Run? ==> w.sups[p].ctl.body <= 21)
                                    && (Critical(w.sups[p]) ==> w.file == Owner(p)))
  }

  /** `w` can be reached in `n` actions, all of them sound. */
  ghost predicate Reachable(w: World, n: nat)
    decreases n
  {
    if n == 0 then w == World(Missing, map[])
    else exists v, x :: Reachable(v, n - 1) && Enabled(v, x) && Sound(v, x) && w == Step(v, x)
  }

  lemma StepKeepsInv(w: World, x: Action)
    requires Inv(w) && Enabled(w, x) && Sound(w, x)
    ensures Inv(Step(w, x))
  {
    var v := Step(w, x);
    forall p | p in v.sups
      ensures p > 1 && (v.sups[p].ctl.Run? ==> v.sups[p].ctl.body <= 21) && (Critical(v.sups[p]) ==> v.file == Owner(p))
    {
      assert p in w.sups || x == Spawn(p);
    }
  }

  lemma {:induction false} ReachableInv(w: World, n: nat)
    requires Reachable(w, n)
    ensures Inv(w)
    decreases n
  {
    if n > 0 {
      var v, x :| Reachable(v, n - 1) && Enabled(v, x) && Sound(v, x) && w == Step(v, x);
      ReachableInv(v, n - 1);
      StepKeepsInv(v, x);
    }
  }

  /** Over all runs of any number of supervisors, at most one is between its lock and its unlock, and the lock file
      names it. */
  lemma MutualExclusion(w: World, n: nat, p: int, q: int)
    requires Reachable(w, n) && p in w.sups && q in w.sups && Critical(w.sups[p]) && Critical(w.sups[q])
    ensures p == q && w.file == Owner(p)
  {
    ReachableInv(w, n);
  }

  /** A supervisor that tries to lock while another one is critical is refused, and leaves the lock file alone,
      exactly when it could look at the file (or gave up before that, or could not create it): a failed `stat` or
      `open` is taken for a missing file. */
  lemma RefusedIffLooked(w: World, p: int, q: int, k: Calls)
    requires Inv(w) && p in w.sups && Critical(w.sups[p])
    requires CanAct(w, q) && w.sups[q].ctl.body == 1
    ensures LockStep(w, q, k).file == Owner(p) && !Critical(LockStep(w, q, k).sups[q])
            <==> !Finds(w.sups[q], k) || Looks(w.sups[q], k) || !k.creatOk
  {
    assert p in Alive(w);
  }

  /** A lock file never outlives its owner: whenever no live process is named in it, a supervisor that looks at it
      with working calls gets the lock at once. */
  lemma StaleLockNeverBlocks(w: World, n: nat, q: int, k: Calls)
    requires Reachable(w, n) && CanAct(w, q) && w.sups[q].ctl.body == 1
    requires k.dirOk && k.creatOk && k.flockOk && k.writeOk && k.removeOk(0)
    requires w.file.Owner? ==> w.file.pid !in Alive(w)
    ensures LockStep(w, q, k).sups[q].ctl == Run(2, w.sups[q].ctl.status) && LockStep(w, q, k).file == Owner(q)
  {
    ReachableInv(w, n);
  }

  /** The loser of the lock ends with status 1 and never becomes critical: it runs no cleanup. */
  lemma LoserIsOut(w: World, q: int, k: Calls)
    requires CanAct(w, q) && w.sups[q].ctl.body == 1
    ensures var s := LockStep(w, q, k).sups[q];
            s.ctl in {Run(1, w.sups[q].ctl.status), Run(2, w.sups[q].ctl.status), Halt(1)}
    ensures LockStep(w, q, k).sups[q].ctl == Run(2, w.sups[q].ctl.status) ==>
              LockStep(w, q, k).file == if k.writeOk then Owner(q) else Empty
  {
  }

  /** The owner's unlock frees the lock: the next supervisor that tries with working calls gets it at once. */
  lemma UnlockFrees(w: World, p: int, a: Answer, q: int, k: Calls)
    requires CanAct(w, p) && w.sups[p].ctl.body == 20 && w.file == Owner(p) && a.k.dirOk && a.k.removeOk(0)
    requires q != p && CanAct(w, q) && w.sups[q].ctl.body == 1 && k.dirOk && k.creatOk && k.flockOk && k.writeOk
    ensures var v := Step(w, Act(p, a));
            && v.file == Missing && !Critical(v.sups[p]) && CanAct(v, q) && v.sups[q].ctl.body == 1
            && LockStep(v, q, k).file == Owner(q) && LockStep(v, q, k).sups[q].ctl == Run(2, w.sups[q].ctl.status)
  {
  }

  /** An unlock changes the file only by removing it: when the directory is found and `unlink` works. */
  lemma UnlockMeaning(file: LockFile, k: Calls)
    ensures Unlocked(file, k) != file <==> k.dirOk && k.removeOk(0) && file != Missing && file != NotRegular
    ensures Unlocked(file, k) != file ==> Unlocked(file, k) == Missing
  {
  }

  /** And so does its end, however it comes: the file then names a process that is gone. */
  lemma ExitFrees(w: World, n: nat, p: int, q: int, k: Calls)
    requires Reachable(w, n) && Enabled(w, Exits(p)) && w.file == Owner(p)
    requires q != p && CanAct(w, q) && w.sups[q].ctl.body == 1
    requires k.dirOk && k.creatOk && k.flockOk && k.writeOk && k.removeOk(0)
    ensures var v := Step(w, Exits(p));
            && !Critical(v.sups[p]) && CanAct(v, q) && v.sups[q].ctl.body == 1
            && LockStep(v, q, k).file == Owner(q) && LockStep(v, q, k).sups[q].ctl == Run(2, w.sups[q].ctl.status)
  {
    ReachableInv(w, n);
    assert p !in Alive(Step(w, Exits(p)));
  }

  // ----- the tries of body 1 are one lock call

  /** The rest of a lock call that has made `n` tries. */
  function CallFrom(me: int, n: nat, seen: nat -> LockFile, alive: nat -> set<int>, k: Calls): (LockFile, bool)
    requires n < Tentative
  {
    if n == 0 then LockCall(me, Tentative, seen, alive, k) else Tries(me, Tentative - n, n, seen, alive, k)
  }

  /** The answers `k` of one try are those of the whole call `all` at its try number `n`. */
  predicate AnswersOf(k: Calls, all: Calls, n: nat) {
    && k.openOk(0) == all.openOk(n) && k.removeOk(0) == all.removeOk(n)
    && (n == 0 ==> k.dirOk == all.dirOk && k.statOk == all.statOk)
    && k.creatOk == all.creatOk && k.flockOk == all.flockOk && k.writeOk == all.writeOk
  }

  /** Body 1 is over. */
  predicate Decided(s: Supervisor) { s.ctl != Run(1, s.ctl.status) }

  /** One try: it either waits, and the rest of the call is what is left to do, or it ends the call with its result. */
  lemma OneTry(w: World, me: int, k: Calls, n: nat, seen: nat -> LockFile, alive: nat -> set<int>, all: Calls)
    requires CanAct(w, me) && w.sups[me].ctl.body == 1 && n < Tentative && w.sups[me].left == Tentative - n
    requires w.file == seen(n) && Alive(w) == alive(n) && AnswersOf(k, all, n)
    ensures var v := LockStep(w, me, k);
            if Decided(v.sups[me]) then
              CallFrom(me, n, seen, alive, all) == (v.file, Critical(v.sups[me]))
            else
              && n + 1 < Tentative && v.file == w.file && CanAct(v, me) && v.sups[me].left == Tentative - (n + 1)
              && CallFrom(me, n, seen, alive, all) == CallFrom(me, n + 1, seen, alive, all)
  {
    assert CallFrom(me, n, seen, alive, all) ==
             if n == 0 && (!all.dirOk || seen(0) == Missing || !all.statOk || seen(0) == NotRegular)
             then LockCall(me, Tentative, seen, alive, all) else Tries(me, Tentative - n, n, seen, alive, all);
  }

  /** In the run `xs` supervisor `me` is in body 1 all along; its tries, from number `n` on, find the files `seen`
      and the processes `alive`, and get the answers `all`. */
  ghost predicate InBodyOne(w: World, xs: seq<Action>, me: int, n: nat, seen: nat -> LockFile, alive: nat -> set<int>,
                            all: Calls)
    requires Exec(w, xs).Some?
    decreases |xs|
  {
    xs != [] ==>
      && CanAct(w, me) && w.sups[me].ctl.body == 1
      && if xs[0].Act? && xs[0].pid == me then
           && w.file == seen(n) && Alive(w) == alive(n) && AnswersOf(xs[0].a.k, all, n)
           && InBodyOne(Step(w, xs[0]), xs[1..], me, n + 1, seen, alive, all)
         else
           InBodyOne(Step(w, xs[0]), xs[1..], me, n, seen, alive, all)
  }

  /** The tries from number `n` on are the rest of the call. */
  lemma {:induction false} TriesAreOneCall(w: World, xs: seq<Action>, me: int, n: nat, seen: nat -> LockFile,
                                           alive: nat -> set<int>, all: Calls)
    requires xs != [] && Exec(w, xs).Some? && InBodyOne(w, xs, me, n, seen, alive, all)
    requires n < Tentative && w.sups[me].left == Tentative - n
    requires xs[|xs| - 1].Act? && xs[|xs| - 1].pid == me && me in Exec(w, xs).value.sups
    requires Decided(Exec(w, xs).value.sups[me])
    ensures (Exec(w, xs).value.file, Critical(Exec(w, xs).value.sups[me])) == CallFrom(me, n, seen, alive, all)
    decreases |xs|
  {
    var v := Step(w, xs[0]);
    if xs[0].Act? && xs[0].pid == me {
      OneTry(w, me, xs[0].a.k, n, seen, alive, all);
      if |xs| > 1 { TriesAreOneCall(v, xs[1..], me, n + 1, seen, alive, all); }
    } else {
      TriesAreOneCall(v, xs[1..], me, n, seen, alive, all);
    }
  }

  /** However the actions of the others come in between, the tries of a supervisor in body 1 are together one call
      of `LockDirectory.Lock` with five tries: when its last action ends body 1, the file is the one the call
      leaves, and it has become critical if and only if the call returns true. */
  lemma BodyOneIsOneCall(w: World, xs: seq<Action>, me: int, seen: nat -> LockFile, alive: nat -> set<int>, all: Calls)
    requires xs != [] && Exec(w, xs).Some? && InBodyOne(w, xs, me, 0, seen, alive, all) && FirstTry(w.sups[me])
    requires xs[|xs| - 1].Act? && xs[|xs| - 1].pid == me && me in Exec(w, xs).value.sups
    requires Decided(Exec(w, xs).value.sups[me])
    ensures (Exec(w, xs).value.file, Critical(Exec(w, xs).value.sups[me])) == LockCall(me, 5, seen, alive, all)
  {
    TriesAreOneCall(w, xs, me, 0, seen, alive, all);
  }

  // ----- exactly when exclusion is lost

  ghost predicate TwoCritical(w: World) {
    exists p, q :: p in w.sups && q in w.sups && p != q && Critical(w.sups[p]) && Critical(w.sups[q])
  }

  ghost predicate OtherCritical(w: World, q: int) {
    exists p :: p in w.sups && p != q && Critical(w.sups[p])
  }

  ghost predicate BodiesExist(w: World) {
    forall p :: p in w.sups && w.sups[p].ctl.Run? ==> w.sups[p].ctl.body <= 21
  }

  /** A lock attempt obtains the lock: it gets past the look at the file, and can create and flock it. */
  predicate Obtains(w: World, q: int, k: Calls)
    requires q in w.sups
  {
    && var s := w.sups[q];
       && Finds(s, k) && k.creatOk && k.flockOk
       && (FirstTry(s) && k.statOk ==> w.file != NotRegular)
       && (w.file == Missing || !Looks(s, k) || (Removable(w.file, Alive(w)) && k.removeOk(0)))
  }

  /** The action brings a supervisor among the critical ones: a configuration failure, or the lock. */
  predicate Enters(w: World, x: Action)
    requires Enabled(w, x)
  {
    x.Act? &&
    var b := w.sups[x.pid].ctl.body;
    (b == 0 && !x.a.o.ok) || (b == 1 && Obtains(w, x.pid, x.a.k))
  }

  lemma LockEnters(w: World, q: int, k: Calls)
    requires CanAct(w, q) && w.sups[q].ctl.body == 1
    ensures Critical(LockStep(w, q, k).sups[q]) <==> Obtains(w, q, k)
    ensures forall p :: p in w.sups && p != q ==> p in LockStep(w, q, k).sups && LockStep(w, q, k).sups[p] == w.sups[p]
    ensures forall p :: p in LockStep(w, q, k).sups ==> p in w.sups
  {
    LoserIsOut(w, q, k);
  }

  /** An action makes its own supervisor critical exactly by entering or by having been so, and it makes no other. */
  lemma ActEnters(w: World, x: Action)
    requires Enabled(w, x) && x.Act? && BodiesExist(w)
    ensures var v := Step(w, x);
            && v.sups.Keys == w.sups.Keys && BodiesExist(v)
            && (forall p :: p in w.sups && p != x.pid ==> v.sups[p] == w.sups[p])
            && (Critical(v.sups[x.pid]) ==> Enters(w, x) || Critical(w.sups[x.pid]))
            && (Enters(w, x) ==> Critical(v.sups[x.pid]) && !Critical(w.sups[x.pid]))
  {
    if w.sups[x.pid].ctl.body == 1 {
      LockEnters(w, x.pid, x.a.k);
    }
  }

  /** From any world with at most one critical supervisor, whatever happened before: an action makes a second one if and
      only if it lets a supervisor enter while another one is critical. */
  lemma SecondCriticalIff(w: World, x: Action)
    requires Enabled(w, x) && BodiesExist(w) && !TwoCritical(w)
    ensures TwoCritical(Step(w, x)) <==> Enters(w, x) && OtherCritical(w, x.pid)
    ensures BodiesExist(Step(w, x))
  {
    var v := Step(w, x);
    if x.Act? {
      ActEnters(w, x);
      if Enters(w, x) && OtherCritical(w, x.pid) {
        var p :| p in w.sups && p != x.pid && Critical(w.sups[p]);
        assert p in v.sups && x.pid in v.sups && Critical(v.sups[p]) && Critical(v.sups[x.pid]);
      }
      if TwoCritical(v) {
        var p, q :| p in v.sups && q in v.sups && p != q && Critical(v.sups[p]) && Critical(v.sups[q]);
        OneIsNew(w, v, x.pid, p, q);
      }
    } else {
      assert forall p :: p in v.sups && Critical(v.sups[p]) ==> p in w.sups && Critical(w.sups[p]);
    }
  }

  lemma OneIsNew(w: World, v: World, r: int, p: int, q: int)
    requires w.sups.Keys == v.sups.Keys && r in w.sups && p in w.sups && q in w.sups && p != q && !TwoCritical(w)
    requires Critical(v.sups[p]) && Critical(v.sups[q])
    requires forall s :: s in w.sups && s != r ==> v.sups[s] == w.sups[s]
    ensures r == p || r == q
    ensures !Critical(w.sups[r]) && OtherCritical(w, r)
  {
    if r != p {
      assert v.sups[p] == w.sups[p];
    }
    if r != q {
      assert v.sups[q] == w.sups[q];
    }
  }

  /** From a world of a run without failures of the three kinds: exclusion is lost if and only if a critical supervisor
      exists and another one fails to load its configuration, or fails to look at the lock file and can create it. */
  lemma LostFromSoundWorld(w: World, x: Action)
    requires Inv(w) && Enabled(w, x)
    ensures TwoCritical(Step(w, x)) <==>
            && x.Act? && OtherCritical(w, x.pid)
            && var s, k := w.sups[x.pid], x.a.k;
               var b := s.ctl.body;
               (b == 0 && !x.a.o.ok) || (b == 1 && Finds(s, k) && !Looks(s, k) && k.creatOk && k.flockOk)
  {
    SecondCriticalIff(w, x);
    if x.Act? && OtherCritical(w, x.pid) {
      var p :| p in w.sups && p != x.pid && Critical(w.sups[p]);
      assert p in Alive(w) && w.file == Owner(p);
    }
  }

  /** A supervisor whose pid could not be written holds an empty file: another one then gets the lock too if and only if
      it can remove that file or cannot look at it, and can create it. */
  lemma UnwrittenPid(w: World, p: int, k: Calls, q: int, l: Calls)
    requires Inv(w) && CanAct(w, p) && w.sups[p].ctl.body == 1 && Obtains(w, p, k) && !k.writeOk && !OtherCritical(w, p)
    requires CanAct(w, q) && w.sups[q].ctl.body == 1 && p != q
    ensures var v := LockStep(w, p, k);
            && v.file == Empty && Critical(v.sups[p]) && CanAct(v, q)
            && (TwoCritical(LockStep(v, q, l)) <==>
                Finds(w.sups[q], l) && l.creatOk && l.flockOk && (!Looks(w.sups[q], l) || l.removeOk(0)))
  {
    var x, y := Act(p, Answer(k, Outcome(true, 0))), Act(q, Answer(l, Outcome(true, 0)));
    var v := LockStep(w, p, k);
    LockEnters(w, p, k);
    SecondCriticalIff(w, x);
    assert Step(w, x) == v;
    SecondCriticalIff(v, y);
    assert Step(v, y) == LockStep(v, q, l);
    assert OtherCritical(v, q);
  }

  // ----- over whole runs

  /** The world after some actions, if they are possible one after the other. */
  ghost function Exec(w: World, xs: seq<Action>): Option<World>
    decreases |xs|
  {
    if xs == [] then Some(w) else if !Enabled(w, xs[0]) then None else Exec(Step(w, xs[0]), xs[1..])
  }

  /** At no point of the run two supervisors are critical. */
  ghost predicate Exclusive(w: World, xs: seq<Action>)
    requires Exec(w, xs).Some?
    decreases |xs|
  {
    !TwoCritical(w) && (xs == [] || Exclusive(Step(w, xs[0]), xs[1..]))
  }

  /** At no point of the run a supervisor enters while another one is critical. */
  ghost predicate NoneBreaksIn(w: World, xs: seq<Action>)
    requires Exec(w, xs).Some?
    decreases |xs|
  {
    xs == [] || (!(Enters(w, xs[0]) && OtherCritical(w, xs[0].pid)) && NoneBreaksIn(Step(w, xs[0]), xs[1..]))
  }

  /** A run is exclusive throughout if and only if nobody enters, by a configuration failure or by a lock attempt that
      obtains the lock, while another one is critical. */
  lemma {:induction false} ExclusiveIff(w: World, xs: seq<Action>)
    requires Exec(w, xs).Some? && BodiesExist(w) && !TwoCritical(w)
    ensures Exclusive(w, xs) <==> NoneBreaksIn(w, xs)
    decreases |xs|
  {
    if xs != [] {
      SecondCriticalIff(w, xs[0]);
      if !TwoCritical(Step(w, xs[0])) {
        ExclusiveIff(Step(w, xs[0]), xs[1..]);
      }
    }
  }

  const Nobody := World(Missing, map[])

  /** How many actions of a run are not sound. */
  ghost function Unsound(w: World, xs: seq<Action>): nat
    requires Exec(w, xs).Some?
    decreases |xs|
  {
    if xs == [] then 0 else (if Sound(w, xs[0]) then 0 else 1) + Unsound(Step(w, xs[0]), xs[1..])
  }

  const Working := Calls(true, true, true, true, true, n => true, n => true)

  function Go(pid: int, k: Calls, ok: bool): Action { Act(pid, Answer(k, Outcome(ok, 0))) }

  function Sup(body: nat): Supervisor { Supervisor(Run(body, 0), Tentative, true) }

  /** Supervisor 7 loads its configuration and locks with the calls `k`; supervisor 9 begins. */
  function Opening(k: Calls): seq<Action> {
    [Spawn(7), Go(7, Working, true), Go(7, k, true), Spawn(9)]
  }

  lemma Opened(k: Calls)
    requires k == Working || k == Working.(writeOk := false)
    ensures var v := World(if k.writeOk then Owner(7) else Empty, map[7 := Sup(2), 9 := Sup(0)]);
            Exec(Nobody, Opening(k)) == Some(v) && Unsound(Nobody, Opening(k)) == if k.writeOk then 0 else 1
  {
    var xs := Opening(k);
    var w1 := World(Missing, map[7 := Sup(0)]);
    var w2 := World(Missing, map[7 := Sup(1)]);
    var w3 := World(if k.writeOk then Owner(7) else Empty, map[7 := Sup(2)]);
    var w4 := w3.(sups := map[7 := Sup(2), 9 := Sup(0)]);
    assert Step(Nobody, xs[0]) == w1;
    assert Step(w1, xs[1]) == w2;
    assert Step(w2, xs[2]) == w3;
    assert Step(w3, xs[3]) == w4;
    assert xs[3..] == [xs[3]] && xs[2..] == [xs[2]] + xs[3..] && xs[1..] == [xs[1]] + xs[2..];
    OneAction(w3, xs[3], []);
    OneAction(w2, xs[2], xs[3..]);
    OneAction(w1, xs[1], xs[2..]);
    OneAction(Nobody, xs[0], xs[1..]);
  }

  lemma OneAction(w: World, x: Action, xs: seq<Action>)
    requires Enabled(w, x)
    ensures Exec(w, [x] + xs) == Exec(Step(w, x), xs)
    ensures Exec(Step(w, x), xs).Some? ==>
              Unsound(w, [x] + xs) == (if Sound(w, x) then 0 else 1) + Unsound(Step(w, x), xs)
  {
    assert ([x] + xs)[1..] == xs;
  }

  lemma {:induction false} Joined(w: World, xs: seq<Action>, ys: seq<Action>)
    requires Exec(w, xs).Some?
    ensures Exec(w, xs + ys) == Exec(Exec(w, xs).value, ys)
    ensures Exec(w, xs + ys).Some? ==> Unsound(w, xs + ys) == Unsound(w, xs) + Unsound(Exec(w, xs).value, ys)
    decreases |xs|
  {
    if xs == [] {
      assert xs + ys == ys;
    } else {
      assert (xs + ys)[1..] == xs[1..] + ys;
      Joined(Step(w, xs[0]), xs[1..], ys);
    }
  }

  lemma TwoOf(file: LockFile, body: nat)
    requires 2 <= body <= 20
    ensures TwoCritical(World(file, map[7 := Sup(2), 9 := Sup(body)]))
  {
    var w := World(file, map[7 := Sup(2), 9 := Sup(body)]);
    assert Critical(w.sups[7]) && Critical(w.sups[9]);
  }

  /** One failure is enough, in a run from the start: supervisor 9 cannot load its configuration and jumps into the
      cleanup while 7 is at work. */
  lemma ConfigFailureBreaksIt() returns (xs: seq<Action>)
    ensures Exec(Nobody, xs).Some? && Unsound(Nobody, xs) == 1 && TwoCritical(Exec(Nobody, xs).value)
  {
    var x := Go(9, Working, false);
    var v := World(Owner(7), map[7 := Sup(2), 9 := Sup(0)]);
    Opened(Working);
    OneAction(v, x, []);
    assert [x] + [] == [x];
    Joined(Nobody, Opening(Working), [x]);
    assert Step(v, x) == World(Owner(7), map[7 := Sup(2), 9 := Sup(16)]);
    TwoOf(Owner(7), 16);
    xs := Opening(Working) + [x];
  }

  /** Supervisor 9 cannot open the lock file of 7, takes it for missing and overwrites it. */
  lemma UnopenedLockBreaksIt() returns (xs: seq<Action>)
    ensures Exec(Nobody, xs).Some? && Unsound(Nobody, xs) == 1 && TwoCritical(Exec(Nobody, xs).value)
    ensures Exec(Nobody, xs).value.file == Owner(9)
  {
    var x, y := Go(9, Working, true), Go(9, Working.(openOk := n => false), true);
    var v := World(Owner(7), map[7 := Sup(2), 9 := Sup(0)]);
    var u := World(Owner(7), map[7 := Sup(2), 9 := Sup(1)]);
    Opened(Working);
    assert Step(v, x) == u;
    OneAction(u, y, []);
    OneAction(v, x, [y]);
    assert [y] + [] == [y];
    Joined(Nobody, Opening(Working), [x] + [y]);
    assert Step(u, y) == World(Owner(9), map[7 := Sup(2), 9 := Sup(2)]);
    TwoOf(Owner(9), 2);
    xs := Opening(Working) + ([x] + [y]);
  }

  /** Supervisor 7 cannot write its pid, and 9 removes the empty lock file. */
  lemma UnwrittenPidBreaksIt() returns (xs: seq<Action>)
    ensures Exec(Nobody, xs).Some? && Unsound(Nobody, xs) == 1 && TwoCritical(Exec(Nobody, xs).value)
  {
    var k := Working.(writeOk := false);
    var x := Go(9, Working, true);
    var v := World(Empty, map[7 := Sup(2), 9 := Sup(0)]);
    var u := World(Empty, map[7 := Sup(2), 9 := Sup(1)]);
    Opened(k);
    assert Step(v, x) == u;
    OneAction(u, x, []);
    OneAction(v, x, [x]);
    assert [x] + [] == [x];
    Joined(Nobody, Opening(k), [x] + [x]);
    assert Step(u, x) == World(Owner(9), map[7 := Sup(2), 9 := Sup(2)]);
    TwoOf(Owner(9), 2);
    xs := Opening(k) + ([x] + [x]);
  }
}
