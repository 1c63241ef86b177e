/** The START / DEV_READY / PTY_DONE handshake of the pivot program (utilities/syspvt.c:37-49, 81-187, 326-376,
    736-778, 790-980, 990-1150): two processes, each a loop over numbered phases, that meet over two pipes. Both keep
    every end of both pipes open, so reading an empty pipe waits for ever if nobody writes. */
module ConsoleHandshake {

  const Start := 'S'
  const DevReady := 'D'
  const PtyDone := 'P'

  /** What the world sees: the container's file systems mounted, the console bound, the root pivoted. */
  datatype Event = Mounted | Bound | Pivoted

  datatype Supervisor = Phase(n: nat) | Ended(status: nat)

  /** `Ready` and `Waiting` are the two phases of `dev_now_ready`, inside phase 2; `Running` is after execve. */
  datatype Container = Unborn | At(n: nat) | Ready | Waiting | Running | Over(status: nat)

  /** `con` and `sup` are the characters in the two pipes; `toCon`, `toSup`, `byCon` and `bySup` are all those ever
      written to and read from them. */
  datatype State = State(
    s: Supervisor, c: Container, con: seq<char>, sup: seq<char>, log: seq<Event>,
    toCon: seq<char>, toSup: seq<char>, byCon: seq<char>, bySup: seq<char>)

  const Initial := State(Phase(0), Unborn, [], [], [], [], [], [], [])

  // ----- the supervisor, one phase

  predicate SupEnabled(st: State) {
    match st.s
    case Ended(_) => false
    case Phase(n) =>
      if n == 7 then st.sup != []
      else if n == 10 then st.c.Over?
      else true
  }

  function SupStep(st: State, ok: bool): State
    requires SupEnabled(st)
  {
    var n := st.s.n;
    if n == 7 && ok then
      st.(s := if st.sup[0] == DevReady then Phase(8) else Ended(8),
          sup := st.sup[1..], bySup := st.bySup + [st.sup[0]])
    else if n == 10 then st.(s := Phase(11))
    else if !ok then st.(s := Ended(n + 1))
    else if n == 5 then st.(s := Phase(6), c := At(0))
    else if n == 6 then st.(s := Phase(7), con := st.con + [Start], toCon := st.toCon + [Start])
    else if n == 8 then st.(s := Phase(9), log := st.log + [Bound])
    else if n == 9 then st.(s := Phase(10), con := st.con + [PtyDone], toCon := st.toCon + [PtyDone])
    else if n >= 11 then st.(s := Ended(0))
    else st.(s := Phase(n + 1))
  }

  // ----- the container, one phase

  predicate ContEnabled(st: State) {
    match st.c
    case Unborn => false
    case Over(_) => false
    case At(n) => n == 0 ==> st.con != []
    case Waiting => st.con != []
    case _ => true
  }

  function ContStep(st: State, ok: bool): State
    requires ContEnabled(st)
  {
    match st.c
    case At(n) =>
      if n == 0 && ok then
        st.(c := if st.con[0] == Start then At(1) else Over(1), con := st.con[1..], byCon := st.byCon + [st.con[0]])
      else if 10 <= n < 14 then st.(c := At(n + 1))
      else if !ok then st.(c := Over(n + 1))
      else if n == 2 then st.(c := Ready, log := st.log + [Mounted])
      else if n == 6 then st.(c := At(7), log := st.log + [Pivoted])
      else if n >= 14 then st.(c := Running)
      else st.(c := At(n + 1))
    case Ready =>
      if ok then st.(c := Waiting, sup := st.sup + [DevReady], toSup := st.toSup + [DevReady]) else st.(c := Over(3))
    case Waiting =>
      if ok then
        st.(c := if st.con[0] == PtyDone then At(3) else Over(3), con := st.con[1..], byCon := st.byCon + [st.con[0]])
      else st.(c := Over(3))
    case Running => st.(c := Over(0))
  }

  // ----- runs

  /** One step of one of the two processes; `ok` says whether its call succeeds. */
  datatype Move = Move(supervisor: bool, ok: bool)

  predicate Enabled(st: State, supervisor: bool) {
    if supervisor then SupEnabled(st) else ContEnabled(st)
  }

  function Step(st: State, m: Move): State
    requires Enabled(st, m.supervisor)
  {
    if m.supervisor then SupStep(st, m.ok) else ContStep(st, m.ok)
  }

  /** The moves can be made in turn; and the state they lead to. */
  predicate Legal(st: State, ms: seq<Move>)
    decreases |ms|
  {
    ms == [] || (Enabled(st, ms[0].supervisor) && Legal(Step(st, ms[0]), ms[1..]))
  }

  function Reached(st: State, ms: seq<Move>): State
    requires Legal(st, ms)
    decreases |ms|
  {
    if ms == [] then st else Reached(Step(st, ms[0]), ms[1..])
  }

  // ----- what every step keeps

  function ToConAt(i: nat): char { if i == 0 then Start else PtyDone }
  function LogAt(i: nat): Event { if i == 0 then Mounted else if i == 1 then Bound else Pivoted }

  predicate SupInv(st: State) {
    match st.s
    case Phase(n) =>
      && n <= 11
      && |st.toCon| == (if n < 7 then 0 else if n < 10 then 1 else 2)
      && |st.bySup| == (if n < 8 then 0 else 1)
      && (|st.log| >= 2 <==> n >= 9)
      && (st.c.Unborn? <==> n < 6)
    case Ended(_) =>
      && |st.toCon| <= 2 && |st.bySup| <= 1
      && (|st.toCon| == 2 ==> |st.log| >= 2)
      && (|st.log| >= 2 ==> |st.bySup| == 1)
  }

  predicate ContInv(st: State) {
    match st.c
    case Unborn => |st.byCon| == |st.toSup| == |st.log| == 0
    case At(n) =>
      && n <= 14
      && |st.byCon| == (if n == 0 then 0 else if n < 3 then 1 else 2)
      && |st.toSup| == (if n < 3 then 0 else 1)
      && (|st.log| >= 1 <==> n >= 3)
      && (|st.log| >= 3 <==> n >= 7)
    case Ready => |st.byCon| == 1 && |st.toSup| == 0 && |st.log| == 1
    case Waiting => |st.byCon| == 1 && |st.toSup| == 1 && 1 <= |st.log| <= 2
    case Running => |st.byCon| == 2 && |st.toSup| == 1 && |st.log| == 3
    case Over(_) =>
      && |st.byCon| <= 2 && |st.toSup| <= 1
      && (|st.toSup| == 1 ==> |st.log| >= 1)
      && (|st.log| >= 3 ==> |st.byCon| == 2)
  }

  /** What was written to a pipe is what was read from it followed by what is in it. */
  predicate Pipe(written: seq<char>, read: seq<char>, pipe: seq<char>) {
    && |written| == |read| + |pipe|
    && (forall i :: 0 <= i < |read| ==> read[i] == written[i])
    && (forall i :: 0 <= i < |pipe| ==> pipe[i] == written[|read| + i])
  }

  predicate Inv(st: State) {
    && SupInv(st) && ContInv(st)
    && |st.log| <= 3 && (forall i :: 0 <= i < |st.log| ==> st.log[i] == LogAt(i))
    && (forall i :: 0 <= i < |st.toCon| ==> st.toCon[i] == ToConAt(i))
    && (forall i :: 0 <= i < |st.toSup| ==> st.toSup[i] == DevReady)
    && Pipe(st.toCon, st.byCon, st.con) && Pipe(st.toSup, st.bySup, st.sup)
  }

  /** A character goes into a pipe. */
  lemma PipeIn(written: seq<char>, read: seq<char>, pipe: seq<char>, c: char)
    requires Pipe(written, read, pipe)
    ensures Pipe(written + [c], read, pipe + [c])
  {
  }

  /** The first character of a pipe is read. */
  lemma PipeOut(written: seq<char>, read: seq<char>, pipe: seq<char>)
    requires Pipe(written, read, pipe) && pipe != []
    ensures Pipe(written, read + [pipe[0]], pipe[1..]) && pipe[0] == written[|read|]
  {
  }

  lemma SupReads(st: State, ok: bool)
    requires Inv(st) && SupEnabled(st) && st.s == Phase(7)
    ensures Inv(SupStep(st, ok))
  {
    PipeOut(st.toSup, st.bySup, st.sup);
  }

  lemma SupWrites(st: State, ok: bool)
    requires Inv(st) && SupEnabled(st) && st.s.n in {6, 9}
    ensures Inv(SupStep(st, ok))
  {
    PipeIn(st.toCon, st.byCon, st.con, if st.s.n == 6 then Start else PtyDone);
  }

  lemma SupGoesOn(st: State, ok: bool)
    requires Inv(st) && SupEnabled(st) && st.s.n !in {6, 7, 9}
    ensures Inv(SupStep(st, ok))
  {
  }

  lemma SupKeeps(st: State, ok: bool)
    requires Inv(st) && SupEnabled(st)
    ensures Inv(SupStep(st, ok))
  {
    if st.s.n == 7 { SupReads(st, ok); }
    else if st.s.n in {6, 9} { SupWrites(st, ok); }
    else { SupGoesOn(st, ok); }
  }

  lemma ContReads(st: State, ok: bool)
    requires Inv(st) && ContEnabled(st) && (st.c == At(0) || st.c == Waiting)
    ensures Inv(ContStep(st, ok))
  {
    PipeOut(st.toCon, st.byCon, st.con);
  }

  lemma ContWrites(st: State, ok: bool)
    requires Inv(st) && ContEnabled(st) && st.c == Ready
    ensures Inv(ContStep(st, ok))
  {
    PipeIn(st.toSup, st.bySup, st.sup, DevReady);
  }

  lemma ContGoesOn(st: State, ok: bool)
    requires Inv(st) && ContEnabled(st) && st.c !in {At(0), Waiting, Ready}
    ensures Inv(ContStep(st, ok))
  {
  }

  lemma ContKeeps(st: State, ok: bool)
    requires Inv(st) && ContEnabled(st)
    ensures Inv(ContStep(st, ok))
  {
    if st.c == At(0) || st.c == Waiting { ContReads(st, ok); }
    else if st.c == Ready { ContWrites(st, ok); }
    else { ContGoesOn(st, ok); }
  }

  lemma {:induction false} AllKeep(st: State, ms: seq<Move>)
    requires Inv(st) && Legal(st, ms)
    ensures Inv(Reached(st, ms))
    decreases |ms|
  {
    if ms != [] {
      if ms[0].supervisor { SupKeeps(st, ms[0].ok); } else { ContKeeps(st, ms[0].ok); }
      AllKeep(Step(st, ms[0]), ms[1..]);
    }
  }

  // ----- what holds in every interleaving, whatever fails

  /** The console is bound only after the container's file systems are mounted and only before its root is pivoted;
      and each happens at most once. */
  lemma BoundInBetween(ms: seq<Move>)
    requires Legal(Initial, ms)
    ensures Reached(Initial, ms).log <= [Mounted, Bound, Pivoted]
  {
    AllKeep(Initial, ms);
  }

  /** Each character is written once and read at most once, in order, by the side it is meant for. */
  lemma ConsumedOnce(ms: seq<Move>)
    requires Legal(Initial, ms)
    ensures var st := Reached(Initial, ms);
            && st.byCon <= st.toCon <= [Start, PtyDone] && st.bySup <= st.toSup <= [DevReady]
            && st.byCon + st.con == st.toCon && st.bySup + st.sup == st.toSup
  {
    AllKeep(Initial, ms);
  }

  /** The branches for an unexpected character are dead. */
  lemma NeverUnexpected(ms: seq<Move>)
    requires Legal(Initial, ms)
    ensures var st := Reached(Initial, ms);
            && (st.c == At(0) && st.con != [] ==> st.con[0] == Start)
            && (st.c == Waiting && st.con != [] ==> st.con[0] == PtyDone)
            && (st.s == Phase(7) && st.sup != [] ==> st.sup[0] == DevReady)
  {
    AllKeep(Initial, ms);
  }

  // ----- how a run ends

  predicate Finished(st: State) { st.s.Ended? && (st.c.Over? || st.c.Unborn?) }

  /** Nobody can move though not both are done. */
  predicate Stuck(st: State) {
    !Finished(st) && !SupEnabled(st) && !ContEnabled(st)
  }

  /** The supervisor waits for a container that ended before saying its devices are ready. */
  predicate SupAbandoned(st: State) {
    st.s == Phase(7) && st.c.Over? && |st.toSup| == 0
  }

  /** The container waits for a supervisor that ended before giving the start, or the acknowledgement. */
  predicate ContAbandoned(st: State) {
    st.s.Ended? && ((st.c == At(0) && |st.toCon| == 0) || (st.c == Waiting && |st.toCon| == 1))
  }

  lemma StuckNow(st: State)
    requires Inv(st)
    ensures Stuck(st) <==> SupAbandoned(st) || ContAbandoned(st)
  {
  }

  /** Exactly two situations are stuck, in any run. */
  lemma StuckIff(ms: seq<Move>)
    requires Legal(Initial, ms)
    ensures var st := Reached(Initial, ms); Stuck(st) <==> SupAbandoned(st) || ContAbandoned(st)
  {
    AllKeep(Initial, ms);
    StuckNow(Reached(Initial, ms));
  }

  function Left(st: State): nat {
    (match st.s case Phase(n) => if n <= 12 then 13 - n else 0 case Ended(_) => 0) +
    (match st.c case Unborn => 20
                case At(n) => if n < 3 then 19 - n else if n <= 14 then 17 - n else 0
                case Ready => 16 case Waiting => 15 case Running => 1 case Over(_) => 0)
  }

  lemma StepCosts(st: State, m: Move)
    requires Inv(st) && Enabled(st, m.supervisor)
    ensures Left(Step(st, m)) < Left(st)
  {
  }

  /** No run is longer than 33 steps. */
  lemma {:induction false} RunsAreShort(st: State, ms: seq<Move>)
    requires Inv(st) && Legal(st, ms)
    ensures |ms| + Left(Reached(st, ms)) <= Left(st)
    decreases |ms|
  {
    if ms != [] {
      StepCosts(st, ms[0]);
      if ms[0].supervisor { SupKeeps(st, ms[0].ok); } else { ContKeeps(st, ms[0].ok); }
      RunsAreShort(Step(st, ms[0]), ms[1..]);
    }
  }

  /** Neither side has left early. */
  predicate Clean(st: State) {
    && (st.s.Ended? ==> st.s.status == 0 && |st.toCon| == 2 && |st.bySup| == 1 && st.c.Over?)
    && (st.s == Phase(11) ==> st.c.Over?)
    && (st.c.Over? ==> st.c.status == 0 && |st.byCon| == 2 && |st.toSup| == 1 && |st.log| == 3)
  }

  predicate AllSucceed(ms: seq<Move>) { forall i :: 0 <= i < |ms| ==> ms[i].ok }

  lemma CleanStep(st: State, supervisor: bool)
    requires Inv(st) && Clean(st) && Enabled(st, supervisor)
    ensures Clean(Step(st, Move(supervisor, true)))
  {
  }

  lemma {:induction false} StaysClean(st: State, ms: seq<Move>)
    requires Inv(st) && Clean(st) && Legal(st, ms) && AllSucceed(ms)
    ensures Clean(Reached(st, ms))
    decreases |ms|
  {
    if ms != [] {
      CleanStep(st, ms[0].supervisor);
      if ms[0].supervisor { SupKeeps(st, ms[0].ok); } else { ContKeeps(st, ms[0].ok); }
      StaysClean(Step(st, ms[0]), ms[1..]);
    }
  }

  /** How many steps the two processes have behind them. */
  function Made(st: State): nat {
    (match st.s case Phase(n) => n case Ended(_) => 12) +
    (match st.c case Unborn => 0 case At(n) => if n < 3 then n else n + 2 case Ready => 3 case Waiting => 4
                case Running => 17 case Over(_) => 18)
  }

  lemma StepIsMade(st: State, supervisor: bool)
    requires Inv(st) && Clean(st) && Enabled(st, supervisor)
    ensures Made(Step(st, Move(supervisor, true))) == Made(st) + 1
  {
  }

  lemma {:induction false} StepsAreMade(st: State, ms: seq<Move>)
    requires Inv(st) && Clean(st) && Legal(st, ms) && AllSucceed(ms)
    ensures Made(Reached(st, ms)) == Made(st) + |ms|
    decreases |ms|
  {
    if ms != [] {
      StepIsMade(st, ms[0].supervisor);
      CleanStep(st, ms[0].supervisor);
      if ms[0].supervisor { SupKeeps(st, ms[0].ok); } else { ContKeeps(st, ms[0].ok); }
      StepsAreMade(Step(st, ms[0]), ms[1..]);
    }
  }

  /** When no call fails, no interleaving gets stuck: someone can always move until, after exactly 30 steps, 12 of the
      supervisor and 18 of the container, both have ended with status 0, the file systems mounted, the console bound and
      the root pivoted. */
  lemma WithoutFailures(ms: seq<Move>)
    requires Legal(Initial, ms) && AllSucceed(ms)
    ensures |ms| <= 30
    ensures !Stuck(Reached(Initial, ms))
    ensures Finished(Reached(Initial, ms)) <==> |ms| == 30
    ensures Finished(Reached(Initial, ms)) ==> Complete(Reached(Initial, ms))
  {
    AllKeep(Initial, ms);
    StaysClean(Initial, ms);
    StepsAreMade(Initial, ms);
    var st := Reached(Initial, ms);
    CleanIsNotStuck(st);
    assert Made(st) <= 30 && (Made(st) == 30 <==> Finished(st));
  }

  predicate Complete(st: State) {
    st.s == Ended(0) && st.c == Over(0) && st.log == [Mounted, Bound, Pivoted]
  }

  lemma CleanIsNotStuck(st: State)
    requires Inv(st) && Clean(st)
    ensures !Stuck(st) && (Finished(st) ==> Complete(st))
  {
    StuckNow(st);
  }

  // ----- which failing calls decide that a run gets stuck

  /** The call of this move can fail, and does. */
  predicate Fails(st: State, m: Move) {
    && !m.ok
    && if m.supervisor then st.s.Phase? && st.s.n != 10
       else st.c.Ready? || st.c.Waiting? || (st.c.At? && !(10 <= st.c.n < 14))
  }

  /** The failing call leaves the other side waiting for a character that will never come: in the supervisor, from the
      writing of START to that of PTY_DONE; in the container, up to the writing of DEV_READY. */
  predicate Fatal(st: State, m: Move) {
    if m.supervisor then st.s.Phase? && 6 <= st.s.n <= 9
    else st.c.Ready? || (st.c.At? && st.c.n <= 2)
  }

  /** Nobody will ever wait in vain: the supervisor ended with no container or a finished one, or wrote PTY_DONE. */
  predicate Safe(st: State) {
    (st.s.Ended? && (st.c.Unborn? || st.c.Over?)) || |st.toCon| == 2
  }

  lemma FailureDecides(st: State, m: Move)
    requires Inv(st) && Clean(st) && Enabled(st, m.supervisor) && Fails(st, m)
    ensures if Fatal(st, m) then Stuck(Step(st, m)) else Safe(Step(st, m))
  {
  }

  lemma NoFailure(st: State, m: Move)
    requires Inv(st) && Clean(st) && Enabled(st, m.supervisor) && !Fails(st, m)
    ensures Clean(Step(st, m))
  {
  }

  lemma SafeStep(st: State, m: Move)
    requires Inv(st) && Safe(st) && Enabled(st, m.supervisor)
    ensures Safe(Step(st, m))
  {
  }

  lemma {:induction false} SafeIsNotStuck(st: State, ms: seq<Move>)
    requires Inv(st) && Safe(st) && Legal(st, ms)
    ensures !Stuck(Reached(st, ms))
    decreases |ms|
  {
    if ms == [] {
      StuckNow(st);
    } else {
      SafeStep(st, ms[0]);
      if ms[0].supervisor { SupKeeps(st, ms[0].ok); } else { ContKeeps(st, ms[0].ok); }
      SafeIsNotStuck(Step(st, ms[0]), ms[1..]);
    }
  }

  /** The first failing call of the run is fatal. */
  predicate Doomed(st: State, ms: seq<Move>)
    requires Legal(st, ms)
    decreases |ms|
  {
    ms != [] && if Fails(st, ms[0]) then Fatal(st, ms[0]) else Doomed(Step(st, ms[0]), ms[1..])
  }

  lemma {:induction false} DoomedFrom(st: State, ms: seq<Move>)
    requires Inv(st) && Clean(st) && Legal(st, ms)
    ensures Stuck(Reached(st, ms)) <==> Doomed(st, ms)
    decreases |ms|
  {
    if ms == [] {
      CleanIsNotStuck(st);
    } else {
      var m, next := ms[0], Step(st, ms[0]);
      if m.supervisor { SupKeeps(st, m.ok); } else { ContKeeps(st, m.ok); }
      if !Fails(st, m) {
        NoFailure(st, m);
        DoomedFrom(next, ms[1..]);
      } else {
        FailureDecides(st, m);
        if !Fatal(st, m) {
          SafeIsNotStuck(next, ms[1..]);
        }
      }
    }
  }

  /** In every interleaving: a run is stuck if and only if its first failing call is one of the supervisor's from the
      writing of START to that of PTY_DONE, or one of the container's up to the writing of DEV_READY. */
  lemma StuckByFirstFailure(ms: seq<Move>)
    requires Legal(Initial, ms)
    ensures Stuck(Reached(Initial, ms)) <==> Doomed(Initial, ms)
  {
    DoomedFrom(Initial, ms);
  }

  // ----- what the exit status tells

  datatype Failure = AllWell | InPhase(n: nat)

  /** The phase in which the first failing call of one side is made; `dev_now_ready` is part of phase 2. */
  function FirstFailure(st: State, ms: seq<Move>, supervisor: bool): Failure
    requires Legal(st, ms)
    decreases |ms|
  {
    if ms == [] then AllWell
    else if ms[0].supervisor == supervisor && Fails(st, ms[0]) then
      InPhase(if supervisor then st.s.n else if st.c.At? then st.c.n else 2)
    else FirstFailure(Step(st, ms[0]), ms[1..], supervisor)
  }

  /** The status a side ends with: 0, or the number of the phase of its first failing call, counted from 1. */
  predicate Tells(f: Failure, status: nat) {
    match f case AllWell => status == 0 case InPhase(n) => status == n + 1
  }

  lemma {:induction false} SupEndsOnce(st: State, ms: seq<Move>)
    requires Legal(st, ms) && st.s.Ended?
    ensures Reached(st, ms).s == st.s && FirstFailure(st, ms, true) == AllWell
    decreases |ms|
  {
    if ms != [] {
      SupEndsOnce(Step(st, ms[0]), ms[1..]);
    }
  }

  lemma {:induction false} ContEndsOnce(st: State, ms: seq<Move>)
    requires Legal(st, ms) && st.c.Over? && (st.s.Phase? ==> st.s.n > 5)
    ensures Reached(st, ms).c == st.c && FirstFailure(st, ms, false) == AllWell
    decreases |ms|
  {
    if ms != [] {
      ContEndsOnce(Step(st, ms[0]), ms[1..]);
    }
  }

  lemma SupTurnTells(st: State, m: Move)
    requires Inv(st) && Enabled(st, m.supervisor) && st.s.Phase?
    ensures var t := Step(st, m);
            if m.supervisor && Fails(st, m) then t.s == Ended(st.s.n + 1) else t.s.Ended? ==> t.s.status == 0
  {
  }

  lemma ContTurnTells(st: State, m: Move)
    requires Inv(st) && Enabled(st, m.supervisor) && !st.c.Over?
    ensures var t := Step(st, m);
            if !m.supervisor && Fails(st, m) then t.c == Over(if st.c.At? then st.c.n + 1 else 3)
            else t.c.Over? ==> t.c.status == 0
  {
  }

  lemma {:induction false} SupTells(st: State, ms: seq<Move>)
    requires Inv(st) && Legal(st, ms) && st.s.Phase?
    ensures var s := Reached(st, ms).s;
            && (s.Ended? ==> Tells(FirstFailure(st, ms, true), s.status))
            && (FirstFailure(st, ms, true).InPhase? ==> s.Ended?)
    decreases |ms|
  {
    if ms != [] {
      var next := Step(st, ms[0]);
      SupTurnTells(st, ms[0]);
      if ms[0].supervisor { SupKeeps(st, ms[0].ok); } else { ContKeeps(st, ms[0].ok); }
      if next.s.Ended? { SupEndsOnce(next, ms[1..]); } else { SupTells(next, ms[1..]); }
    }
  }

  lemma {:induction false} ContTells(st: State, ms: seq<Move>)
    requires Inv(st) && Legal(st, ms) && !st.c.Over?
    ensures var c := Reached(st, ms).c;
            && (c.Over? ==> Tells(FirstFailure(st, ms, false), c.status))
            && (FirstFailure(st, ms, false).InPhase? ==> c.Over?)
    decreases |ms|
  {
    if ms != [] {
      var next := Step(st, ms[0]);
      ContTurnTells(st, ms[0]);
      if ms[0].supervisor { SupKeeps(st, ms[0].ok); } else { ContKeeps(st, ms[0].ok); }
      if next.c.Over? { ContEndsOnce(next, ms[1..]); } else { ContTells(next, ms[1..]); }
    }
  }

  /** In every run a process that has ended did so with status 0 if and only if none of its calls failed, and otherwise
      with the number of the phase of its first failing call, counted from 1; and a failing call always ends it. */
  lemma StatusTells(ms: seq<Move>)
    requires Legal(Initial, ms)
    ensures var st := Reached(Initial, ms);
            && (st.s.Ended? ==> Tells(FirstFailure(Initial, ms, true), st.s.status))
            && (st.c.Over? ==> Tells(FirstFailure(Initial, ms, false), st.c.status))
            && (FirstFailure(Initial, ms, true).InPhase? ==> st.s.Ended?)
            && (FirstFailure(Initial, ms, false).InPhase? ==> st.c.Over?)
  {
    SupTells(Initial, ms);
    ContTells(Initial, ms);
  }


  // ----- with failures both situations do occur

  function Repeat(m: Move, n: nat): seq<Move> {
    if n == 0 then [] else Repeat(m, n - 1) + [m]
  }

  lemma {:induction false} OneMore(st: State, ms: seq<Move>, m: Move)
    requires Legal(st, ms) && Enabled(Reached(st, ms), m.supervisor)
    ensures Legal(st, ms + [m]) && Reached(st, ms + [m]) == Step(Reached(st, ms), m)
    decreases |ms|
  {
    if ms == [] {
      assert ms + [m] == [m] && [m][1..] == [];
    } else {
      OneMore(Step(st, ms[0]), ms[1..], m);
      assert (ms + [m])[1..] == ms[1..] + [m];
    }
  }

  /** Where the supervisor is after `n` phases when the container has not moved yet. */
  function Alone(n: nat): State {
    var start := if n < 7 then [] else [Start];
    State(Phase(n), if n < 6 then Unborn else At(0), start, [], [], start, [], [], [])
  }

  lemma AloneStep(n: nat)
    requires n < 7
    ensures SupEnabled(Alone(n)) && SupStep(Alone(n), true) == Alone(n + 1)
  {
  }

  /** The supervisor's first phases go through, `n` of them. */
  lemma {:induction false} SupRuns(n: nat)
    requires n <= 7
    ensures Legal(Initial, Repeat(Move(true, true), n)) && Reached(Initial, Repeat(Move(true, true), n)) == Alone(n)
  {
    if n > 0 {
      SupRuns(n - 1);
      AloneStep(n - 1);
      OneMore(Initial, Repeat(Move(true, true), n - 1), Move(true, true));
    }
  }

  /** The container fails to unshare its cgroup: the supervisor waits for ever for DEV_READY. */
  lemma SupervisorCanHang() returns (ms: seq<Move>)
    ensures Legal(Initial, ms) && SupAbandoned(Reached(Initial, ms))
  {
    SupRuns(7);
    ms := Repeat(Move(true, true), 7);
    OneMore(Initial, ms, Move(false, true));
    ms := ms + [Move(false, true)];
    OneMore(Initial, ms, Move(false, false));
    ms := ms + [Move(false, false)];
  }

  /** The supervisor fails to write START: the container waits for it for ever. */
  lemma ContainerCanHang() returns (ms: seq<Move>)
    ensures Legal(Initial, ms) && ContAbandoned(Reached(Initial, ms))
  {
    SupRuns(6);
    ms := Repeat(Move(true, true), 6);
    OneMore(Initial, ms, Move(true, false));
    ms := ms + [Move(true, false)];
  }

  // ----- the two loops

  /** The two processes with their pipes, each method one turn of one loop. */
  class Processes {
    var phase: nat
    var status: nat
    var proceed: bool
    var cont: Container
    var con: seq<char>
    var sup: seq<char>
    ghost var seen: State

    /** The fields are the current part of the recorded state. */
    ghost predicate Valid()
      reads this
    {
      && seen.s == (if proceed then Phase(phase) else Ended(status)) && (proceed ==> status == 0)
      && seen.c == cont && seen.con == con && seen.sup == sup
    }

    constructor ()
      ensures Valid() && seen == Initial
    {
      phase, status, proceed := 0, 0, true;
      cont, con, sup, seen := Unborn, [], [], Initial;
    }

    method SupervisorTurn(ok: bool)
      requires Valid() && SupEnabled(seen)
      modifies this
      ensures Valid() && seen == SupStep(old(seen), ok)
    {
      var toobad := false;
      seen := SupStep(seen, ok);
      match phase {
        case 5 =>
          if ok { cont := At(0); }
          toobad := !ok;
        case 6 =>
          if ok { con := con + [Start]; }
          toobad := !ok;
        case 7 =>
          if ok {
            var chr := sup[0];
            sup := sup[1..];
            toobad := chr != DevReady;
          } else {
            toobad := true;
          }
        case 9 =>
          if ok { con := con + [PtyDone]; }
          toobad := !ok;
        case 10 =>
        case _ => toobad := !ok;
      }
      if toobad {
        status, proceed := phase + 1, false;
      } else if phase >= 11 {
        proceed := false;
      }
      phase := phase + 1;
    }

    method ContainerTurn(ok: bool)
      requires Valid() && ContEnabled(seen)
      modifies this
      ensures Valid() && seen == ContStep(old(seen), ok)
    {
      seen := ContStep(seen, ok);
      match cont {
        case At(n) =>
          if n == 0 && ok {
            var chr := con[0];
            con := con[1..];
            cont := if chr == Start then At(1) else Over(1);
          } else if 10 <= n < 14 {
            cont := At(n + 1);
          } else if !ok {
            cont := Over(n + 1);
          } else {
            cont := if n == 2 then Ready else if n >= 14 then Running else At(n + 1);
          }
        case Ready =>
          if ok { sup := sup + [DevReady]; }
          cont := if ok then Waiting else Over(3);
        case Waiting =>
          cont := Over(3);
          if ok {
            var chr := con[0];
            con := con[1..];
            if chr == PtyDone { cont := At(3); }
          }
        case Running => cont := Over(0);
      }
    }
  }
}
