/** One supervisor, its console loggers and its cloned containers (app/vzgot.c:633-763, 1076-1099, 1380-1573).

    The supervisor executes the bodies of `BootPhases`; `fork` and `clone3` copy its descriptor table; the three
    kinds of process then interleave call by call, any call may fail, and any process may die at any time.
    Descriptors are numbers: a table maps a number to what it refers to, a close removes a number whatever it
    refers to by then, and the kernel may hand out any unused number.  A reboot starts a new attempt with a new
    pipe, pty, logger and clone, while processes of earlier attempts may still be alive. */
module Lifecycle {
  import opened Options
  import opened BootPhases

  /** What a descriptor refers to; the index is the attempt that created the pipe or the pty. */
  datatype Object = PipeR(a: nat) | PipeW(a: nat) | Master(a: nat) | Slave(a: nat)

  type Table = map<int, Object>

  /** `sync_pipe[0]`, `sync_pipe[1]`, `slave_fd` and `pty_master_fd`: plain numbers that go stale on close. */
  datatype Vars = Vars(sync0: int, sync1: int, slave: int, master: int)

  datatype Milestone = PidFile | StartTime | CgroupMove | IdMap | NetworkUp | Clearance

  const Full := [PidFile, StartTime, CgroupMove, IdMap, NetworkUp, Clearance]

  datatype LoggerPc = LClose0 | LClose1 | LCloseSlave | LTrack | LDead
  datatype Ended = NoClearance | Killed | AfterBoot
  datatype ClonePc = CCloseMaster | CCloseSlave | CCloseW | CRead | CBoot | CDead(how: Ended)

  datatype Logger = NoLogger | Logger(pc: LoggerPc, fds: Table, v: Vars)
  datatype Clone = NoClone | Clone(pc: ClonePc, fds: Table, v: Vars)

  /** One attempt: its pipe and processes, and whether its cleanup was cut short: `interrupted` when a signal
      ended the wait for the logger, `dirty` when the cgroups could not be removed. */
  datatype Attempt = Attempt(done: seq<Milestone>, piped: bool, bytes: nat, logger: Logger, clone: Clone,
                             interrupted: bool, dirty: bool)

  /** `sub` counts the calls already made inside bodies 12 and 16. */
  datatype Supervisor = Supervisor(ctl: Control, sub: nat, v: Vars, fds: Table, waits: Option<nat>, alive: bool)

  datatype World = World(sup: Supervisor, atts: seq<Attempt>, devMounted: bool, cgroups: bool)

  /** How the kernel answered: `ok` as in `Outcome`; `partly` when the body's first resource was obtained even if
      a later call failed; `fd0`, `fd1` the numbers handed out (a negative `fd0` is the failed open's -1); `kept` when
      a failed set-up of /dev leaves an older mount in place. */
  datatype Reply = Reply(ok: bool, partly: bool, attend: int, fd0: int, fd1: int, kept: bool)

  datatype Action =
    | SupDo(r: Reply) | SupDies
    | LoggerDo(i: nat) | LoggerDies(i: nat)
    | CloneDo(i: nat) | CloneDies(i: nat)

  const Begin := World(Supervisor(Start, 0, Vars(0, 0, 0, -1), map[], None, true), [], false, false)
  const NewAttempt := Attempt([], false, 0, NoLogger, NoClone, false, false)

  function Close(t: Table, fd: int): Table { t - {fd} }

  predicate Holds(t: Table, x: Object) { exists n | n in t :: t[n] == x }

  predicate Held(w: World, x: Object) {
    || Holds(w.sup.fds, x)
    || exists j | 0 <= j < |w.atts| ::
         || (w.atts[j].logger.Logger? && Holds(w.atts[j].logger.fds, x))
         || (w.atts[j].clone.Clone? && Holds(w.atts[j].clone.fds, x))
  }

  function Cur(w: World): nat { if w.atts == [] then 0 else |w.atts| - 1 }

  function SetCur(w: World, att: Attempt): World {
    if w.atts == [] then w else w.(atts := w.atts[Cur(w) := att])
  }

  /** `waitpid(cont->logger_pid)` in body 16 does not return by itself. */
  predicate WaitBlocked(w: World) {
    && w.sup.waits.Some? && w.sup.waits.value < |w.atts|
    && var l := w.atts[w.sup.waits.value].logger;
       l.Logger? && l.pc != LDead
  }

  predicate SupEnabled(w: World, r: Reply) {
    var s := w.sup;
    && s.alive && s.ctl.Run?
    && (r.ok ==> r.partly)
    && var b := s.ctl.body;
       && (b == 3 && r.ok ==> 0 <= r.fd0 && 0 <= r.fd1 && r.fd0 != r.fd1 && r.fd0 !in s.fds && r.fd1 !in s.fds)
       && ((b == 4 || b == 7) && r.partly ==> 0 <= r.fd0 && r.fd0 !in s.fds)
       && (b == 16 && s.sub == 1 && WaitBlocked(w) ==> !r.ok)
       && (b == 18 && r.ok ==> w.devMounted)
  }

  predicate Enabled(w: World, a: Action) {
    match a
    case SupDo(r) => SupEnabled(w, r)
    case SupDies => w.sup.alive
    case LoggerDo(i) =>
      && i < |w.atts| && w.atts[i].logger.Logger?
      && (match w.atts[i].logger.pc
          case LTrack => !Held(w, Slave(i))       // the read of the master ends once nobody holds the slave
          case LDead => false
          case _ => true)
    case LoggerDies(i) => i < |w.atts| && w.atts[i].logger.Logger? && w.atts[i].logger.pc != LDead
    case CloneDo(i) =>
      && i < |w.atts| && w.atts[i].clone.Clone?
      && (match w.atts[i].clone.pc
          case CRead => w.atts[i].bytes > 0 || !Held(w, PipeW(i))
          case CBoot => false
          case CDead(_) => false
          case _ => true)
    case CloneDies(i) => i < |w.atts| && w.atts[i].clone.Clone? && !w.atts[i].clone.pc.CDead?
  }

  function SupStep(w: World, r: Reply): World
    requires SupEnabled(w, r)
  {
    var s := w.sup;
    var b := s.ctl.body;
    var next := After(s.ctl, Outcome(r.ok, r.attend));
    var a := Cur(w);
    var t := s.(ctl := next);
    if b == 2 then
      w.(sup := t, atts := w.atts + [NewAttempt])
    else if b == 3 && r.ok then
      var x := if w.atts == [] then w else SetCur(w, w.atts[a].(piped := true));
      x.(sup := t.(v := s.v.(sync0 := r.fd0, sync1 := r.fd1),
                   fds := s.fds[r.fd0 := PipeR(a)][r.fd1 := PipeW(a)]))
    else if b == 4 then
      if r.partly then w.(sup := t.(v := s.v.(master := r.fd0), fds := s.fds[r.fd0 := Master(a)]))
      else w.(sup := t.(v := s.v.(master := -1)))
    else if b == 5 then
      w.(sup := t, cgroups := true)
    else if b == 6 then
      w.(sup := t, devMounted := r.partly || (w.devMounted && r.kept))
    else if b == 7 && r.partly then
      var v := s.v.(slave := r.fd0);
      var fds := s.fds[r.fd0 := Slave(a)];
      var u := t.(v := v, fds := fds);
      if r.ok && w.atts != [] then
        SetCur(w, w.atts[a].(logger := Logger(LClose0, fds, v))).(sup := u.(waits := Some(a)))
      else
        w.(sup := u.(waits := None))
    else if b == 7 then
      w.(sup := t.(v := s.v.(slave := if r.fd0 < 0 then -1 else s.v.slave)))
    else if b == 8 && r.ok && w.atts != [] then
      SetCur(w, w.atts[a].(clone := Clone(CCloseMaster, s.fds, s.v))).(sup := t.(fds := Close(s.fds, s.v.sync0)))
    else if b == 9 && w.atts != [] then
      SetCur(w, w.atts[a].(done := w.atts[a].done + (if r.partly then [PidFile] else [])
                                   + (if r.ok then [StartTime] else []))).(sup := t)
    else if b == 10 && w.atts != [] then
      SetCur(w, w.atts[a].(done := w.atts[a].done + [CgroupMove, IdMap])).(sup := t)
    else if b == 11 && r.ok && w.atts != [] then
      SetCur(w, w.atts[a].(done := w.atts[a].done + [NetworkUp])).(sup := t)
    else if b == 12 && s.sub == 0 then
      var u := s.(sub := 1);
      if r.ok && w.atts != [] then
        SetCur(w, w.atts[a].(done := w.atts[a].done + [Clearance], bytes := w.atts[a].bytes + 1)).(sup := u)
      else
        w.(sup := u)
    else if b == 12 then
      w.(sup := t.(sub := 0, fds := Close(s.fds, s.v.sync1)))
    else if b == 16 && s.sub == 0 then
      w.(sup := s.(sub := 1, fds := Close(Close(s.fds, s.v.slave), s.v.master)))
    else if b == 16 && s.sub == 1 then
      var u := s.(sub := 2);
      if WaitBlocked(w) && w.atts != [] then SetCur(w, w.atts[a].(interrupted := true)).(sup := u)
      else w.(sup := u)
    else if b == 16 then
      if s.v.sync0 >= 0 || s.v.sync1 >= 0 then
        w.(sup := t.(sub := 0, fds := Close(s.fds, s.v.sync1), v := s.v.(sync1 := -1)))
      else
        w.(sup := t.(sub := 0))
    else if b == 17 then
      var x := w.(sup := t, cgroups := w.cgroups && !r.ok);
      if w.atts != [] then SetCur(x, w.atts[a].(dirty := !r.ok)) else x
    else if b == 18 then
      w.(sup := t, devMounted := w.devMounted && !r.ok)
    else
      w.(sup := t)
  }

  function LoggerStep(l: Logger): Logger
    requires l.Logger? && l.pc != LDead
  {
    match l.pc
    case LClose0 => Logger(LClose1, Close(l.fds, l.v.sync0), l.v)
    case LClose1 => Logger(LCloseSlave, Close(l.fds, l.v.sync1), l.v)
    case LCloseSlave => Logger(LTrack, Close(l.fds, l.v.slave), l.v)
    case LTrack => Logger(LDead, map[], l.v)
  }

  /** One call of the clone.  Booting opens the console, the slave side of this attempt's pty, as descriptor 1. */
  function CloneStep(att: Attempt, i: nat): Attempt
    requires att.clone.Clone? && !att.clone.pc.CBoot? && !att.clone.pc.CDead?
  {
    var c := att.clone;
    match c.pc
    case CCloseMaster => att.(clone := Clone(CCloseSlave, Close(c.fds, c.v.master), c.v))
    case CCloseSlave => att.(clone := Clone(CCloseW, Close(c.fds, c.v.slave), c.v))
    case CCloseW => att.(clone := Clone(CRead, Close(c.fds, c.v.sync1), c.v))
    case CRead =>
      if att.bytes > 0 then
        att.(bytes := att.bytes - 1, clone := Clone(CBoot, c.fds[1 := Slave(i)], c.v.(slave := 1)))
      else
        att.(clone := Clone(CDead(NoClearance), map[], c.v))
  }

  function Step(w: World, a: Action): World
    requires Enabled(w, a)
  {
    match a
    case SupDo(r) => SupStep(w, r)
    case SupDies => w.(sup := w.sup.(alive := false, fds := map[]))
    case LoggerDo(i) => w.(atts := w.atts[i := w.atts[i].(logger := LoggerStep(w.atts[i].logger))])
    case LoggerDies(i) => w.(atts := w.atts[i := w.atts[i].(logger := Logger(LDead, map[], w.atts[i].logger.v))])
    case CloneDo(i) => w.(atts := w.atts[i := CloneStep(w.atts[i], i)])
    case CloneDies(i) =>
      var c := w.atts[i].clone;
      var how := if c.pc == CBoot then AfterBoot else Killed;
      w.(atts := w.atts[i := w.atts[i].(clone := Clone(CDead(how), map[], c.v))])
  }

  // ----- the invariant

  /** A descriptor of a process that belongs to attempt `i`: write end, master and slave only while `wr`, `ms`,
      `sl` allow one, of this attempt, and at the number the process remembers. */
  predicate Fits(x: Object, n: int, v: Vars, i: int, wr: bool, ms: bool, sl: bool) {
    match x
    case PipeR(j) => j <= i
    case PipeW(j) => wr && j == i && n == v.sync1
    case Master(j) => ms && j == i && n == v.master
    case Slave(j) => sl && j == i && n == v.slave
  }

  ghost predicate TableOk(t: Table, v: Vars, i: int, wr: bool, ms: bool, sl: bool) {
    forall n :: n in t ==> 0 <= n && Fits(t[n], n, v, i, wr, ms, sl)
  }

  ghost predicate Has(t: Table, n: int, x: Object) { n in t && t[n] == x }

  predicate WriteOpen(b: nat) { 4 <= b <= 12 || b == 16 }
  predicate MasterOpen(b: nat, sub: nat) { 5 <= b <= 15 || (b == 16 && sub == 0) }
  predicate SlaveOpen(b: nat, sub: nat) { 8 <= b <= 15 || (b == 16 && sub == 0) }

  ghost predicate SupOk(w: World) {
    var s := w.sup;
    var i := |w.atts| - 1;
    if !s.alive then s.fds == map[]
    else if s.ctl.Halt? then
      TableOk(s.fds, s.v, i, false, false, false)
    else
      var b := s.ctl.body;
      && b <= 21
      && TableOk(s.fds, s.v, i, WriteOpen(b), MasterOpen(b, s.sub), SlaveOpen(b, s.sub))
      && (b <= 1 ==> w.atts == [])
      && (3 <= b <= 15 ==> w.atts != [])
      && (b != 12 && b != 16 ==> s.sub == 0)
      && (b == 12 ==> s.sub <= 1) && (b == 16 ==> s.sub <= 2)
      && (4 <= b <= 8 ==> Has(s.fds, s.v.sync0, PipeR(i)))
      && (4 <= b <= 12 ==> Has(s.fds, s.v.sync1, PipeW(i)))
      && (5 <= b <= 15 ==> Has(s.fds, s.v.master, Master(i)))
      && (8 <= b <= 15 ==> Has(s.fds, s.v.slave, Slave(i)))
      && (8 <= b <= 15 ==> s.waits == Some(i))
      && (w.atts != [] ==> CurrentOk(w.atts[i], b, s.sub))
      && (7 <= b <= 15 ==> w.devMounted)
      && (b in {0, 1, 2, 19, 20, 21} ==> !w.devMounted)
  }

  /** What the body about to run says about the current attempt. */
  ghost predicate CurrentOk(att: Attempt, b: nat, sub: nat) {
    && (3 <= b <= 8 ==> att.clone == NoClone)
    && (3 <= b <= 7 ==> att.logger == NoLogger)
    && (8 <= b <= 15 ==> att.logger.Logger?)
    && (9 <= b <= 15 ==> att.clone.Clone?)
    && (3 <= b <= 9 ==> att.done == [])
    && (b == 10 ==> att.done == Full[..2])
    && (b == 11 ==> att.done == Full[..4])
    && (b == 12 && sub == 0 ==> att.done == Full[..5])
  }

  function Consumed(c: Clone): nat {
    if c.Clone? && (c.pc == CBoot || c.pc == CDead(AfterBoot)) then 1 else 0
  }

  ghost predicate LoggerOk(l: Logger, i: nat) {
    l.Logger? ==> TableOk(l.fds, l.v, i, l.pc == LClose0 || l.pc == LClose1, true,
                          l.pc == LClose0 || l.pc == LClose1 || l.pc == LCloseSlave)
  }

  predicate Undecided(c: Clone) { c.Clone? && c.pc in {CCloseMaster, CCloseSlave, CCloseW, CRead} }

  ghost predicate CloneOk(c: Clone, i: nat) {
    c.Clone? ==>
      && TableOk(c.fds, c.v, i, c.pc in {CCloseMaster, CCloseSlave, CCloseW}, c.pc == CCloseMaster,
                 c.pc in {CCloseMaster, CCloseSlave, CBoot})
      && (Undecided(c) ==> Has(c.fds, c.v.sync0, PipeR(i))
                           && c.v.sync0 != c.v.sync1 && c.v.sync0 != c.v.slave && c.v.sync0 != c.v.master)
  }

  ghost predicate AttemptOk(w: World, i: nat)
    requires i < |w.atts|
  {
    var att := w.atts[i];
    && LoggerOk(att.logger, i) && CloneOk(att.clone, i) && (att.clone.Clone? ==> att.logger.Logger?)
    && |att.done| <= 6 && att.done == Full[..|att.done|]
    && att.bytes + Consumed(att.clone) <= 1
    && (att.bytes + Consumed(att.clone) == 1 ==> att.done == Full)
    && (att.done == Full && Undecided(att.clone) ==> att.bytes == 1)
    && (att.clone.Clone? && att.clone.pc == CDead(NoClearance) ==>
          att.done != Full && !Holds(w.sup.fds, PipeW(i)))
  }

  predicate LoggerGone(l: Logger) { l.Logger? ==> l.pc == LDead }

  /** What the cleanup bodies have achieved for the current attempt, and where its read end is. */
  ghost predicate TidyOk(w: World) {
    w.sup.alive && w.sup.ctl.Run? && w.atts != [] ==>
      var s, b, i := w.sup, w.sup.ctl.body, |w.atts| - 1;
      var att := w.atts[i];
      && (att.logger.Logger? ==> s.waits == Some(i))
      && ((b == 16 && s.sub == 2) || b >= 17 || b == 2 ==> att.interrupted || LoggerGone(att.logger))
      && (b >= 18 || b == 2 ==> (w.cgroups ==> att.dirty))
      && (forall n :: n in s.fds && s.fds[n] == PipeR(i) ==> n == s.v.sync0 && att.piped && att.clone == NoClone)
      && (b == 3 ==> !att.piped) && (4 <= b <= 15 ==> att.piped)
      && (b == 16 && s.sub == 0 && att.piped && att.clone == NoClone ==>
            Has(s.fds, s.v.sync0, PipeR(i)) && s.v.master != s.v.sync0)
      && (b == 16 && att.piped && att.clone == NoClone ==> s.v.sync1 != s.v.sync0)
      && ((b == 16 && s.sub > 0) || b >= 17 || b == 2 ==>
            (Holds(s.fds, PipeR(i)) <==> att.piped && att.clone == NoClone && s.v.sync0 != s.v.slave))
  }

  ghost predicate Inv(w: World) {
    && SupOk(w) && TidyOk(w)
    && (forall i :: 0 <= i < |w.atts| ==> AttemptOk(w, i))
  }

  lemma BeginOk()
    ensures Inv(Begin)
  {
  }

  /** Steps of a logger or a clone change one attempt's process; the supervisor's facts survive. */
  lemma KidStepOk(w: World, i: nat, att: Attempt)
    requires Inv(w) && i < |w.atts|
    requires att.(bytes := 0, logger := NoLogger, clone := NoClone)
          == w.atts[i].(bytes := 0, logger := NoLogger, clone := NoClone)
    requires LoggerGone(w.atts[i].logger) ==> LoggerGone(att.logger)
    requires w.atts[i].logger.Logger? ==> att.logger.Logger?
    requires w.atts[i].clone.Clone? ==> att.clone.Clone?
    requires w.atts[i].logger == NoLogger ==> att.logger == NoLogger
    requires w.atts[i].clone == NoClone ==> att.clone == NoClone
    requires AttemptOk(w.(atts := w.atts[i := att]), i)
    ensures Inv(w.(atts := w.atts[i := att]))
  {
    var x := w.(atts := w.atts[i := att]);
    forall j | 0 <= j < |x.atts| ensures AttemptOk(x, j) {
      assert j != i ==> AttemptOk(w, j);
    }
  }

  lemma LoggerActionOk(w: World, a: Action)
    requires Inv(w) && Enabled(w, a) && (a.LoggerDo? || a.LoggerDies?)
    ensures Inv(Step(w, a))
  {
    assert AttemptOk(w, a.i);
    KidStepOk(w, a.i, Step(w, a).atts[a.i]);
  }

  lemma CloneStepKeeps(w: World, i: nat)
    requires i < |w.atts| && AttemptOk(w, i) && Enabled(w, CloneDo(i))
    ensures AttemptOk(Step(w, CloneDo(i)), i)
  {
    var x := Step(w, CloneDo(i));
    var c, d := w.atts[i].clone, x.atts[i].clone;
    assert CloneOk(d, i);
    if c.pc == CRead && w.atts[i].bytes == 0 {
      assert !Held(w, PipeW(i));
    }
  }

  /** A call of the clone changes nothing of its attempt but the clone and the pipe. */
  lemma CloneStepShape(att: Attempt, i: nat)
    requires att.clone.Clone? && !att.clone.pc.CBoot? && !att.clone.pc.CDead?
    ensures var x := CloneStep(att, i);
            && x.clone.Clone? && x.logger == att.logger
            && x.(bytes := 0, clone := NoClone) == att.(bytes := 0, clone := NoClone)
  {
  }

  lemma CloneDoOk(w: World, i: nat)
    requires Inv(w) && Enabled(w, CloneDo(i))
    ensures Inv(Step(w, CloneDo(i)))
  {
    var att := w.atts[i];
    var x := CloneStep(att, i);
    assert AttemptOk(w, i);
    CloneStepKeeps(w, i);
    CloneStepShape(att, i);
    KidStepOk(w, i, x);
  }

  lemma CloneDeathKeeps(w: World, i: nat)
    requires i < |w.atts| && AttemptOk(w, i) && Enabled(w, CloneDies(i))
    ensures AttemptOk(Step(w, CloneDies(i)), i)
  {
  }

  lemma CloneDiesOk(w: World, i: nat)
    requires Inv(w) && Enabled(w, CloneDies(i))
    ensures Inv(Step(w, CloneDies(i)))
  {
    assert AttemptOk(w, i);
    CloneDeathKeeps(w, i);
    KidStepOk(w, i, Step(w, CloneDies(i)).atts[i]);
  }

  /** Bodies that neither open nor close a descriptor keep the supervisor's own facts. */
  lemma SupSetupOk(w: World, r: Reply)
    requires SupOk(w) && TidyOk(w) && SupEnabled(w, r) && w.sup.ctl.body in {2, 5, 6, 9, 10, 11}
    ensures SupOk(SupStep(w, r))
  {
  }

  lemma SupPlainOk(w: World, r: Reply)
    requires SupOk(w) && TidyOk(w) && SupEnabled(w, r) && w.sup.ctl.body !in {2, 3, 4, 5, 6, 7, 8, 9, 10, 11, 12, 16}
    ensures SupOk(SupStep(w, r))
  {
  }

  lemma SupOpensOk(w: World, r: Reply)
    requires SupOk(w) && TidyOk(w) && SupEnabled(w, r) && w.sup.ctl.body in {3, 4, 7}
    ensures SupOk(SupStep(w, r))
  {
  }

  lemma SupClonesOk(w: World, r: Reply)
    requires SupOk(w) && TidyOk(w) && SupEnabled(w, r) && w.sup.ctl.body == 8
    ensures SupOk(SupStep(w, r))
  {
  }

  lemma SupClearsOk(w: World, r: Reply)
    requires SupOk(w) && TidyOk(w) && SupEnabled(w, r) && w.sup.ctl.body == 12
    ensures SupOk(SupStep(w, r))
  {
  }

  lemma SupClosesOk(w: World, r: Reply)
    requires SupOk(w) && TidyOk(w) && SupEnabled(w, r) && w.sup.ctl.body == 16
    ensures SupOk(SupStep(w, r))
  {
  }

  /** An attempt whose processes, pipe and milestones are untouched stays as it was, as long as the supervisor
      did not get hold of a write end that the attempt has ruled out. */
  lemma AttemptFrame(w: World, x: World, j: nat)
    requires j < |w.atts| && j < |x.atts| && AttemptOk(w, j)
    requires x.atts[j].(piped := false, interrupted := false, dirty := false)
          == w.atts[j].(piped := false, interrupted := false, dirty := false)
    requires Holds(x.sup.fds, PipeW(j)) ==> Holds(w.sup.fds, PipeW(j)) || w.atts[j].clone == NoClone
    ensures AttemptOk(x, j)
  {
  }

  lemma SupClosesKeepsAttempt(w: World, r: Reply, j: nat)
    requires SupOk(w) && SupEnabled(w, r) && j < |w.atts| && AttemptOk(w, j) && w.sup.ctl.body == 16
    ensures AttemptOk(SupStep(w, r), j)
  {
    assert forall n :: n in SupStep(w, r).sup.fds ==> n in w.sup.fds && SupStep(w, r).sup.fds[n] == w.sup.fds[n];
    AttemptFrame(w, SupStep(w, r), j);
  }

  lemma SupIdleKeepsAttempt(w: World, r: Reply, j: nat)
    requires SupOk(w) && SupEnabled(w, r) && j < |w.atts| && AttemptOk(w, j)
    requires w.sup.ctl.body !in {3, 4, 7, 8, 9, 10, 11, 12, 16}
    ensures AttemptOk(SupStep(w, r), j)
  {
    assert forall n :: n in SupStep(w, r).sup.fds ==> n in w.sup.fds && SupStep(w, r).sup.fds[n] == w.sup.fds[n];
    AttemptFrame(w, SupStep(w, r), j);
  }

  lemma SupOpensKeepsAttempt(w: World, r: Reply, j: nat)
    requires SupOk(w) && SupEnabled(w, r) && j < |w.atts| && AttemptOk(w, j) && w.sup.ctl.body in {3, 4}
    ensures AttemptOk(SupStep(w, r), j)
  {
    AttemptFrame(w, SupStep(w, r), j);
  }

  lemma SupForksKeepsAttempt(w: World, r: Reply, j: nat)
    requires SupOk(w) && SupEnabled(w, r) && j < |w.atts| && AttemptOk(w, j) && w.sup.ctl.body in {7, 8}
    ensures AttemptOk(SupStep(w, r), j)
  {
    assert Holds(SupStep(w, r).sup.fds, PipeW(j)) ==> Holds(w.sup.fds, PipeW(j));
  }

  lemma SupMarksKeepsAttempt(w: World, r: Reply, j: nat)
    requires SupOk(w) && SupEnabled(w, r) && j < |w.atts| && AttemptOk(w, j) && w.sup.ctl.body in {10, 11}
    ensures AttemptOk(SupStep(w, r), j)
  {
    assert SupStep(w, r).sup.fds == w.sup.fds;
  }

  lemma SupStartsKeepsAttempt(w: World, r: Reply, j: nat)
    requires SupOk(w) && SupEnabled(w, r) && j < |w.atts| && AttemptOk(w, j) && w.sup.ctl.body == 9
    ensures AttemptOk(SupStep(w, r), j)
  {
    assert SupStep(w, r).sup.fds == w.sup.fds;
  }

  lemma SupClearsKeepsAttempt(w: World, r: Reply, j: nat)
    requires SupOk(w) && SupEnabled(w, r) && j < |w.atts| && AttemptOk(w, j) && w.sup.ctl.body == 12
    ensures AttemptOk(SupStep(w, r), j)
  {
    assert Holds(SupStep(w, r).sup.fds, PipeW(j)) ==> Holds(w.sup.fds, PipeW(j));
  }

  lemma SupSetupTidy(w: World, r: Reply)
    requires SupOk(w) && TidyOk(w) && SupEnabled(w, r) && w.sup.ctl.body <= 6 && w.sup.ctl.body !in {3, 4}
    ensures TidyOk(SupStep(w, r))
  {
  }

  lemma SupBootsTidy(w: World, r: Reply)
    requires SupOk(w) && TidyOk(w) && SupEnabled(w, r) && 10 <= w.sup.ctl.body <= 11
    ensures TidyOk(SupStep(w, r))
  {
  }

  lemma SupStartsTidy(w: World, r: Reply)
    requires SupOk(w) && TidyOk(w) && SupEnabled(w, r) && w.sup.ctl.body == 9
    ensures TidyOk(SupStep(w, r))
  {
  }

  lemma SupClearsTidy(w: World, r: Reply)
    requires SupOk(w) && TidyOk(w) && SupEnabled(w, r) && w.sup.ctl.body == 12
    ensures TidyOk(SupStep(w, r))
  {
  }

  lemma SupWatchesTidy(w: World, r: Reply)
    requires SupOk(w) && TidyOk(w) && SupEnabled(w, r) && 13 <= w.sup.ctl.body <= 15
    ensures TidyOk(SupStep(w, r))
  {
  }

  lemma SupOpensTidy(w: World, r: Reply)
    requires SupOk(w) && TidyOk(w) && SupEnabled(w, r) && w.sup.ctl.body in {3, 4, 7, 8}
    ensures TidyOk(SupStep(w, r))
  {
  }

  /** Closing the console ends: the read end stays unless its number is that of the slave. */
  lemma SupHangsUpTidy(w: World, r: Reply)
    requires SupOk(w) && TidyOk(w) && SupEnabled(w, r) && w.sup.ctl.body == 16 && w.sup.sub == 0
    ensures TidyOk(SupStep(w, r))
  {
    var x := SupStep(w, r);
    if w.atts != [] {
      var read := PipeR(Cur(w));
      if w.atts[Cur(w)].piped && w.atts[Cur(w)].clone == NoClone && w.sup.v.sync0 != w.sup.v.slave {
        assert w.sup.v.sync0 in x.sup.fds && x.sup.fds[w.sup.v.sync0] == read;
      }
      assert Holds(x.sup.fds, read) ==> Holds(w.sup.fds, read);
    }
  }

  lemma SupAwaitsTidy(w: World, r: Reply)
    requires SupOk(w) && TidyOk(w) && SupEnabled(w, r) && w.sup.ctl.body == 16 && w.sup.sub == 1
    ensures TidyOk(SupStep(w, r))
  {
    assert SupStep(w, r).sup.fds == w.sup.fds;
  }

  lemma SupDropsPipeTidy(w: World, r: Reply)
    requires SupOk(w) && TidyOk(w) && SupEnabled(w, r) && w.sup.ctl.body == 16 && w.sup.sub == 2
    ensures TidyOk(SupStep(w, r))
  {
    var x := SupStep(w, r);
    if w.atts != [] {
      var read := PipeR(Cur(w));
      if Holds(w.sup.fds, read) {
        assert w.sup.v.sync0 in x.sup.fds && x.sup.fds[w.sup.v.sync0] == read;
      }
      assert Holds(x.sup.fds, read) ==> Holds(w.sup.fds, read);
    }
  }

  lemma SupClosesTidy(w: World, r: Reply)
    requires SupOk(w) && TidyOk(w) && SupEnabled(w, r) && w.sup.ctl.body == 16
    ensures TidyOk(SupStep(w, r))
  {
    if w.sup.sub == 0 { SupHangsUpTidy(w, r); }
    else if w.sup.sub == 1 { SupAwaitsTidy(w, r); }
    else { SupDropsPipeTidy(w, r); }
  }

  lemma SupCleanupTidy(w: World, r: Reply)
    requires SupOk(w) && TidyOk(w) && SupEnabled(w, r) && w.sup.ctl.body > 16
    ensures TidyOk(SupStep(w, r))
  {
  }

  lemma SupKeepsAttempt(w: World, r: Reply, j: nat)
    requires SupOk(w) && SupEnabled(w, r) && j < |w.atts| && AttemptOk(w, j)
    ensures AttemptOk(SupStep(w, r), j)
  {
    var b := w.sup.ctl.body;
    if b in {7, 8} { SupForksKeepsAttempt(w, r, j); }
    else if b == 9 { SupStartsKeepsAttempt(w, r, j); }
    else if b in {10, 11} { SupMarksKeepsAttempt(w, r, j); }
    else if b == 12 { SupClearsKeepsAttempt(w, r, j); }
    else if b in {3, 4} { SupOpensKeepsAttempt(w, r, j); }
    else if b == 16 { SupClosesKeepsAttempt(w, r, j); }
    else { SupIdleKeepsAttempt(w, r, j); }
  }

  lemma SupKeepsItself(w: World, r: Reply)
    requires SupOk(w) && TidyOk(w) && SupEnabled(w, r)
    ensures SupOk(SupStep(w, r)) && TidyOk(SupStep(w, r))
  {
    var b := w.sup.ctl.body;
    if b in {3, 4, 7} { SupOpensOk(w, r); SupOpensTidy(w, r); }
    else if b == 8 { SupClonesOk(w, r); SupOpensTidy(w, r); }
    else if b == 12 { SupClearsOk(w, r); SupClearsTidy(w, r); }
    else if b == 16 { SupClosesOk(w, r); SupClosesTidy(w, r); }
    else if b in {2, 5, 6} { SupSetupOk(w, r); SupSetupTidy(w, r); }
    else if b == 9 { SupSetupOk(w, r); SupStartsTidy(w, r); }
    else if b in {10, 11} { SupSetupOk(w, r); SupBootsTidy(w, r); }
    else if b <= 1 { SupPlainOk(w, r); SupSetupTidy(w, r); }
    else if b <= 15 { SupPlainOk(w, r); SupWatchesTidy(w, r); }
    else { SupPlainOk(w, r); SupCleanupTidy(w, r); }
  }

  lemma SupAttempts(w: World, r: Reply)
    requires SupOk(w) && SupEnabled(w, r)
    ensures |SupStep(w, r).atts| == |w.atts| || SupStep(w, r).atts == w.atts + [NewAttempt]
  {
  }

  lemma InvFrom(w: World, x: World)
    requires SupOk(x) && TidyOk(x) && (|x.atts| == |w.atts| || x.atts == w.atts + [NewAttempt])
    requires forall j :: 0 <= j < |w.atts| ==> AttemptOk(x, j)
    ensures Inv(x)
  {
    forall j | 0 <= j < |x.atts|
      ensures AttemptOk(x, j)
    {
    }
  }

  lemma SupActionOk(w: World, r: Reply)
    requires Inv(w) && SupEnabled(w, r)
    ensures Inv(SupStep(w, r))
  {
    SupKeepsItself(w, r);
    SupAttempts(w, r);
    forall j | 0 <= j < |w.atts|
      ensures AttemptOk(SupStep(w, r), j)
    {
      SupKeepsAttempt(w, r, j);
    }
    InvFrom(w, SupStep(w, r));
  }

  lemma StepOk(w: World, a: Action)
    requires Inv(w) && Enabled(w, a)
    ensures Inv(Step(w, a))
  {
    match a
    case SupDo(r) => SupActionOk(w, r);
    case SupDies =>
      var x := Step(w, a);
      forall j | 0 <= j < |x.atts| ensures AttemptOk(x, j) {
        assert AttemptOk(w, j);
      }
    case LoggerDo(_) => LoggerActionOk(w, a);
    case LoggerDies(_) => LoggerActionOk(w, a);
    case CloneDo(i) => CloneDoOk(w, i);
    case CloneDies(i) => CloneDiesOk(w, i);
  }

  // ----- runs

  /** The world after a list of actions, or nothing when one of them was not possible. */
  ghost function Exec(w: World, acts: seq<Action>): Option<World>
    decreases |acts|
  {
    if acts == [] then Some(w)
    else if !Enabled(w, acts[0]) then None
    else Exec(Step(w, acts[0]), acts[1..])
  }

  ghost predicate Reachable(w: World) {
    exists acts :: Exec(Begin, acts) == Some(w)
  }

  lemma {:induction false} ExecOk(w: World, acts: seq<Action>)
    requires Inv(w) && Exec(w, acts).Some?
    ensures Inv(Exec(w, acts).value)
    decreases |acts|
  {
    if acts != [] {
      StepOk(w, acts[0]);
      ExecOk(Step(w, acts[0]), acts[1..]);
    }
  }

  lemma ReachableOk(w: World)
    requires Reachable(w)
    ensures Inv(w)
  {
    var acts :| Exec(Begin, acts) == Some(w);
    BeginOk();
    ExecOk(Begin, acts);
  }

  // ----- the clearance

  predicate Booted(c: Clone) { c.Clone? && c.pc in {CBoot, CDead(AfterBoot)} }

  /** A clone runs `doboot` only after, in its own attempt and in this order, the pid file and the start time were
      written, the cgroup move and the id map were attempted, the network script succeeded, and the clearance was
      sent; and it consumed that one clearance. */
  lemma BootsOnlyWhenCleared(w: World, i: nat)
    requires Reachable(w) && i < |w.atts| && Booted(w.atts[i].clone)
    ensures w.atts[i].done == Full && w.atts[i].bytes == 0
  {
    ReachableOk(w);
    assert AttemptOk(w, i);
  }

  /** The clone waits on the read end of its own attempt's pipe and keeps no write end while it waits, so the
      end-of-file it may get is not held back by itself. */
  lemma WaitsOnItsOwnPipe(w: World, i: nat)
    requires Reachable(w) && i < |w.atts| && w.atts[i].clone.Clone? && w.atts[i].clone.pc == CRead
    ensures var c := w.atts[i].clone;
            c.v.sync0 in c.fds && c.fds[c.v.sync0] == PipeR(i)
            && forall n, j: nat :: n in c.fds ==> c.fds[n] != PipeW(j)
  {
    ReachableOk(w);
    assert AttemptOk(w, i);
  }

  /** The supervisor gave attempt `i` up: no clearance was sent, and it holds no write end of that pipe. */
  ghost predicate GivenUp(w: World, i: nat) {
    && i < |w.atts| && w.atts[i].clone.Clone? && Clearance !in w.atts[i].done
    && !Holds(w.sup.fds, PipeW(i))
  }

  lemma GivenUpStep(w: World, a: Action, i: nat)
    requires Inv(w) && Enabled(w, a) && GivenUp(w, i)
    ensures GivenUp(Step(w, a), i)
  {
    assert AttemptOk(w, i);
    if a.SupDo? {
      GivenUpSupStep(w, a.r, i);
    } else if a.LoggerDo? || a.LoggerDies? || a.CloneDo? || a.CloneDies? {
      assert Step(w, a).atts[i].done == w.atts[i].done;
    }
  }

  /** A supervisor step does not touch an earlier attempt and never regains one of its write ends. */
  lemma OlderAttempts(w: World, r: Reply, i: nat)
    requires SupOk(w) && SupEnabled(w, r) && i < |w.atts| - 1
    ensures i < |SupStep(w, r).atts| && SupStep(w, r).atts[i] == w.atts[i]
    ensures !Holds(w.sup.fds, PipeW(i)) && !Holds(SupStep(w, r).sup.fds, PipeW(i))
  {
    OlderUntouched(w, r, i);
    OlderNotRegained(w, r, i);
  }

  lemma OlderUntouched(w: World, r: Reply, i: nat)
    requires SupOk(w) && SupEnabled(w, r) && i < |w.atts| - 1
    ensures i < |SupStep(w, r).atts| && SupStep(w, r).atts[i] == w.atts[i]
  {
  }

  lemma OlderNotRegained(w: World, r: Reply, i: nat)
    requires SupOk(w) && SupEnabled(w, r) && i < |w.atts| - 1
    ensures !Holds(w.sup.fds, PipeW(i)) && !Holds(SupStep(w, r).sup.fds, PipeW(i))
  {
    var x := SupStep(w, r);
    assert forall n :: n in x.sup.fds && n !in w.sup.fds ==> x.sup.fds[n] != PipeW(i);
    assert forall n :: n in x.sup.fds && n in w.sup.fds ==> x.sup.fds[n] == w.sup.fds[n];
  }

  lemma GivenUpSupStep(w: World, r: Reply, i: nat)
    requires SupOk(w) && SupEnabled(w, r) && GivenUp(w, i)
    ensures GivenUp(SupStep(w, r), i)
  {
    var x := SupStep(w, r);
    var b := w.sup.ctl.body;
    if i < Cur(w) {
      OlderAttempts(w, r, i);
    } else {
      assert 4 <= b <= 12 ==> Has(w.sup.fds, w.sup.v.sync1, PipeW(i));
      assert b != 3;
      assert x.atts[i].done == w.atts[i].done;
      assert Holds(x.sup.fds, PipeW(i)) ==> Holds(w.sup.fds, PipeW(i));
    }
  }

  /** If the supervisor aborts or dies before the clearance, the clone of that attempt never boots, whatever
      happens afterwards. */
  lemma {:induction false} AbortedNeverBoots(w: World, acts: seq<Action>, i: nat)
    requires Inv(w) && GivenUp(w, i) && Exec(w, acts).Some?
    ensures GivenUp(Exec(w, acts).value, i) && !Booted(Exec(w, acts).value.atts[i].clone)
    decreases |acts|
  {
    if acts == [] {
      assert AttemptOk(w, i);
    } else {
      GivenUpStep(w, acts[0], i);
      StepOk(w, acts[0]);
      AbortedNeverBoots(Step(w, acts[0]), acts[1..], i);
    }
  }

  /** Once the cleanup of an attempt is past body 16, or the supervisor is dead, no process but the attempt's own
      logger and clone can still hold a write end, and they only until they have closed their copies. */
  lemma NoWriteEndSurvives(w: World, i: nat)
    requires Reachable(w) && i < |w.atts|
    requires !w.sup.alive || w.sup.ctl.Halt? || w.sup.ctl.body >= 17 || w.sup.ctl.body == 2 || i < |w.atts| - 1
    ensures !Holds(w.sup.fds, PipeW(i))
    ensures Held(w, PipeW(i)) ==>
              || (w.atts[i].logger.Logger? && w.atts[i].logger.pc in {LClose0, LClose1})
              || (w.atts[i].clone.Clone? && w.atts[i].clone.pc in {CCloseMaster, CCloseSlave, CCloseW})
  {
    ReachableOk(w);
    if Held(w, PipeW(i)) { WhoHolds(w, PipeW(i), i); }
  }

  /** A write end or slave side of attempt `i` is held by the supervisor or by processes of that attempt. */
  lemma WhoHolds(w: World, x: Object, i: nat)
    requires Inv(w) && i < |w.atts| && x in {PipeW(i), Slave(i)} && Held(w, x) && !Holds(w.sup.fds, x)
    ensures || (w.atts[i].logger.Logger? && Holds(w.atts[i].logger.fds, x))
            || (w.atts[i].clone.Clone? && Holds(w.atts[i].clone.fds, x))
    ensures w.atts[i].logger.Logger? && Holds(w.atts[i].logger.fds, x) ==>
              w.atts[i].logger.pc in {LClose0, LClose1} || (w.atts[i].logger.pc == LCloseSlave && x == Slave(i))
    ensures w.atts[i].clone.Clone? && Holds(w.atts[i].clone.fds, x) ==>
              || w.atts[i].clone.pc in {CCloseMaster, CCloseSlave}
              || (w.atts[i].clone.pc == CCloseW && x == PipeW(i)) || (w.atts[i].clone.pc == CBoot && x == Slave(i))
  {
    var j :| 0 <= j < |w.atts| && ((w.atts[j].logger.Logger? && Holds(w.atts[j].logger.fds, x))
                                   || (w.atts[j].clone.Clone? && Holds(w.atts[j].clone.fds, x)));
    assert AttemptOk(w, j) && AttemptOk(w, i);
  }

  // ----- the answer is the right one

  /** Clone `i`, once there is one, was not killed before it had its answer. */
  predicate Unkilled(w: World, i: nat) {
    i < |w.atts| && w.atts[i].clone.Clone? ==> w.atts[i].clone.pc != CDead(Killed)
  }

  lemma SupUnkilled(w: World, r: Reply, i: nat)
    requires SupOk(w) && SupEnabled(w, r) && Unkilled(w, i)
    ensures Unkilled(SupStep(w, r), i)
  {
    if i < |w.atts| && w.sup.ctl.body !in {7, 8} { SupSameClone(w, r, i); }
  }

  /** Only body 8 starts a clone; no other body of the supervisor touches one. */
  lemma SupSameClone(w: World, r: Reply, i: nat)
    requires SupEnabled(w, r) && i < |w.atts| && w.sup.ctl.body !in {7, 8}
    ensures i < |SupStep(w, r).atts| && SupStep(w, r).atts[i].clone == w.atts[i].clone
  {
  }

  lemma UnkilledStep(w: World, a: Action, i: nat)
    requires Inv(w) && Enabled(w, a) && Unkilled(w, i) && a != CloneDies(i)
    ensures Unkilled(Step(w, a), i)
  {
    if a.SupDo? {
      SupUnkilled(w, a.r, i);
    } else if a == CloneDo(i) {
      CloneUnkilled(w, i);
    }
  }

  /** The calls of a clone end in the boot when it reads the clearance and in its exit when it reads the end of file. */
  lemma CloneUnkilled(w: World, i: nat)
    requires i < |w.atts| && AttemptOk(w, i) && Enabled(w, CloneDo(i))
    ensures Unkilled(Step(w, CloneDo(i)), i)
  {
  }

  /** The answer is the right one in every run that does not kill the clone: once clone `i` is decided, it booted if
      its attempt sent the clearance, and it did not if the attempt sent none. */
  lemma {:induction false} AnswerIsRight(w: World, acts: seq<Action>, i: nat)
    requires Inv(w) && Unkilled(w, i) && Exec(w, acts).Some? && CloneDies(i) !in acts
    ensures Unkilled(Exec(w, acts).value, i)
    ensures var x := Exec(w, acts).value;
            i < |x.atts| && x.atts[i].clone.Clone? && !Undecided(x.atts[i].clone) ==>
              (Booted(x.atts[i].clone) <==> Clearance in x.atts[i].done)
    decreases |acts|
  {
    if acts == [] {
      if i < |w.atts| && w.atts[i].clone.Clone? && !Undecided(w.atts[i].clone) { DecidedRight(w, i); }
    } else {
      UnkilledStep(w, acts[0], i);
      StepOk(w, acts[0]);
      AnswerIsRight(Step(w, acts[0]), acts[1..], i);
    }
  }

  lemma DecidedRight(w: World, i: nat)
    requires i < |w.atts| && AttemptOk(w, i) && w.atts[i].clone.Clone? && !Undecided(w.atts[i].clone) && Unkilled(w, i)
    ensures Booted(w.atts[i].clone) <==> Clearance in w.atts[i].done
  {
    SentIffFull(w.atts[i].done);
    var att := w.atts[i];
    assert att.clone.pc.CDead? ==> att.clone.pc.how.NoClearance? || att.clone.pc.how.AfterBoot?;
  }

  lemma SentIffFull(done: seq<Milestone>)
    requires |done| <= 6 && done == Full[..|done|]
    ensures Clearance in done <==> done == Full
  {
    if done == Full { assert done[5] == Clearance; }
  }

  /** A boot is never undone: whatever happens, a clone that booted stays one, alive or ended. */
  lemma BootedStays(w: World, a: Action, i: nat)
    requires Inv(w) && Enabled(w, a) && i < |w.atts| && Booted(w.atts[i].clone)
    ensures i < |Step(w, a).atts| && Booted(Step(w, a).atts[i].clone)
  {
    if a.SupDo? { SupBootedStays(w, a.r, i); }
  }

  lemma SupBootedStays(w: World, r: Reply, i: nat)
    requires SupOk(w) && SupEnabled(w, r) && i < |w.atts| && Booted(w.atts[i].clone)
    ensures i < |SupStep(w, r).atts| && Booted(SupStep(w, r).atts[i].clone)
  {
    if w.sup.ctl.body !in {7, 8} { SupSameClone(w, r, i); }
  }

  /** A clone that waits for a clearance that was sent can read it at once, and boots with it. */
  lemma ReadsAtOnce(w: World, i: nat)
    requires Inv(w) && i < |w.atts| && w.atts[i].clone.Clone? && w.atts[i].clone.pc == CRead
    requires Clearance in w.atts[i].done
    ensures Enabled(w, CloneDo(i)) && Step(w, CloneDo(i)).atts[i].clone.pc == CBoot
  {
    assert AttemptOk(w, i);
    SentIffFull(w.atts[i].done);
  }

  /** A clearance that was sent stays sent. */
  lemma SentStays(w: World, a: Action, i: nat)
    requires Enabled(w, a) && i < |w.atts| && Clearance in w.atts[i].done
    ensures i < |Step(w, a).atts| && Clearance in Step(w, a).atts[i].done
  {
    if a.SupDo? { SupSent(w, a.r, i); }
    if a.CloneDo? { CloneStepShape(w.atts[a.i], a.i); }
  }

  lemma SupSent(w: World, r: Reply, i: nat)
    requires SupEnabled(w, r) && i < |w.atts| && Clearance in w.atts[i].done
    ensures i < |SupStep(w, r).atts| && Clearance in SupStep(w, r).atts[i].done
  {
  }

  // ----- the clone always gets its answer

  function LoggerRank(l: Logger): nat {
    if l.NoLogger? then 0
    else match l.pc case LClose0 => 4 case LClose1 => 3 case LCloseSlave => 2 case LTrack => 1 case LDead => 0
  }

  function CloneRank(c: Clone): nat {
    if c.NoClone? then 0
    else match c.pc case CCloseMaster => 4 case CCloseSlave => 3 case CCloseW => 2 case CRead => 1 case _ => 0
  }

  /** How many more calls the supervisor makes at most before it has closed the write end of attempt `i`. */
  function SupRank(s: Supervisor, i: nat): nat {
    if !s.alive || s.ctl.Halt? || !Holds(s.fds, PipeW(i)) then 0
    else if s.ctl.body <= 11 then 30 - s.ctl.body
    else if s.ctl.body == 12 && s.sub <= 1 then 6 - s.sub
    else if s.ctl.body == 16 && s.sub <= 2 then 3 - s.sub
    else 0
  }

  function Rank(w: World, i: nat): nat
    requires i < |w.atts|
  {
    SupRank(w.sup, i) + LoggerRank(w.atts[i].logger) + CloneRank(w.atts[i].clone)
  }

  /** The actions that bring the answer for clone `i` nearer. */
  predicate Helps(w: World, a: Action, i: nat) {
    match a
    case SupDo(_) => Holds(w.sup.fds, PipeW(i))
    case SupDies => Holds(w.sup.fds, PipeW(i))
    case LoggerDo(j) => j == i
    case LoggerDies(j) => j == i
    case CloneDo(j) => j == i
    case CloneDies(j) => j == i
  }

  lemma SupRankStep(w: World, r: Reply, i: nat)
    requires SupOk(w) && SupEnabled(w, r) && i < |w.atts| && AttemptOk(w, i) && Undecided(w.atts[i].clone)
    ensures var x := SupStep(w, r);
            && i < |x.atts| && x.atts[i].logger == w.atts[i].logger && x.atts[i].clone == w.atts[i].clone
            && SupRank(x.sup, i) <= SupRank(w.sup, i)
            && (Holds(w.sup.fds, PipeW(i)) ==> SupRank(x.sup, i) < SupRank(w.sup, i))
  {
    var x := SupStep(w, r);
    var b := w.sup.ctl.body;
    if i < Cur(w) {
      OlderAttempts(w, r, i);
    } else if b in {12, 16} {
      SupClosesRank(w, r, i);
    } else {
      SupPlainRank(w, r, i);
    }
  }

  /** A body that forks and closes nothing leaves the descriptors and the current attempt's processes alone. */
  lemma SupPlainKeeps(w: World, r: Reply)
    requires SupOk(w) && SupEnabled(w, r) && w.atts != [] && w.sup.ctl.body !in {3, 4, 5, 6, 7, 8, 12, 16}
    ensures var x, i := SupStep(w, r), |w.atts| - 1;
            && x.sup.fds == w.sup.fds && x.sup.alive && x.sup.ctl == After(w.sup.ctl, Outcome(r.ok, r.attend))
            && i < |x.atts| && x.atts[i].logger == w.atts[i].logger && x.atts[i].clone == w.atts[i].clone
  {
  }

  lemma SupPlainRank(w: World, r: Reply, i: nat)
    requires SupOk(w) && SupEnabled(w, r) && i == |w.atts| - 1 && w.sup.ctl.body !in {12, 16}
    requires Undecided(w.atts[i].clone)
    ensures var x := SupStep(w, r);
            && i < |x.atts| && x.atts[i].logger == w.atts[i].logger && x.atts[i].clone == w.atts[i].clone
            && SupRank(x.sup, i) <= SupRank(w.sup, i)
            && (Holds(w.sup.fds, PipeW(i)) ==> SupRank(x.sup, i) < SupRank(w.sup, i))
  {
    assert !(3 <= w.sup.ctl.body <= 8);
    SupPlainKeeps(w, r);
    PlainRank(w.sup, SupStep(w, r).sup, Outcome(r.ok, r.attend), i);
  }

  lemma PlainRank(s: Supervisor, t: Supervisor, o: Outcome, i: nat)
    requires s.alive && s.ctl.Run? && t.fds == s.fds && t.ctl == After(s.ctl, o) && s.ctl.body !in {12, 16}
    requires Holds(s.fds, PipeW(i)) ==> WriteOpen(s.ctl.body)
    requires !(3 <= s.ctl.body <= 8) && t.sub == 0
    ensures SupRank(t, i) <= SupRank(s, i) && (Holds(s.fds, PipeW(i)) ==> SupRank(t, i) < SupRank(s, i))
  {
  }

  lemma SupClosesRank(w: World, r: Reply, i: nat)
    requires SupOk(w) && SupEnabled(w, r) && i == |w.atts| - 1 && w.sup.ctl.body in {12, 16}
    ensures var x := SupStep(w, r);
            && SupRank(x.sup, i) <= SupRank(w.sup, i)
            && (Holds(w.sup.fds, PipeW(i)) ==> SupRank(x.sup, i) < SupRank(w.sup, i))
  {
    assert Holds(SupStep(w, r).sup.fds, PipeW(i)) ==> Holds(w.sup.fds, PipeW(i));
  }

  /** No action ever moves the answer further away, and every helping one brings it strictly nearer. */
  lemma RankStep(w: World, a: Action, i: nat)
    requires Inv(w) && Enabled(w, a) && i < |w.atts| && Undecided(w.atts[i].clone)
    ensures var x := Step(w, a);
            i < |x.atts| && Rank(x, i) <= Rank(w, i) && (Helps(w, a, i) ==> Rank(x, i) < Rank(w, i))
  {
    if a.SupDo? {
      assert AttemptOk(w, i);
      SupRankStep(w, a.r, i);
    } else {
      KidRankStep(w, a, i);
    }
  }

  /** The rank of `i` does not rise from `w` to `x`, and falls when that helps. */
  predicate Nearer(w: World, x: World, i: nat, helps: bool)
    requires i < |w.atts|
  {
    i < |x.atts| && Rank(x, i) <= Rank(w, i) && (helps ==> Rank(x, i) < Rank(w, i))
  }

  lemma KidRankStep(w: World, a: Action, i: nat)
    requires SupOk(w) && Enabled(w, a) && !a.SupDo? && i < |w.atts| && Undecided(w.atts[i].clone)
    ensures Nearer(w, Step(w, a), i, Helps(w, a, i))
  {
    match a
    case SupDies => DeathRank(w, i);
    case LoggerDo(j) => LoggerRankStep(w, a, i);
    case LoggerDies(j) => LoggerRankStep(w, a, i);
    case CloneDo(j) => CloneRankStep(w, j, i);
    case CloneDies(j) => CloneDeathRank(w, j, i);
  }

  lemma DeathRank(w: World, i: nat)
    requires SupOk(w) && w.sup.alive && i < |w.atts|
    ensures Nearer(w, Step(w, SupDies), i, Holds(w.sup.fds, PipeW(i)))
  {
  }

  lemma LoggerRankStep(w: World, a: Action, i: nat)
    requires Enabled(w, a) && (a.LoggerDo? || a.LoggerDies?) && i < |w.atts|
    ensures Nearer(w, Step(w, a), i, a.i == i)
  {
  }

  lemma CloneRankStep(w: World, j: nat, i: nat)
    requires Enabled(w, CloneDo(j)) && i < |w.atts| && Undecided(w.atts[i].clone)
    ensures Nearer(w, Step(w, CloneDo(j)), i, j == i)
  {
    CloneStepRank(w.atts[j], j);
  }

  lemma CloneStepRank(att: Attempt, j: nat)
    requires att.clone.Clone? && !att.clone.pc.CBoot? && !att.clone.pc.CDead?
    ensures CloneStep(att, j).logger == att.logger && CloneRank(CloneStep(att, j).clone) < CloneRank(att.clone)
  {
  }

  lemma CloneDeathRank(w: World, j: nat, i: nat)
    requires Enabled(w, CloneDies(j)) && i < |w.atts| && Undecided(w.atts[i].clone)
    ensures Nearer(w, Step(w, CloneDies(j)), i, j == i)
  {
  }

  /** The call to make next for clone `i`: its own while it can, else its logger's or the supervisor's. */
  function Helper(w: World, i: nat): Action
    requires i < |w.atts| && Undecided(w.atts[i].clone)
  {
    var c := w.atts[i].clone;
    if Enabled(w, CloneDo(i)) then CloneDo(i)
    else if Enabled(w, LoggerDo(i)) then LoggerDo(i)
    else if w.sup.ctl.Run? && w.sup.ctl.body == 11 then SupDo(Reply(true, true, 0, 0, 0, true))
    else SupDo(Reply(w.sup.ctl.Run? && w.sup.ctl.body == 16, w.sup.ctl.Run? && w.sup.ctl.body == 16, 0, 0, 0, true))
  }

  /** A clone that has not had its answer is never stuck: some process can make a call that brings the answer
      nearer, with no death and no interrupted wait needed. */
  lemma NeverStuck(w: World, i: nat)
    requires Inv(w) && i < |w.atts| && Undecided(w.atts[i].clone)
    ensures var a := Helper(w, i);
            Enabled(w, a) && Helps(w, a, i) && (a.SupDo? || a.LoggerDo? || a.CloneDo?)
            && (a.SupDo? && w.sup.ctl.body == 16 ==> a.r.ok)
  {
    assert AttemptOk(w, i);
    var att := w.atts[i];
    if !Enabled(w, CloneDo(i)) && !Enabled(w, LoggerDo(i)) {
      assert att.clone.pc == CRead && Held(w, PipeW(i));
      if !Holds(w.sup.fds, PipeW(i)) { WhoHolds(w, PipeW(i), i); }
      assert w.sup.ctl.body in {9, 10, 11, 12, 16};
      if w.sup.ctl.body == 16 && w.sup.sub == 1 {
        NoSlaveLeft(w, i);
      }
    }
  }

  /** When the supervisor waits for the logger in body 16, nobody but a clone that is still closing its copies
      holds the slave side, so the logger's read ends. */
  lemma NoSlaveLeft(w: World, i: nat)
    requires Inv(w) && i == |w.atts| - 1 && w.sup.alive && w.sup.ctl.Run? && w.sup.ctl.body == 16 && w.sup.sub == 1
    requires w.atts[i].clone.Clone? && w.atts[i].clone.pc == CRead
    requires !Enabled(w, LoggerDo(i))
    ensures !WaitBlocked(w)
  {
    assert AttemptOk(w, i);
    assert !Holds(w.sup.fds, Slave(i));
    if w.atts[i].logger.pc == LTrack { WhoHolds(w, Slave(i), i); }
  }

  /** From any reachable state the answer of clone `i` comes within `Rank` calls, at most 38, of processes that
      are all able to make them and none of which is a death: the clone then has booted if the clearance was sent,
      and has ended if not. */
  lemma AnswerComes(w: World, i: nat) returns (acts: seq<Action>)
    requires Inv(w) && i < |w.atts| && Undecided(w.atts[i].clone)
    ensures |acts| <= Rank(w, i) <= 38
    ensures Exec(w, acts).Some?
    ensures var x := Exec(w, acts).value; i < |x.atts| && x.atts[i].clone.Clone? && !Undecided(x.atts[i].clone)
    ensures forall a :: a in acts ==> a.SupDo? || a.LoggerDo? || a.CloneDo?
    ensures var x := Exec(w, acts).value; Booted(x.atts[i].clone) <==> Clearance in x.atts[i].done
    ensures Clearance in w.atts[i].done ==> Booted(Exec(w, acts).value.atts[i].clone)
    decreases Rank(w, i)
  {
    RankBound(w, i);
    var a := Helper(w, i);
    var x := HelperStep(w, i);
    if Undecided(x.atts[i].clone) {
      var rest := AnswerComes(x, i);
      acts := [a] + rest;
    } else {
      acts := [a];
      assert Exec(x, []) == Some(x);
    }
    assert acts[1..] == if Undecided(x.atts[i].clone) then acts[1..] else [];
  }

  lemma HelperStep(w: World, i: nat) returns (x: World)
    requires Inv(w) && i < |w.atts| && Undecided(w.atts[i].clone)
    ensures var a := Helper(w, i);
            && Enabled(w, a) && (a.SupDo? || a.LoggerDo? || a.CloneDo?)
            && x == Step(w, a) && Inv(x) && Nearer(w, x, i, true) && x.atts[i].clone.Clone?
            && (Clearance in w.atts[i].done ==> Clearance in x.atts[i].done)
            && (!Undecided(x.atts[i].clone) ==> (Booted(x.atts[i].clone) <==> Clearance in x.atts[i].done))
  {
    var a := Helper(w, i);
    NeverStuck(w, i);
    x := Step(w, a);
    RankStep(w, a, i);
    StepOk(w, a);
    StaysBorn(w, a, i);
    UnkilledStep(w, a, i);
    if Clearance in w.atts[i].done { SentStays(w, a, i); }
    if !Undecided(x.atts[i].clone) { DecidedRight(x, i); }
  }

  lemma StaysBorn(w: World, a: Action, i: nat)
    requires Inv(w) && Enabled(w, a) && i < |w.atts| && w.atts[i].clone.Clone?
    ensures i < |Step(w, a).atts| && Step(w, a).atts[i].clone.Clone?
  {
    if a.SupDo? {
      SupKeepsClone(w, a.r, i);
    }
  }

  lemma SupKeepsClone(w: World, r: Reply, i: nat)
    requires SupOk(w) && SupEnabled(w, r) && i < |w.atts| && w.atts[i].clone.Clone?
    ensures i < |SupStep(w, r).atts| && SupStep(w, r).atts[i].clone.Clone?
  {
    if w.sup.ctl.body <= 7 { SupKeepsCloneEarly(w, r, i); } else { SupKeepsCloneLate(w, r, i); }
  }

  lemma SupKeepsCloneEarly(w: World, r: Reply, i: nat)
    requires SupEnabled(w, r) && i < |w.atts| && w.atts[i].clone.Clone? && w.sup.ctl.body <= 7
    ensures i < |SupStep(w, r).atts| && SupStep(w, r).atts[i].clone.Clone?
  {
  }

  lemma SupKeepsCloneLate(w: World, r: Reply, i: nat)
    requires SupOk(w) && SupEnabled(w, r) && i < |w.atts| && w.atts[i].clone.Clone? && w.sup.ctl.body >= 8
    ensures i < |SupStep(w, r).atts| && SupStep(w, r).atts[i].clone.Clone?
  {
  }

  lemma RankBound(w: World, i: nat)
    requires Inv(w) && i < |w.atts| && Undecided(w.atts[i].clone)
    ensures Rank(w, i) <= 38
  {
    assert AttemptOk(w, i);
    if Holds(w.sup.fds, PipeW(i)) && w.sup.alive {
      assert w.sup.ctl.Run? && w.sup.ctl.body >= 9;
    }
  }

  /** How many actions of a run help clone `i` while it has no answer. */
  ghost function HelpCount(w: World, acts: seq<Action>, i: nat): nat
    requires Inv(w) && i < |w.atts| && Exec(w, acts).Some?
    decreases |acts|
  {
    if acts == [] || !Undecided(w.atts[i].clone) then 0
    else
      StepOk(w, acts[0]);
      StaysBorn(w, acts[0], i);
      (if Helps(w, acts[0], i) then 1 else 0) + HelpCount(Step(w, acts[0]), acts[1..], i)
  }

  /** In every run, however the other processes, the failures and the deaths interleave, at most 38 helping
      actions pass before clone `i` has its answer: a fair scheduler cannot leave it waiting for ever. */
  lemma {:induction false} AnswerCannotBePutOff(w: World, acts: seq<Action>, i: nat)
    requires Inv(w) && i < |w.atts| && Exec(w, acts).Some? && Undecided(w.atts[i].clone)
    ensures HelpCount(w, acts, i) <= Rank(w, i) <= 38
    decreases |acts|
  {
    RankBound(w, i);
    if acts != [] {
      var x := Step(w, acts[0]);
      StepOk(w, acts[0]);
      StaysBorn(w, acts[0], i);
      RankStep(w, acts[0], i);
      if Undecided(x.atts[i].clone) {
        AnswerCannotBePutOff(x, acts[1..], i);
      } else {
        assert HelpCount(x, acts[1..], i) == 0;
        assert Rank(w, i) >= 1;
      }
    }
  }

  // ----- what a reboot finds

  /** At every REBOOT entry the previous attempt's console is closed, its logger is gone unless a signal cut the
      wait short, its cgroups are gone unless their removal failed, and its /dev is unmounted: the last one always,
      because a failed umount never reaches body 19. */
  lemma RebootFindsItClean(w: World)
    requires Reachable(w) && w.sup.alive && w.sup.ctl.Run? && w.sup.ctl.body == 2 && w.atts != []
    ensures var last := w.atts[|w.atts| - 1];
            && !w.devMounted
            && (forall n :: n in w.sup.fds ==> w.sup.fds[n].PipeR?)
            && (LoggerGone(last.logger) || last.interrupted)
            && (!w.cgroups || last.dirty)
  {
    ReachableOk(w);
  }

  /** The cgroups exist from body 5 on, even when it fails, until a removal in body 17 works. */
  lemma CgroupsStay(w: World, a: Action)
    requires Enabled(w, a)
    ensures Step(w, a).cgroups <==>
              || (a.SupDo? && w.sup.ctl.body == 5)
              || (w.cgroups && !(a.SupDo? && w.sup.ctl.body == 17 && a.r.ok))
  {
  }

  /** In a clean run no signal ends a wait for a logger and every removal of cgroups works. */
  ghost predicate Clean(w: World, acts: seq<Action>)
    requires Exec(w, acts).Some?
    decreases |acts|
  {
    acts != [] ==>
      && (acts[0].SupDo? && w.sup.ctl.body == 16 && w.sup.sub == 1 ==> !WaitBlocked(w))
      && (acts[0].SupDo? && w.sup.ctl.body == 17 ==> acts[0].r.ok)
      && Clean(Step(w, acts[0]), acts[1..])
  }

  predicate NothingCutShort(w: World) {
    forall i :: 0 <= i < |w.atts| ==> !w.atts[i].interrupted && !w.atts[i].dirty
  }

  lemma NotCutShortStep(w: World, r: Reply)
    requires SupEnabled(w, r) && NothingCutShort(w)
    requires w.sup.ctl.body == 16 && w.sup.sub == 1 ==> !WaitBlocked(w)
    requires w.sup.ctl.body == 17 ==> r.ok
    ensures NothingCutShort(SupStep(w, r))
  {
  }

  lemma {:induction false} NotCutShort(w: World, acts: seq<Action>)
    requires Exec(w, acts).Some? && Clean(w, acts) && NothingCutShort(w)
    ensures NothingCutShort(Exec(w, acts).value)
    decreases |acts|
  {
    if acts != [] {
      var a := acts[0];
      if a.SupDo? { NotCutShortStep(w, a.r); }
      if a.CloneDo? { CloneStepShape(w.atts[a.i], a.i); }
      NotCutShort(Step(w, a), acts[1..]);
    }
  }

  /** After a clean run a reboot finds nothing of the attempt before: no console, no logger, no cgroups, no /dev. */
  lemma CleanReboot(acts: seq<Action>)
    requires Exec(Begin, acts).Some? && Clean(Begin, acts)
    ensures var w := Exec(Begin, acts).value;
            w.sup.alive && w.sup.ctl.Run? && w.sup.ctl.body == 2 && w.atts != [] ==>
              && !w.devMounted && !w.cgroups && LoggerGone(w.atts[|w.atts| - 1].logger)
              && forall n :: n in w.sup.fds ==> w.sup.fds[n].PipeR?
  {
    NotCutShort(Begin, acts);
    var w := Exec(Begin, acts).value;
    if w.sup.alive && w.sup.ctl.Run? && w.sup.ctl.body == 2 && w.atts != [] {
      RebootFindsItClean(w);
    }
  }

  /** The one thing a reboot may find left over.  Body 16 closes `sync_pipe[1]` only, so the read end stays open in
      the supervisor exactly when the attempt created its pipe but never started its clone, unless the number in
      `slave_fd`, stale from an earlier attempt, happens to be that read end's. */
  lemma ReadEndLeak(w: World)
    requires Reachable(w) && w.sup.alive && w.sup.ctl.Run? && w.atts != []
    requires w.sup.ctl.body >= 17 || w.sup.ctl.body == 2
    ensures var i := |w.atts| - 1;
            Holds(w.sup.fds, PipeR(i)) <==>
              w.atts[i].piped && w.atts[i].clone == NoClone && w.sup.v.sync0 != w.sup.v.slave
  {
    ReachableOk(w);
  }

  lemma {:induction false} ExecAppend(w: World, acts: seq<Action>, a: Action)
    requires Exec(w, acts).Some? && Enabled(Exec(w, acts).value, a)
    ensures Exec(w, acts + [a]) == Some(Step(Exec(w, acts).value, a))
    decreases |acts|
  {
    if acts == [] {
      assert Exec(Step(w, a), []) == Some(Step(w, a));
      assert ([a])[1..] == [];
    } else {
      assert (acts + [a])[1..] == acts[1..] + [a];
      ExecAppend(Step(w, acts[0]), acts[1..], a);
    }
  }

  lemma ReachableStep(w: World, a: Action) returns (x: World)
    requires Reachable(w) && Enabled(w, a)
    ensures x == Step(w, a) && Reachable(x)
  {
    var acts :| Exec(Begin, acts) == Some(w);
    ExecAppend(Begin, acts, a);
    x := Step(w, a);
  }

  /** Such a leak does occur: a first attempt whose pty cannot be opened. */
  lemma ReadEndLeakExample()
    ensures exists w :: Reachable(w) && w.sup.ctl == Run(17, 0) && Holds(w.sup.fds, PipeR(0))
  {
    var yes := SupDo(Reply(true, true, 0, 0, 0, true));
    var no := SupDo(Reply(false, false, 0, 0, 0, true));
    assert Exec(Begin, []) == Some(Begin);
    var w1 := ReachableStep(Begin, yes);
    var w2 := ReachableStep(w1, yes);
    var w3 := ReachableStep(w2, yes);
    var w4 := ReachableStep(w3, SupDo(Reply(true, true, 0, 3, 4, true)));
    assert w4.sup.ctl == Run(4, 0) && w4.sup.v == Vars(3, 4, 0, -1) && w4.sup.sub == 0 && w4.sup.waits == None;
    ReadEndLeakTail(w4, no, yes);
  }

  lemma ReadEndLeakTail(w: World, no: Action, yes: Action)
    requires Reachable(w) && w.sup.alive && w.sup.ctl == Run(4, 0) && w.sup.sub == 0 && w.sup.waits == None
    requires w.sup.v == Vars(3, 4, 0, -1) && 3 in w.sup.fds && w.sup.fds[3] == PipeR(0)
    requires no == SupDo(Reply(false, false, 0, 0, 0, true)) && yes == SupDo(Reply(true, true, 0, 0, 0, true))
    ensures exists w :: Reachable(w) && w.sup.ctl == Run(17, 0) && Holds(w.sup.fds, PipeR(0))
  {
    var w5 := ReachableStep(w, no);
    var w6 := ReachableStep(w5, no);
    assert w6.sup.ctl == Run(16, 0) && w6.sup.sub == 1 && w6.sup.v.sync1 == 4 && w6.sup.waits == None;
    ReadEndLeakEnd(w6, no, yes);
  }

  lemma ReadEndLeakEnd(w: World, no: Action, yes: Action)
    requires Reachable(w) && w.sup.alive && w.sup.ctl == Run(16, 0) && w.sup.sub == 1 && w.sup.waits == None
    requires w.sup.v.sync1 == 4 && 3 in w.sup.fds && w.sup.fds[3] == PipeR(0)
    requires no == SupDo(Reply(false, false, 0, 0, 0, true)) && yes == SupDo(Reply(true, true, 0, 0, 0, true))
    ensures exists w :: Reachable(w) && w.sup.ctl == Run(17, 0) && Holds(w.sup.fds, PipeR(0))
  {
    var w7 := ReachableStep(w, yes);
    var w8 := ReachableStep(w7, no);
    assert w8.sup.ctl == Run(17, 0) && w8.sup.fds[3] == PipeR(0);
  }

  // ----- a container does boot

  /** A supervisor that has started its clone and not yet failed can always still boot it: bodies 9 to 12 working, and
      then the calls of `AnswerComes`. */
  lemma BootIsPossible(w: World) returns (acts: seq<Action>)
    requires Inv(w) && w.sup.alive && w.sup.ctl.Run? && 9 <= w.sup.ctl.body <= 12 && w.sup.sub == 0
    requires w.atts != [] && Undecided(w.atts[|w.atts| - 1].clone)
    ensures Exec(w, acts).Some? && |acts| <= 51 - w.sup.ctl.body
    ensures |Exec(w, acts).value.atts| >= |w.atts| && Booted(Exec(w, acts).value.atts[|w.atts| - 1].clone)
    decreases 13 - w.sup.ctl.body
  {
    var i := |w.atts| - 1;
    var a := SupDo(Reply(true, true, 0, 0, 0, true));
    var x := Step(w, a);
    StepOk(w, a);
    SupSameClone(w, a.r, i);
    var rest;
    if w.sup.ctl.body == 12 {
      Clears(w, a.r);
      rest := AnswerComes(x, i);
    } else {
      Advances(w, a.r);
      rest := BootIsPossible(x);
    }
    acts := [a] + rest;
    assert acts[1..] == rest;
  }

  lemma Clears(w: World, r: Reply)
    requires SupEnabled(w, r) && w.sup.ctl.body == 12 && w.sup.sub == 0 && r.ok && w.atts != []
    ensures Clearance in SupStep(w, r).atts[|w.atts| - 1].done
  {
  }

  lemma Advances(w: World, r: Reply)
    requires SupOk(w) && SupEnabled(w, r) && 9 <= w.sup.ctl.body <= 11 && r.ok && w.atts != []
    ensures var x := SupStep(w, r);
            && |x.atts| == |w.atts| && x.sup.alive && x.sup.sub == 0
            && x.sup.ctl.Run? && x.sup.ctl.body == w.sup.ctl.body + 1
  {
  }

  lemma {:induction false} ExecConcat(w: World, acts: seq<Action>, more: seq<Action>)
    requires Exec(w, acts).Some?
    ensures Exec(w, acts + more) == Exec(Exec(w, acts).value, more)
    decreases |acts|
  {
    if acts == [] {
      assert acts + more == more;
    } else {
      assert (acts + more)[1..] == acts[1..] + more;
      ExecConcat(Step(w, acts[0]), acts[1..], more);
    }
  }

  lemma ReachableRun(w: World, acts: seq<Action>)
    requires Reachable(w) && Exec(w, acts).Some?
    ensures Reachable(Exec(w, acts).value)
  {
    var before :| Exec(Begin, before) == Some(w);
    ExecConcat(Begin, before, acts);
  }

  function NextFd(b: nat): int { if b <= 3 then 3 else if b == 4 then 5 else if b <= 7 then 6 else 7 }

  /** The supervisor in its first attempt, before its clone: the descriptors 3 to 6 are handed out in turn. */
  ghost predicate OnTrack(w: World, b: nat) {
    && Reachable(w) && w.sup.alive && w.sup.ctl == Run(b, 0) && w.sup.sub == 0
    && (forall n :: n in w.sup.fds ==> 3 <= n < NextFd(b))
    && |w.atts| == (if b <= 2 then 0 else 1)
  }

  lemma OpensInTurn(w: World, b: nat, fd: int) returns (x: World)
    requires OnTrack(w, b) && b <= 7
    requires fd == if b == 3 then 3 else if b == 4 then 5 else 6
    ensures OnTrack(x, b + 1)
  {
    x := ReachableStep(w, SupDo(Reply(true, true, 0, fd, 4, true)));
  }

  /** And a container does boot: from the first world there is a run in which the clone of the first attempt boots. */
  lemma BootHappens()
    ensures exists w :: Reachable(w) && |w.atts| >= 1 && Booted(w.atts[0].clone)
  {
    assert Exec(Begin, []) == Some(Begin);
    var w, b := Begin, 0;
    while b < 8
      invariant b <= 8 && OnTrack(w, b)
    {
      w := OpensInTurn(w, b, if b == 3 then 3 else if b == 4 then 5 else 6);
      b := b + 1;
    }
    var x := ReachableStep(w, SupDo(Reply(true, true, 0, 0, 0, true)));
    ReachableOk(x);
    var acts := BootIsPossible(x);
    ReachableRun(x, acts);
  }
}
