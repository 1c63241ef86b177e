/** The cgroup tree shared by all containers (lib/unicnt.c:88-110, 1118-1187; lib/utlsys.c:66-121, 1317-1354, 1364-1390,
    1654-1720; phases 5, 10 and 17 of app/vzgot.c:1421-1538). The kernel's part is a value, `Tree`, and its calls are
    functions on it; what the program does with them are methods of `Cgroups`. */
module CgroupTree {

  type Path = seq<string>
  type Pid = nat

  /** The directories, where each process sits, and the directories that delegate controllers to their children. */
  datatype Tree = Tree(dirs: set<Path>, procs: map<Pid, Path>, ctl: set<Path>)

  const Top: Path := []
  const Vzgot: Path := ["vzgot"]
  const Supervisors: Path := ["vzgot", "supervisors"]
  const Containers: Path := ["vzgot", "containers"]

  function Front(p: Path): Path
    requires p != []
  {
    p[..|p| - 1]
  }

  /** Directories form a tree, and processes and controllers sit in directories that exist. */
  ghost predicate Valid(t: Tree) {
    && Top in t.dirs
    && (forall p :: p in t.dirs && p != [] ==> Front(p) in t.dirs)
    && (forall k :: k in t.procs ==> t.procs[k] in t.dirs)
    && t.ctl <= t.dirs
  }

  // ----- the kernel's calls

  datatype Call =
    | Mkdir(path: Path)
    | Rmdir(path: Path)
    | Enable(path: Path)
    | Move(pid: Pid, path: Path)
    | Kill(path: Path)
    | Fork(parent: Pid, child: Pid)
    | Exit(pid: Pid)

  predicate Empty(t: Tree, p: Path) {
    forall k :: k in t.procs ==> t.procs[k] != p
  }

  function Children(t: Tree, p: Path): set<Path> {
    set q | q in t.dirs && q != [] && Front(q) == p
  }

  /** What the kernel accepts. Controllers are delegated only by a directory without processes, and a directory that
      delegates takes no process; the top is exempt from both. */
  predicate Accepted(t: Tree, c: Call) {
    match c
    case Mkdir(p) => p !in t.dirs && p != [] && Front(p) in t.dirs
    case Rmdir(p) => p in t.dirs && p != [] && Children(t, p) == {} && Empty(t, p)
    case Enable(p) => p in t.dirs && (p == [] || (Front(p) in t.ctl && Empty(t, p)))
    case Move(k, p) => k in t.procs && p in t.dirs && (p == [] || p !in t.ctl)
    case Kill(p) => p in t.dirs && p != []
    case Fork(k, child) => k in t.procs && child !in t.procs
    case Exit(k) => k in t.procs
  }

  function After(t: Tree, c: Call): Tree {
    if !Accepted(t, c) then t
    else
      match c
      case Mkdir(p) => t.(dirs := t.dirs + {p})
      case Rmdir(p) => t.(dirs := t.dirs - {p}, ctl := t.ctl - {p})
      case Enable(p) => t.(ctl := t.ctl + {p})
      case Move(k, p) => t.(procs := t.procs[k := p])
      case Kill(p) => t.(procs := map k | k in t.procs && !(p <= t.procs[k]) :: t.procs[k])
      case Fork(k, child) => t.(procs := t.procs[child := t.procs[k]])
      case Exit(k) => t.(procs := t.procs - {k})
  }

  lemma CallKeepsValid(t: Tree, c: Call)
    requires Valid(t)
    ensures Valid(After(t, c))
  {
    if Accepted(t, c) && c.Rmdir? {
      forall q | q in After(t, c).dirs && q != []
        ensures Front(q) in After(t, c).dirs
      {
        assert q in Children(t, Front(q));
      }
    }
  }

  // ----- no internal processes

  /** The three directories that vzgot only delegates through. */
  predicate Inner(p: Path) { p == Vzgot || p == Supervisors || p == Containers }

  ghost predicate NoInternal(t: Tree) {
    forall k :: k in t.procs ==> !Inner(t.procs[k])
  }

  function Home(supervisor: bool, name: string): Path {
    ["vzgot", if supervisor then "supervisors" else "containers", name]
  }

  /** The path lies in the directory of some container or supervisor. */
  predicate InHome(p: Path) {
    |p| >= 3 && (Home(true, p[2]) <= p || Home(false, p[2]) <= p)
  }

  /** Where a call may put a process: vzgot moves one to the top or to the directory of a container or supervisor;
      a container's own processes move below theirs, and nothing else of the system moves into vzgot's part. */
  predicate Allowed(c: Call) {
    c.Move? ==> c.path == Top || !(Vzgot <= c.path) || InHome(c.path)
  }

  /** The moves that vzgot makes: phase 8 of the building, phase 10 of `boot`, and the way to the top. */
  lemma OwnMovesAllowed(pid: Pid, s: bool, name: string)
    ensures Allowed(Move(pid, Top)) && Allowed(Move(pid, Home(s, name))) && !Inner(Home(s, name))
  {
    assert |Home(s, name)| == 3 && Home(s, name)[2] == name;
  }

  function Run(t: Tree, cs: seq<Call>): Tree {
    if cs == [] then t else After(Run(t, cs[..|cs| - 1]), cs[|cs| - 1])
  }

  /** Over any interleaving of the calls of any number of supervisors and containers, the three inner directories never
      hold a process, so the kernel never refuses them the controllers for that reason. */
  lemma {:induction false} NeverInternal(t: Tree, cs: seq<Call>)
    requires Valid(t) && NoInternal(t) && forall i :: 0 <= i < |cs| ==> Allowed(cs[i])
    ensures Valid(Run(t, cs)) && NoInternal(Run(t, cs))
    ensures forall p :: Inner(p) ==>
              (Accepted(Run(t, cs), Enable(p)) <==> p in Run(t, cs).dirs && Front(p) in Run(t, cs).ctl)
  {
    if cs != [] {
      var c := cs[|cs| - 1];
      NeverInternal(t, cs[..|cs| - 1]);
      CallKeepsValid(Run(t, cs[..|cs| - 1]), c);
    }
  }

  /** Homes of different containers, or of different kinds, have nothing in common below them. */
  lemma HomesApart(s: bool, n: string, s': bool, n': string, p: Path)
    requires s != s' || n != n'
    ensures !(Home(s, n) <= p && Home(s', n') <= p)
  {
    assert "supervisors"[0] != "containers"[0];
    assert Home(s, n) <= p ==> p[1] == Home(s, n)[1] && p[2] == n;
    assert Home(s', n') <= p ==> p[1] == Home(s', n')[1] && p[2] == n';
  }

  // ----- the program

  function Below(t: Tree, p: Path): set<Path> {
    set q | q in t.dirs && p <= q
  }

  ghost predicate Occupied(t: Tree, p: Path) {
    exists k :: k in t.procs && p <= t.procs[k]
  }

  /** `t'` is `t` with directories below `p` removed; nothing else differs. */
  ghost predicate PrunedBelow(t: Tree, t': Tree, p: Path) {
    && t'.dirs <= t.dirs && t'.procs == t.procs
    && (forall q :: q in t.dirs && !(p <= q) ==> q in t'.dirs)
    && (forall q :: q in t.ctl && q in t'.dirs ==> q in t'.ctl) && t'.ctl <= t.ctl
  }

  lemma ChildStep(t: Tree, p: Path, q: Path)
    requires q != [] && Front(q) == p
    ensures p <= q && !(q <= p) && (Occupied(t, q) ==> Occupied(t, p))
  {
  }

  /** Removing all of one child's part is removing in the parent's part, and takes just that child. */
  lemma ChildPruned(t: Tree, u: Tree, v: Tree, p: Path, q: Path)
    requires PrunedBelow(t, u, p) && PrunedBelow(u, v, q) && q in Children(u, p)
    ensures PrunedBelow(t, v, p)
    ensures Below(v, q) == {} ==> Children(v, p) == Children(u, p) - {q} && (p in u.dirs ==> p in v.dirs)
  {
    ChildStep(u, p, q);
    forall r | r in t.dirs && !(p <= r)
      ensures r in v.dirs
    {
      assert !(q <= r);
    }
    if Below(v, q) == {} {
      forall r | r in Children(u, p) && r != q
        ensures r in v.dirs
      {
        assert !(q <= r);
      }
      assert q in v.dirs ==> q in Below(v, q);
    }
  }

  lemma FewerBelow(t: Tree, u: Tree, p: Path, q: Path)
    requires u.dirs <= t.dirs && p in t.dirs && q != [] && Front(q) == p
    ensures |Below(u, q)| < |Below(t, p)|
  {
    ChildStep(t, p, q);
    assert Below(u, q) <= Below(t, p) - {p};
    Smaller(Below(u, q), Below(t, p) - {p});
  }

  lemma {:induction false} Smaller<T>(a: set<T>, b: set<T>)
    requires a <= b
    ensures |a| <= |b|
  {
    if a != {} {
      var x :| x in a;
      Smaller(a - {x}, b - {x});
    }
  }

  /** A directory without children holds all the processes below it. */
  lemma LeafHoldsAll(t: Tree, p: Path)
    requires Valid(t) && p in t.dirs && Children(t, p) == {}
    ensures Empty(t, p) <==> !Occupied(t, p)
    ensures Below(t, p) == {p}
  {
    forall q | q in t.dirs && p <= q
      ensures q == p
    {
      NoneBelow(t, p, q);
    }
  }

  lemma {:induction false} NoneBelow(t: Tree, p: Path, q: Path)
    requires Valid(t) && Children(t, p) == {} && q in t.dirs && p <= q
    ensures q == p
    decreases |q|
  {
    if q != p {
      var f := Front(q);
      assert q in Children(t, f);
      NoneBelow(t, p, f);
    }
  }

  class Cgroups {
    var tree: Tree

    constructor (tree: Tree)
      ensures this.tree == tree
    {
      this.tree := tree;
    }

    /** One call to the kernel. */
    method Do(c: Call) returns (ok: bool)
      modifies this
      ensures tree == After(old(tree), c) && ok == Accepted(old(tree), c)
    {
      ok := Accepted(tree, c);
      tree := After(tree, c);
    }

    /** Visit a directory after everything below it, in any order among siblings, and remove it; stop at the first
        that cannot be removed. */
    method CleanBelow(p: Path) returns (ok: bool)
      requires Valid(tree) && p in tree.dirs && p != []
      modifies this
      ensures Valid(tree) && PrunedBelow(old(tree), tree, p)
      ensures ok <==> !Occupied(old(tree), p)
      ensures ok ==> Below(tree, p) == {}
      decreases |Below(tree, p)|
    {
      var todo := Children(tree, p);
      while todo != {}
        invariant Valid(tree) && PrunedBelow(old(tree), tree, p) && p in tree.dirs
        invariant todo == Children(tree, p)
      {
        var q :| q in todo;
        ChildStep(tree, p, q);
        FewerBelow(old(tree), tree, p, q);
        ghost var u := tree;
        ok := CleanBelow(q);
        ChildPruned(old(tree), u, tree, p, q);
        if !ok {
          return;
        }
        todo := todo - {q};
      }
      LeafHoldsAll(tree, p);
      ok := Do(Rmdir(p));
    }

    /** Kill everything below a directory, wait, then remove it. A supervisor that was in it goes no further. */
    method CleanRecursive(p: Path, self: Pid, kill: bool) returns (alive: bool)
      requires Valid(tree) && p != [] && self in tree.procs
      modifies this
      ensures Valid(tree) && PrunedBelow(if kill then After(old(tree), Kill(p)) else old(tree), tree, p)
      ensures alive <==> self in tree.procs
      ensures alive <==> !(kill && p <= old(tree).procs[self])
      ensures alive && (kill || !Occupied(old(tree), p)) ==> Below(tree, p) == {}
    {
      if kill {
        OccupantsExist(tree, p);
        CallKeepsValid(tree, Kill(p));
        var done := Do(Kill(p));
      }
      alive := self in tree.procs;
      if alive {
        AbsentBelow(tree, p);
        if p in tree.dirs {
          var removed := CleanBelow(p);
        }
      }
    }

    /** Phase 17 of the supervisor: leave for the top, then clean what belongs to the container. */
    method Teardown(name: string, self: Pid, move: bool, killC: bool, killS: bool) returns (alive: bool)
      requires Valid(tree) && self in tree.procs
      modifies this
      ensures Valid(tree) && (alive <==> self in tree.procs)
      ensures var at := old(tree).procs[self];
              alive <==> move || !((killC && Home(false, name) <= at) || (killS && Home(true, name) <= at))
      ensures OthersKept(old(tree), tree, name, self)
      ensures alive ==> tree.procs[self] == if move then Top else old(tree).procs[self]
      ensures alive && killC ==> Below(tree, Home(false, name)) == {}
      ensures alive && killS ==> Below(tree, Home(true, name)) == {}
    {
      var c, s := Home(false, name), Home(true, name);
      if move {
        var moved := Do(Move(self, Top));
      }
      ghost var t1 := tree;
      alive := CleanRecursive(c, self, killC);
      ghost var t2 := tree;
      CleanedKeeps(t1, t2, c);
      if alive {
        alive := CleanRecursive(s, self, killS);
        CleanedKeeps(t2, tree, s);
      }
    }

    /** Make a directory, or accept that it is there. */
    method MakeDir(p: Path, fine: bool) returns (ok: bool)
      requires Valid(tree) && p != [] && Front(p) in tree.dirs
      modifies this
      ensures Valid(tree) && ok == fine
      ensures tree == if fine then old(tree).(dirs := old(tree).dirs + {p}) else old(tree)
    {
      ok := fine;
      if fine && p !in tree.dirs {
        CallKeepsValid(tree, Mkdir(p));
        var made := Do(Mkdir(p));
      }
    }

    /** Delegate controllers; the caller is always told that it worked. */
    method Delegate(p: Path, fine: bool)
      requires Valid(tree)
      modifies this
      ensures Valid(tree) && tree == if fine then After(old(tree), Enable(p)) else old(tree)
    {
      if fine {
        CallKeepsValid(tree, Enable(p));
        var done := Do(Enable(p));
      }
    }

    /** One phase of the building; `go` is false when it ends there. */
    method SetUpPhase(n: nat, name: string, self: Pid, fine: bool) returns (go: bool)
      requires Valid(tree) && NoInternal(tree) && self in tree.procs && Made(n, name) <= tree.dirs && n <= 8
      modifies this
      ensures Valid(tree) && NoInternal(tree) && go == (Vital(n) ==> fine)
      ensures tree.dirs == if go then old(tree).dirs + Made(n + 1, name) else old(tree).dirs
      ensures tree.procs ==
              if n == 8 && fine && Home(true, name) !in old(tree).ctl then old(tree).procs[self := Home(true, name)]
              else old(tree).procs
      ensures tree.ctl == old(tree).ctl + (if fine && n == 1 && Top in old(tree).ctl then {Vzgot} else {}) +
                          if fine && n == 4 && Vzgot in old(tree).ctl then {Containers} else {}
    {
      go := true;
      Parents(name);
      match n {
        case 0 => go := MakeDir(Vzgot, fine);
        case 1 => Delegate(Vzgot, fine);
        case 2 => go := MakeDir(Supervisors, fine);
        case 3 => go := MakeDir(Containers, fine);
        case 4 => Delegate(Containers, fine);
        case 5 => go := MakeDir(Home(true, name), fine);
        case 6 => go := MakeDir(Home(false, name), fine);
        case 7 => go := fine;
        case _ =>
          if fine {
            CallKeepsValid(tree, Move(self, Home(true, name)));
            var moved := Do(Move(self, Home(true, name)));
          }
      }
    }

    /** Build the directories of a container, parents first, and enter the supervisor's; `fine` says at which phases
        the system has no objection of its own. */
    method SetCgroup(name: string, self: Pid, fine: nat -> bool) returns (isok: bool)
      requires Valid(tree) && NoInternal(tree) && self in tree.procs
      modifies this
      ensures Valid(tree) && NoInternal(tree)
      ensures isok <==> fine(0) && fine(2) && fine(3) && fine(5) && fine(6) && fine(7)
      ensures tree.dirs == old(tree).dirs + (if fine(0) then {Vzgot} else {}) +
                           (if fine(0) && fine(2) then {Supervisors} else {}) +
                           (if fine(0) && fine(2) && fine(3) then {Containers} else {}) +
                           (if fine(0) && fine(2) && fine(3) && fine(5) then {Home(true, name)} else {}) +
                           if fine(0) && fine(2) && fine(3) && fine(5) && fine(6) then {Home(false, name)} else {}
      ensures tree.procs == if isok && fine(8) && Home(true, name) !in old(tree).ctl
                            then old(tree).procs[self := Home(true, name)] else old(tree).procs
      ensures old(tree).ctl <= tree.ctl <= old(tree).ctl + {Vzgot, Containers}
      ensures isok ==> (Vzgot in tree.ctl <==> Vzgot in old(tree).ctl || (fine(1) && Top in old(tree).ctl))
      ensures isok ==> (Containers in tree.ctl <==> Containers in old(tree).ctl || (fine(4) && Vzgot in tree.ctl))
    {
      isok := false;
      ghost var t := tree;
      ghost var done: nat := 0;
      var phase: nat, proceed := 0, true;
      while proceed
        invariant phase <= 9 && Valid(tree) && NoInternal(tree)
        invariant done <= 9 && Built(t, tree, done, name, self, fine)
        invariant proceed ==> done == phase && (isok <==> phase > 8)
        invariant !proceed ==> !isok && done <= 7 && Vital(done) && !fine(done)
        decreases 10 - phase, proceed
      {
        if phase > 8 {
          break;
        }
        ghost var u := tree;
        MadeGrows(phase, name);
        proceed := SetUpPhase(phase, name, self, fine(phase));
        if proceed {
          BuiltMore(t, u, tree, phase, name, self, fine);
          done := phase + 1;
        } else {
          BuiltStill(t, u, tree, phase, name, self, fine);
        }
        isok := proceed && phase == 8;
        phase := phase + 1;
      }
      VitalPhases(done, name, fine);
    }

    /** From phase 5 to phase 17 of one attempt, the supervisor's calls succeeding: the logger and the container are
        forked, the container is moved, and its processes make any calls below its own directory. All that stays is the
        three inner directories; no process of the container is left, and the supervisor is alive at the top. */
    method Attempt(name: string, self: Pid, logger: Pid, clone: Pid, fine: nat -> bool, work: seq<Call>)
      requires Valid(tree) && NoInternal(tree) && self in tree.procs && (forall n :: fine(n))
      requires logger !in tree.procs && clone !in tree.procs && logger != clone
      requires Home(true, name) !in tree.dirs && Home(false, name) !in tree.dirs
      requires forall v :: AtWork(tree, v, name, self, logger) ==> AllInside(v, name, work)
      modifies this
      ensures tree.dirs == old(tree).dirs + {Vzgot, Supervisors, Containers}
      ensures tree.procs == old(tree).procs[self := Top]
    {
      ghost var t := tree;
      var isok := SetCgroup(name, self, fine);
      Populated(t, tree, name, self, logger, clone);
      var done := Do(Fork(self, logger));
      done := Do(Fork(self, clone));
      done := Do(Move(clone, Home(false, name)));
      var i := 0;
      while i < |work|
        invariant 0 <= i <= |work| && AtWork(t, tree, name, self, logger) && AllInside(tree, name, work[i..])
      {
        assert work[i..][1..] == work[i + 1..];
        WorkGoesOn(t, tree, name, self, logger, work[i]);
        done := Do(work[i]);
        i := i + 1;
      }
      ghost var v := tree;
      var alive := Teardown(name, self, true, true, true);
      AllGone(t, v, tree, name, self, logger);
    }
  }

  lemma Parents(name: string)
    ensures Front(Vzgot) == Top && Front(Supervisors) == Vzgot == Front(Containers)
    ensures Front(Home(true, name)) == Supervisors && Front(Home(false, name)) == Containers
    ensures !Inner(Home(true, name)) && Vzgot != Containers
  {
    assert |Home(true, name)| == 3;
  }

  /** A directory that does not exist has nothing below it. */
  lemma NobodyThere(t: Tree, name: string)
    requires Valid(t) && Home(true, name) !in t.dirs && Home(false, name) !in t.dirs
    ensures forall p :: p in t.dirs ==> !Own(name, p)
  {
    AbsentBelow(t, Home(true, name));
    AbsentBelow(t, Home(false, name));
    forall p | p in t.dirs
      ensures !Own(name, p)
    {
      assert p !in Below(t, Home(true, name)) && p !in Below(t, Home(false, name));
    }
  }

  /** A call made by a process of the container, which sees nothing but its own directory. */
  ghost predicate Inside(v: Tree, name: string, c: Call) {
    var home := Home(false, name);
    match c
    case Mkdir(p) => home <= p
    case Rmdir(p) => home <= p
    case Enable(p) => home <= p
    case Kill(p) => home <= p
    case Move(k, p) => home <= p && (k in v.procs ==> home <= v.procs[k])
    case Fork(k, _) => k in v.procs ==> home <= v.procs[k]
    case Exit(k) => k in v.procs ==> home <= v.procs[k]
  }

  ghost predicate AllInside(v: Tree, name: string, cs: seq<Call>)
    decreases |cs|
  {
    cs == [] || (Inside(v, name, cs[0]) && AllInside(After(v, cs[0]), name, cs[1..]))
  }

  /** The tree of a container at work, `t` being the tree before: outside the container's own directory it is `t` with
      what the supervisor made, and the supervisor and its logger in their place. */
  ghost predicate AtWork(t: Tree, v: Tree, name: string, self: Pid, logger: Pid) {
    var home, desk := Home(false, name), Home(true, name);
    && Valid(v)
    && (forall q :: q in v.dirs && !(home <= q) ==> q in t.dirs || q in {Vzgot, Supervisors, Containers, desk})
    && (forall q :: q in t.dirs || q in {Vzgot, Supervisors, Containers, desk} ==> q in v.dirs)
    && (forall k :: k in t.procs ==> k in v.procs && v.procs[k] == if k == self then desk else t.procs[k])
    && logger in v.procs && v.procs[logger] == desk
    && (forall k :: k in v.procs && k !in t.procs && k != logger ==> home <= v.procs[k])
  }

  lemma Populated(t: Tree, u: Tree, name: string, self: Pid, logger: Pid, clone: Pid)
    requires Valid(t) && Valid(u) && self in t.procs
    requires logger !in t.procs && clone !in t.procs && logger != clone
    requires Home(true, name) !in t.dirs && Home(false, name) !in t.dirs
    requires u.dirs == t.dirs + Made(9, name) && u.procs == t.procs[self := Home(true, name)]
    requires u.ctl <= t.ctl + {Vzgot, Containers}
    ensures var v := After(After(After(u, Fork(self, logger)), Fork(self, clone)), Move(clone, Home(false, name)));
            AtWork(t, v, name, self, logger)
  {
    Parents(name);
    var a := After(u, Fork(self, logger));
    var b := After(a, Fork(self, clone));
    assert b.procs == t.procs[self := Home(true, name)][logger := Home(true, name)][clone := Home(true, name)];
    CallKeepsValid(u, Fork(self, logger));
    CallKeepsValid(a, Fork(self, clone));
    CallKeepsValid(b, Move(clone, Home(false, name)));
  }

  lemma WorkGoesOn(t: Tree, v: Tree, name: string, self: Pid, logger: Pid, c: Call)
    requires Valid(t) && self in t.procs && logger !in t.procs && AtWork(t, v, name, self, logger) && Inside(v, name, c)
    requires Home(true, name) !in t.dirs && Home(false, name) !in t.dirs
    ensures AtWork(t, After(v, c), name, self, logger)
  {
    NobodyThere(t, name);
    Desks(name);
    CallKeepsValid(v, c);
  }

  lemma Desks(name: string)
    ensures var home := Home(false, name);
            !(home <= Home(true, name)) && !(home <= Vzgot) && !(home <= Supervisors) && !(home <= Containers)
  {
    HomesApart(true, name, false, name, Home(true, name));
  }

  lemma AllGone(t: Tree, v: Tree, w: Tree, name: string, self: Pid, logger: Pid)
    requires Valid(t) && Valid(w) && self in t.procs && logger !in t.procs
    requires Home(true, name) !in t.dirs && Home(false, name) !in t.dirs
    requires AtWork(t, v, name, self, logger) && OthersKept(v, w, name, self)
    requires Below(w, Home(true, name)) == {} && Below(w, Home(false, name)) == {}
    requires self in w.procs && w.procs[self] == Top
    ensures w.dirs == t.dirs + {Vzgot, Supervisors, Containers}
    ensures w.procs == t.procs[self := Top]
  {
    NobodyThere(t, name);
    forall p | p in w.dirs
      ensures !Own(name, p)
    {
      assert p !in Below(w, Home(true, name)) && p !in Below(w, Home(false, name));
    }
    assert !Own(name, Vzgot) && !Own(name, Supervisors) && !Own(name, Containers);
    forall k
      ensures k in w.procs <==> k in t.procs
      ensures k in t.procs && k != self ==> w.procs[k] == t.procs[k]
    {
    }
  }

  lemma MadeGrows(n: nat, name: string)
    requires n <= 8
    ensures Made(n, name) <= Made(n + 1, name) <= Made(9, name)
  {
  }

  /** The tree `u` after the phases before `n`, none of which ended the building that began at `t`. */
  ghost predicate Built(t: Tree, u: Tree, n: nat, name: string, self: Pid, fine: nat -> bool) {
    && (forall k: nat :: k < n && Vital(k) ==> fine(k))
    && u.dirs == t.dirs + Made(n, name)
    && t.ctl <= u.ctl <= t.ctl + {Vzgot, Containers}
    && (Vzgot in u.ctl <==> Vzgot in t.ctl || (n > 1 && fine(1) && Top in t.ctl))
    && (Containers in u.ctl <==> Containers in t.ctl || (n > 4 && fine(4) && Vzgot in u.ctl))
    && u.procs == if n > 8 && fine(8) && Home(true, name) !in t.ctl then t.procs[self := Home(true, name)] else t.procs
  }

  lemma BuiltMore(t: Tree, u: Tree, v: Tree, n: nat, name: string, self: Pid, fine: nat -> bool)
    requires n <= 8 && Built(t, u, n, name, self, fine) && (Vital(n) ==> fine(n))
    requires v.dirs == u.dirs + Made(n + 1, name)
    requires v.procs == if n == 8 && fine(n) && Home(true, name) !in u.ctl then u.procs[self := Home(true, name)]
                        else u.procs
    requires v.ctl == u.ctl + (if fine(n) && n == 1 && Top in u.ctl then {Vzgot} else {}) +
                      if fine(n) && n == 4 && Vzgot in u.ctl then {Containers} else {}
    ensures Built(t, v, n + 1, name, self, fine)
  {
    Parents(name);
    MadeGrows(n, name);
  }

  lemma BuiltStill(t: Tree, u: Tree, v: Tree, n: nat, name: string, self: Pid, fine: nat -> bool)
    requires n <= 7 && Vital(n) && Built(t, u, n, name, self, fine)
    requires v.dirs == u.dirs && v.procs == u.procs && v.ctl == u.ctl
    ensures Built(t, v, n, name, self, fine)
  {
  }

  /** All phases through, or the first one of 0, 2, 3, 5, 6 and 7 that failed. */
  lemma VitalPhases(n: nat, name: string, fine: nat -> bool)
    requires n == 9 || (n <= 7 && Vital(n) && !fine(n))
    requires forall k: nat :: k < n && Vital(k) ==> fine(k)
    ensures n == 9 <==> fine(0) && fine(2) && fine(3) && fine(5) && fine(6) && fine(7)
    ensures Made(n, name) == (if fine(0) then {Vzgot} else {}) +
                             (if fine(0) && fine(2) then {Supervisors} else {}) +
                             (if fine(0) && fine(2) && fine(3) then {Containers} else {}) +
                             (if fine(0) && fine(2) && fine(3) && fine(5) then {Home(true, name)} else {}) +
                             if fine(0) && fine(2) && fine(3) && fine(5) && fine(6) then {Home(false, name)} else {}
  {
    assert Vital(0) && Vital(2) && Vital(3) && Vital(5) && Vital(6) && Vital(7);
    assert n in {0, 2, 3, 5, 6, 7, 9};
  }

  /** The phases whose failure ends the building. */
  predicate Vital(n: nat) { n != 1 && n != 4 && n < 8 }

  /** What the phases before `n` of the building create. */
  function Made(n: nat, name: string): set<Path> {
    (if n > 0 then {Vzgot} else {}) + (if n > 2 then {Supervisors} else {}) + (if n > 3 then {Containers} else {}) +
    (if n > 5 then {Home(true, name)} else {}) + (if n > 6 then {Home(false, name)} else {})
  }

  lemma OccupantsExist(t: Tree, p: Path)
    requires Valid(t) && p != []
    ensures Occupied(t, p) ==> p in t.dirs
  {
    if k :| k in t.procs && p <= t.procs[k] {
      AncestorsExist(t, p, t.procs[k]);
    }
  }

  lemma {:induction false} AncestorsExist(t: Tree, p: Path, q: Path)
    requires Valid(t) && q in t.dirs && p <= q
    ensures p in t.dirs
    decreases |q|
  {
    if p != q {
      AncestorsExist(t, p, Front(q));
    }
  }

  lemma AbsentBelow(t: Tree, p: Path)
    requires Valid(t)
    ensures p !in t.dirs ==> Below(t, p) == {}
  {
    if q :| q in t.dirs && p <= q {
      AncestorsExist(t, p, q);
    }
  }

  /** What a step on one directory leaves alone: directories and processes elsewhere. */
  ghost predicate KeptOutside(t: Tree, u: Tree, p: Path) {
    && u.dirs <= t.dirs && u.ctl <= t.ctl
    && (forall q :: q in t.dirs && !(p <= q) ==> q in u.dirs && (q in t.ctl ==> q in u.ctl))
    && (forall k :: k in u.procs ==> k in t.procs && u.procs[k] == t.procs[k])
    && (forall k :: k in t.procs && !(p <= t.procs[k]) ==> k in u.procs)
  }

  lemma CleanedKeeps(t: Tree, u: Tree, p: Path)
    requires PrunedBelow(t, u, p) || PrunedBelow(After(t, Kill(p)), u, p)
    ensures KeptOutside(t, u, p)
  {
  }

  /** Nothing of another container, or outside vzgot, is touched: directories, controllers and processes. */
  ghost predicate OthersKept(t: Tree, u: Tree, name: string, self: Pid) {
    && u.dirs <= t.dirs
    && (forall q :: q in t.dirs && !Own(name, q) ==> q in u.dirs && (q in t.ctl <==> q in u.ctl))
    && (forall k :: k in t.procs && k != self && !Own(name, t.procs[k]) ==> k in u.procs && u.procs[k] == t.procs[k])
    && (forall k :: k in u.procs && k != self ==> k in t.procs && u.procs[k] == t.procs[k])
  }

  predicate Own(name: string, p: Path) {
    Home(false, name) <= p || Home(true, name) <= p
  }

  lemma OthersAreNotOwn(name: string, s: bool, other: string, p: Path)
    requires name != other && (Home(s, other) <= p || Inner(p) || !(Vzgot <= p))
    ensures !Own(name, p)
  {
    HomesApart(s, other, true, name, p);
    HomesApart(s, other, false, name, p);
  }
}
