/** Lists of processes (lib/subprc.c:65-221): growing one, keeping the live ones, and ending all of them, first
    politely. Whether a process answers a signal is given by `alive(pid, n)` at the n-th signal sent. */
module ProcessList {

  datatype Signal = Check | Term | Kill

  /** One call of `kill`, and whether it found the process. */
  datatype Call = Call(pid: int, signal: Signal, ok: bool)

  type Liveness = (int, nat) -> bool

  // ----- lists

  class Processes {
    var nbr: nat
    var pqueue: array<int>

    ghost predicate Valid()
      reads this
    {
      nbr < pqueue.Length
    }

    ghost function Pids(): seq<int>
      reads this, pqueue
      requires Valid()
    {
      pqueue[..nbr]
    }

    constructor ()
      ensures Valid() && fresh(pqueue) && Pids() == []
    {
      nbr := 0;
      pqueue := new int[1];
    }

    /** Store at the end, where there is always room for one, and make room for the next. */
    method Add(pid: int)
      requires Valid()
      modifies this, pqueue
      ensures Valid() && Pids() == old(Pids()) + [pid]
      ensures nbr == old(nbr) + 1 && pqueue.Length == nbr + 1 && fresh(pqueue)
    {
      pqueue[nbr] := pid;
      nbr := nbr + 1;
      var old_queue := pqueue;
      var queue := new int[nbr + 1];
      var i := 0;
      while i < nbr
        invariant 0 <= i <= nbr && nbr < queue.Length && fresh(queue)
        invariant forall k :: 0 <= k < i ==> queue[k] == old_queue[k]
        modifies queue
      {
        queue[i] := old_queue[i];
        i := i + 1;
      }
      pqueue := queue;
    }
  }

  /** No process is 0, the init process always runs, any other is asked. */
  function CheckProcess(pid: int, answers: bool): bool {
    if pid == 0 then false else if pid == 1 then true else answers
  }

  /** The processes found running, in order; `n` signals have been sent before. */
  function Running(pids: seq<int>, alive: Liveness, n: nat): (r: seq<int>)
    ensures |r| <= |pids|
  {
    if pids == [] then []
    else
      var k := |pids| - 1;
      Running(pids[..k], alive, n) +
      if CheckProcess(pids[k], alive(pids[k], n + k)) then [pids[k]] else []
  }

  /** The running ones as a new list, none if there are none. */
  method ChildCheck(prclst: Processes?, alive: Liveness) returns (newprc: Processes?)
    requires prclst != null ==> prclst.Valid()
    ensures prclst == null ==> newprc == null
    ensures prclst != null ==>
              var live := Running(prclst.Pids(), alive, 0);
              && (newprc == null <==> live == [])
              && (newprc != null ==> fresh(newprc) && newprc.Valid() && newprc.Pids() == live &&
                                     newprc.pqueue.Length == newprc.nbr + 1)
  {
    newprc := null;
    if prclst == null {
      return;
    }
    ghost var pids := prclst.Pids();
    var i := 0;
    while i < prclst.nbr
      invariant 0 <= i <= |pids|
      invariant newprc == null <==> Running(pids[..i], alive, 0) == []
      invariant newprc != null ==> fresh(newprc) && fresh(newprc.pqueue) && newprc.Valid() &&
                                   newprc.Pids() == Running(pids[..i], alive, 0) &&
                                   newprc.pqueue.Length == newprc.nbr + 1
    {
      assert pids[..i + 1][..i] == pids[..i];
      var pid := prclst.pqueue[i];
      if CheckProcess(pid, alive(pid, i)) {
        if newprc == null {
          newprc := new Processes();
        }
        newprc.Add(pid);
      }
      i := i + 1;
    }
    assert pids[..i] == pids;
  }

  /** The kept ones are just those found running at their turn: 1 always is, 0 never. */
  lemma {:induction false} RunningMeans(pids: seq<int>, alive: Liveness, n: nat, x: int)
    ensures x in Running(pids, alive, n) <==> FoundRunning(pids, alive, n, x)
  {
    if pids != [] {
      var k := |pids| - 1;
      RunningMeans(pids[..k], alive, n, x);
      FoundSplit(pids, alive, n, x);
    }
  }

  /** `r` lists the processes at the ascending positions `ks`, which are just those found running. */
  ghost predicate Picks(pids: seq<int>, alive: Liveness, n: nat, r: seq<int>, ks: seq<nat>) {
    && |ks| == |r|
    && (forall i, j :: 0 <= i < j < |ks| ==> ks[i] < ks[j])
    && (forall i :: 0 <= i < |ks| ==> ks[i] < |pids| && r[i] == pids[ks[i]])
    && (forall k :: 0 <= k < |pids| ==> (k in ks <==> pids[k] == 1 || (pids[k] != 0 && alive(pids[k], n + k))))
  }

  lemma PicksMore(pids: seq<int>, alive: Liveness, n: nat, r: seq<int>, ks: seq<nat>)
    requires pids != [] && Picks(pids[..|pids| - 1], alive, n, r, ks)
    ensures var k := |pids| - 1;
            if CheckProcess(pids[k], alive(pids[k], n + k)) then Picks(pids, alive, n, r + [pids[k]], ks + [k])
            else Picks(pids, alive, n, r, ks)
  {
    var k := |pids| - 1;
    var front := pids[..k];
    assert forall i :: 0 <= i < k ==> pids[i] == front[i];
    assert k !in ks;
  }

  /** The kept ones are in their old order, and none is left out. */
  lemma {:induction false} RunningInOrder(pids: seq<int>, alive: Liveness, n: nat) returns (ks: seq<nat>)
    ensures Picks(pids, alive, n, Running(pids, alive, n), ks)
  {
    ks := [];
    if pids != [] {
      var k := |pids| - 1;
      ks := RunningInOrder(pids[..k], alive, n);
      var r := Running(pids[..k], alive, n);
      PicksMore(pids, alive, n, r, ks);
      if CheckProcess(pids[k], alive(pids[k], n + k)) {
        ks := ks + [k];
      } else {
        assert Running(pids, alive, n) == r;
      }
    }
  }

  ghost predicate FoundRunning(pids: seq<int>, alive: Liveness, n: nat, x: int) {
    exists k :: 0 <= k < |pids| && pids[k] == x && (x == 1 || (x != 0 && alive(x, n + k)))
  }

  lemma FoundSplit(pids: seq<int>, alive: Liveness, n: nat, x: int)
    requires pids != []
    ensures var k := |pids| - 1;
            FoundRunning(pids, alive, n, x) <==>
            FoundRunning(pids[..k], alive, n, x) || (pids[k] == x && CheckProcess(x, alive(x, n + k)))
  {
    var k := |pids| - 1;
    if FoundRunning(pids[..k], alive, n, x) {
      var j :| 0 <= j < k && pids[..k][j] == x && CheckProcess(x, alive(x, n + j));
      assert pids[j] == x;
    }
    if FoundRunning(pids, alive, n, x) {
      var j :| 0 <= j <= k && pids[j] == x && CheckProcess(x, alive(x, n + j));
      assert j < k ==> pids[..k][j] == x;
    }
  }

  /** The number 0 is never kept, and 1 always. */
  lemma {:induction false} RunningAdmin(pids: seq<int>, alive: Liveness, n: nat)
    ensures 0 !in Running(pids, alive, n)
    ensures 1 in pids <==> 1 in Running(pids, alive, n)
  {
    if pids != [] {
      var k := |pids| - 1;
      RunningAdmin(pids[..k], alive, n);
      assert pids == pids[..k] + [pids[k]];
    }
  }

  // ----- ending all of them

  /** The calls after a signal to every process but 0, 1 and the negative ones. */
  function Round(pids: seq<int>, signal: Signal, alive: Liveness, log: seq<Call>): (r: seq<Call>)
    ensures |r| >= |log|
  {
    if pids == [] then log
    else
      var k := |pids| - 1;
      var l := Round(pids[..k], signal, alive, log);
      if pids[k] <= 1 then l else l + [Call(pids[k], signal, alive(pids[k], |l|))]
  }

  /** Some call from position `n` on found its process. */
  function Answered(log: seq<Call>, n: nat): bool {
    exists j :: n <= j < |log| && log[j].ok
  }

  /** How the rounds stand: nobody answers, or the delay is used up, or neither within the time observed. */
  datatype Stage = Silent | Stubborn | Going

  /** Rounds of checks until nobody answers or `delay` of them are over, observed for `limit` of them; a delay that is
      not positive is never used up. */
  function Rounds(pids: seq<int>, alive: Liveness, log: seq<Call>, delay: int, limit: nat): (seq<Call>, Stage)
    decreases limit
  {
    if limit == 0 then (log, Going)
    else
      var l := Round(pids, Check, alive, log);
      if !Answered(l, |log|) then (l, Silent)
      else if delay == 1 then (l, Stubborn)
      else Rounds(pids, alive, l, delay - 1, limit - 1)
  }

  /** A last check of each, and the end of those that still answer. */
  function Finish(pids: seq<int>, alive: Liveness, log: seq<Call>): seq<Call> {
    if pids == [] then log
    else
      var k := |pids| - 1;
      var l := Finish(pids[..k], alive, log);
      if pids[k] <= 1 then l
      else FinishOne(pids[k], alive, l)
  }

  /** All calls within the time observed, and whether that was to the end. */
  function Ended(pids: seq<int>, alive: Liveness, delay: int, limit: nat): (seq<Call>, bool) {
    var t := Round(pids, Term, alive, []);
    if !Answered(t, 0) then (t, true)
    else
      var (r, stage) := Rounds(pids, alive, t, delay, limit);
      match stage case Silent => (r, true) case Stubborn => (Finish(pids, alive, r), true) case Going => (r, false)
  }

  /** One pass over the list with one signal; tells whether anyone was found. */
  method SignalAll(prclst: Processes, signal: Signal, alive: Liveness, sent: seq<Call>)
    returns (log: seq<Call>, overkill: bool)
    requires prclst.Valid()
    ensures log == Round(prclst.Pids(), signal, alive, sent) && overkill == Answered(log, |sent|)
  {
    log, overkill := sent, false;
    ghost var pids := prclst.Pids();
    var i := 0;
    while i < prclst.nbr
      invariant 0 <= i <= |pids|
      invariant log == Round(pids[..i], signal, alive, sent) && overkill == Answered(log, |sent|)
    {
      assert pids[..i + 1][..i] == pids[..i];
      var pid := prclst.pqueue[i];
      if pid > 1 {
        var call := Call(pid, signal, alive(pid, |log|));
        AnsweredMore(log, |sent|, call);
        log := log + [call];
        overkill := overkill || call.ok;
      }
      i := i + 1;
    }
    assert pids[..i] == pids;
  }

  lemma AnsweredMore(log: seq<Call>, n: nat, c: Call)
    requires n <= |log|
    ensures Answered(log + [c], n) <==> Answered(log, n) || c.ok
  {
    var l := log + [c];
    if Answered(log, n) {
      var j :| n <= j < |log| && log[j].ok;
      assert l[j].ok;
    }
    if c.ok {
      assert l[|log|].ok;
    }
  }

  /** The last pass: what still answers is killed. */
  method FinishAll(prclst: Processes, alive: Liveness, sent: seq<Call>) returns (log: seq<Call>)
    requires prclst.Valid()
    ensures log == Finish(prclst.Pids(), alive, sent)
  {
    log := sent;
    ghost var pids := prclst.Pids();
    var i := 0;
    while i < prclst.nbr
      invariant 0 <= i <= |pids|
      invariant log == Finish(pids[..i], alive, sent)
    {
      assert pids[..i + 1][..i] == pids[..i];
      var pid := prclst.pqueue[i];
      if pid > 1 {
        var ok := alive(pid, |log|);
        ghost var l := log;
        log := log + [Call(pid, Check, ok)];
        if ok {
          log := log + [Call(pid, Kill, alive(pid, |log|))];
          assert log == l + [Call(pid, Check, true), Call(pid, Kill, alive(pid, |l| + 1))];
        }
      }
      i := i + 1;
    }
    assert pids[..i] == pids;
  }

  /** SIGTERM to all; then one round of checks a second as long as someone answers, `delay` at most; then the end.
      `limit` only says how many rounds are observed: without a positive delay they need not end. */
  method ChildKill(prclst: Processes?, delay: int, alive: Liveness, limit: nat)
    returns (r: Processes?, log: seq<Call>, over: bool)
    requires prclst != null ==> prclst.Valid()
    ensures (log, over) == if prclst == null then ([], true) else Ended(prclst.Pids(), alive, delay, limit)
    ensures r == if over then null else prclst
  {
    r, log, over := null, [], true;
    if prclst != null {
      ghost var pids := prclst.Pids();
      var overkill: bool;
      log, overkill := SignalAll(prclst, Term, alive, log);
      if overkill {
        log, over, overkill := Wait(prclst, delay, alive, limit, log);
      }
      if !over {
        r := prclst;
      } else if overkill {
        log := FinishAll(prclst, alive, log);
      }
    }
  }

  /** The waiting loop. */
  method Wait(prclst: Processes, delay: int, alive: Liveness, limit: nat, sent: seq<Call>)
    returns (log: seq<Call>, over: bool, overkill: bool)
    requires prclst.Valid()
    ensures var (l, stage) := Rounds(prclst.Pids(), alive, sent, delay, limit);
            log == l && (over <==> stage != Going) && (over ==> (overkill <==> stage == Stubborn))
  {
    ghost var goal := Rounds(prclst.Pids(), alive, sent, delay, limit);
    var left, n := delay, limit;
    log, over, overkill := sent, false, true;
    while !over && n > 0
      invariant over ==> goal == (log, if overkill then Stubborn else Silent)
      invariant !over ==> overkill && goal == Rounds(prclst.Pids(), alive, log, left, n)
      decreases !over, n
    {
      log, overkill := SignalAll(prclst, Check, alive, log);
      left, n := left - 1, n - 1;
      over := left == 0 || !overkill;
    }
  }

  // ----- what the calls amount to

  /** The processes that are signalled at all, in the order of the list. */
  function Targets(pids: seq<int>): seq<int> {
    if pids == [] then []
    else Targets(pids[..|pids| - 1]) + if pids[|pids| - 1] <= 1 then [] else [pids[|pids| - 1]]
  }

  /** A process above 1 is one, and the targets of two lists are those of the first and then those of the second. */
  lemma {:induction false} TargetsMeaning(a: seq<int>, b: seq<int>, p: int)
    ensures Targets([p]) == if p > 1 then [p] else []
    ensures Targets(a + b) == Targets(a) + Targets(b)
  {
    assert [p][..0] == [];
    if b == [] {
      assert a + b == a;
    } else {
      var k := |b| - 1;
      assert (a + b)[..|a| + k] == a + b[..k];
      TargetsMeaning(a, b[..k], p);
    }
  }

  /** The calls of `r` from position `n` on go to the processes `t` one after the other. */
  ghost predicate CallsTo(t: seq<int>, r: seq<Call>, n: nat, signal: Signal, alive: Liveness) {
    && |r| == n + |t|
    && forall j :: n <= j < |r| ==> r[j] == Call(t[j - n], signal, alive(t[j - n], j))
  }

  /** A round makes one call to each target, in order. */
  lemma {:induction false} RoundMeaning(pids: seq<int>, signal: Signal, alive: Liveness, log: seq<Call>)
    ensures var r, t := Round(pids, signal, alive, log), Targets(pids);
            && log <= r && |r| == |log| + |t| && |t| == Listed(pids)
            && CallsTo(t, r, |log|, signal, alive)
  {
    if pids != [] {
      RoundMeaning(pids[..|pids| - 1], signal, alive, log);
    }
  }

  /** How many of the listed are signalled at all. */
  function Listed(pids: seq<int>): nat {
    if pids == [] then 0 else Listed(pids[..|pids| - 1]) + if pids[|pids| - 1] <= 1 then 0 else 1
  }

  /** Every call answers as the process does at that moment, and none goes to a process that is not listed, nor to 0,
      1 or a group. */
  ghost predicate Sound(pids: seq<int>, alive: Liveness, log: seq<Call>) {
    forall j :: 0 <= j < |log| ==> log[j].pid > 1 && log[j].pid in pids && log[j].ok == alive(log[j].pid, j)
  }

  /** From position `n` on, process `p` was seen dead, or was killed. */
  ghost predicate DoneWith(log: seq<Call>, n: nat, p: int) {
    exists j :: n <= j < |log| && log[j].pid == p && (log[j].signal == Kill || !log[j].ok)
  }

  lemma DoneMore(log: seq<Call>, more: seq<Call>, n: nat, p: int)
    requires DoneWith(log, n, p) && log <= more
    ensures DoneWith(more, n, p)
  {
    var j :| n <= j < |log| && log[j].pid == p && (log[j].signal == Kill || !log[j].ok);
    assert more[j] == log[j];
  }

  /** Every listed process above 1 is done with from position `n` on. */
  ghost predicate AllDone(pids: seq<int>, log: seq<Call>, n: nat) {
    forall i :: 0 <= i < |pids| && pids[i] > 1 ==> DoneWith(log, n, pids[i])
  }

  lemma SilentMore(pids: seq<int>, l: seq<Call>, n: nat, c: Call)
    requires pids != [] && n <= |l| && c.pid == pids[|pids| - 1]
    requires !Answered(l, n) ==> AllDone(pids[..|pids| - 1], l, n)
    ensures !Answered(l + [c], n) ==> AllDone(pids, l + [c], n)
  {
    var k, r := |pids| - 1, l + [c];
    AnsweredMore(l, n, c);
    if !Answered(r, n) {
      forall i | 0 <= i < |pids| && pids[i] > 1
        ensures DoneWith(r, n, pids[i])
      {
        if i < k {
          assert pids[..k][i] == pids[i];
          DoneMore(l, r, n, pids[i]);
        } else {
          assert r[|l|] == c && !c.ok;
        }
      }
    }
  }

  /** `r` is `log` after a round: every listed process was called once, and whoever does not answer is seen dead. */
  ghost predicate RoundDone(pids: seq<int>, all: seq<int>, signal: Signal, alive: Liveness, log: seq<Call>,
                            r: seq<Call>)
  {
    && log <= r && |r| == |log| + Listed(pids) && Sound(all, alive, r)
    && (forall j :: |log| <= j < |r| ==> r[j].signal == signal)
    && (!Answered(r, |log|) ==> AllDone(pids, r, |log|))
  }

  lemma OneCall(pids: seq<int>, all: seq<int>, signal: Signal, alive: Liveness, log: seq<Call>, l: seq<Call>, c: Call)
    requires pids != [] && RoundDone(pids[..|pids| - 1], all, signal, alive, log, l)
    requires c == Call(pids[|pids| - 1], signal, alive(pids[|pids| - 1], |l|)) && c.pid > 1 && c.pid in all
    ensures RoundDone(pids, all, signal, alive, log, l + [c])
  {
    SilentMore(pids, l, |log|, c);
  }

  lemma NoCall(pids: seq<int>, all: seq<int>, signal: Signal, alive: Liveness, log: seq<Call>, l: seq<Call>)
    requires pids != [] && RoundDone(pids[..|pids| - 1], all, signal, alive, log, l) && pids[|pids| - 1] <= 1
    ensures RoundDone(pids, all, signal, alive, log, l)
  {
    assert forall i :: 0 <= i < |pids| - 1 ==> pids[..|pids| - 1][i] == pids[i];
  }

  lemma {:induction false} RoundFacts(pids: seq<int>, all: seq<int>, signal: Signal, alive: Liveness, log: seq<Call>)
    requires Sound(all, alive, log) && (forall i :: 0 <= i < |pids| ==> pids[i] in all)
    ensures RoundDone(pids, all, signal, alive, log, Round(pids, signal, alive, log))
  {
    if pids != [] {
      var k := |pids| - 1;
      RoundFacts(pids[..k], all, signal, alive, log);
      var l := Round(pids[..k], signal, alive, log);
      if pids[k] > 1 {
        OneCall(pids, all, signal, alive, log, l, Call(pids[k], signal, alive(pids[k], |l|)));
      } else {
        NoCall(pids, all, signal, alive, log, l);
      }
    }
  }

  ghost predicate NoKill(log: seq<Call>) {
    forall j :: 0 <= j < |log| ==> log[j].signal != Kill
  }

  /** The rounds: when nobody answers any more all are done with; the delay is used up only by full rounds, and always
      in time. */
  lemma {:induction false} RoundsFacts(pids: seq<int>, alive: Liveness, log: seq<Call>, delay: int, limit: nat)
    requires Sound(pids, alive, log) && NoKill(log)
    ensures var (r, stage) := Rounds(pids, alive, log, delay, limit);
            && Sound(pids, alive, r) && NoKill(r)
            && (stage == Silent ==> AllDone(pids, r, 0))
            && (stage == Stubborn ==> delay >= 1 && |r| == |log| + Times(delay, Listed(pids)))
            && (1 <= delay <= limit ==> stage != Going && |r| <= |log| + Times(delay, Listed(pids)))
    decreases limit
  {
    if limit > 0 {
      var l := Round(pids, Check, alive, log);
      RoundFacts(pids, pids, Check, alive, log);
      TimesStep(delay, Listed(pids));
      if Answered(l, |log|) && delay != 1 {
        RoundsFacts(pids, alive, l, delay - 1, limit - 1);
      }
    }
  }

  /** `n` calls in each of so many rounds. */
  function Times(rounds: int, n: nat): nat {
    if rounds <= 0 then 0 else n + Times(rounds - 1, n)
  }

  lemma TimesStep(rounds: int, n: nat)
    ensures rounds >= 1 ==> Times(rounds, n) == n + Times(rounds - 1, n)
  {
  }

  /** A kill comes right after the same process answered. */
  ghost predicate KillsTheLiving(log: seq<Call>, n: nat) {
    forall j :: 0 <= j < |log| && log[j].signal == Kill ==> j > n && log[j - 1] == Call(log[j].pid, Check, true)
  }

  /** Finishing with one more process, above 1. */
  function FinishOne(p: int, alive: Liveness, l: seq<Call>): seq<Call> {
    if alive(p, |l|) then l + [Call(p, Check, true), Call(p, Kill, alive(p, |l| + 1))] else l + [Call(p, Check, false)]
  }

  lemma FinishOneFacts(all: seq<int>, p: int, alive: Liveness, n: nat, l: seq<Call>)
    requires Sound(all, alive, l) && KillsTheLiving(l, n) && n <= |l| && p > 1 && p in all
    ensures var r := FinishOne(p, alive, l);
            l <= r && |r| <= |l| + 2 && Sound(all, alive, r) && KillsTheLiving(r, n) && DoneWith(r, 0, p)
  {
    var r := FinishOne(p, alive, l);
    assert r[|r| - 1].pid == p && (r[|r| - 1].signal == Kill || !r[|r| - 1].ok);
  }

  lemma DoneStays(pids: seq<int>, log: seq<Call>, more: seq<Call>)
    requires pids != [] && AllDone(pids[..|pids| - 1], log, 0) && log <= more
    requires var p := pids[|pids| - 1]; p > 1 ==> DoneWith(more, 0, p)
    ensures AllDone(pids, more, 0)
  {
    forall i | 0 <= i < |pids| && pids[i] > 1
      ensures DoneWith(more, 0, pids[i])
    {
      if i < |pids| - 1 {
        assert pids[..|pids| - 1][i] == pids[i];
        DoneMore(log, more, 0, pids[i]);
      }
    }
  }

  lemma {:induction false} FinishFacts(pids: seq<int>, all: seq<int>, alive: Liveness, log: seq<Call>)
    requires Sound(all, alive, log) && NoKill(log) && (forall i :: 0 <= i < |pids| ==> pids[i] in all)
    ensures var r := Finish(pids, alive, log);
            && log <= r && |r| <= |log| + 2 * Listed(pids) && Sound(all, alive, r)
            && KillsTheLiving(r, |log|) && AllDone(pids, r, 0)
  {
    if pids != [] {
      var k := |pids| - 1;
      var front, p := pids[..k], pids[k];
      FinishFacts(front, all, alive, log);
      var l := Finish(front, alive, log);
      if p > 1 {
        FinishOneFacts(all, p, alive, |log|, l);
      }
      DoneStays(pids, l, Finish(pids, alive, log));
    }
  }

  /** The whole, with a delay or without: no call but to listed processes above 1; when it is over each of these was
      seen dead or killed; a kill comes only after SIGTERM and `delay` full rounds, right after the process answered. */
  lemma KillFacts(pids: seq<int>, alive: Liveness, delay: int, limit: nat)
    ensures var (e, over) := Ended(pids, alive, delay, limit);
            && Sound(pids, alive, e) && (over ==> AllDone(pids, e, 0))
            && KillsTheLiving(e, Listed(pids) + Times(delay, Listed(pids)))
            && (delay <= 0 ==> NoKill(e))
  {
    var t := Round(pids, Term, alive, []);
    RoundFacts(pids, pids, Term, alive, []);
    if Answered(t, 0) {
      RoundsFacts(pids, alive, t, delay, limit);
      var (r, stage) := Rounds(pids, alive, t, delay, limit);
      if stage == Stubborn {
        FinishFacts(pids, pids, alive, r);
      }
    }
  }

  /** A positive delay ends it, within `delay` rounds and `delay + 3` calls a process. */
  lemma KillEnds(pids: seq<int>, alive: Liveness, delay: int, limit: nat)
    requires 1 <= delay <= limit
    ensures Ended(pids, alive, delay, limit).1
    ensures |Ended(pids, alive, delay, limit).0| <= Times(delay, Listed(pids)) + 3 * Listed(pids)
  {
    var t := Round(pids, Term, alive, []);
    RoundFacts(pids, pids, Term, alive, []);
    if Answered(t, 0) {
      RoundsFacts(pids, alive, t, delay, limit);
      var (r, stage) := Rounds(pids, alive, t, delay, limit);
      if stage == Stubborn {
        FinishFacts(pids, pids, alive, r);
      }
    }
  }

  /** When the dead stay dead, only processes that answered every call before are killed. */
  lemma OnlyTheStubborn(pids: seq<int>, alive: Liveness, delay: int, limit: nat, i: nat, j: nat)
    requires forall p, m, n :: 0 <= m <= n && alive(p, n) ==> alive(p, m)
    requires var e := Ended(pids, alive, delay, limit).0; i < j < |e| && e[j].signal == Kill && e[i].pid == e[j].pid
    ensures Ended(pids, alive, delay, limit).0[i].ok
  {
    KillFacts(pids, alive, delay, limit);
    var e := Ended(pids, alive, delay, limit).0;
    assert e[j - 1].ok && alive(e[j].pid, j - 1);
    assert alive(e[j].pid, i);
  }

  /** From position `n` on, no SIGTERM. */
  ghost predicate NoTerm(log: seq<Call>, n: nat) {
    forall j :: n <= j < |log| ==> log[j].signal != Term
  }

  lemma {:induction false} RoundsNoTerm(pids: seq<int>, alive: Liveness, log: seq<Call>, delay: int, limit: nat, n: nat)
    requires NoTerm(log, n) && n <= |log|
    ensures var (r, _) := Rounds(pids, alive, log, delay, limit); log <= r && NoTerm(r, n)
    decreases limit
  {
    if limit > 0 {
      var l := Round(pids, Check, alive, log);
      NoTermInRound(pids, alive, log, l, n);
      if Answered(l, |log|) && delay != 1 {
        RoundsNoTerm(pids, alive, l, delay - 1, limit - 1, n);
      }
    }
  }

  lemma NoTermInRound(pids: seq<int>, alive: Liveness, log: seq<Call>, l: seq<Call>, n: nat)
    requires NoTerm(log, n) && l == Round(pids, Check, alive, log)
    ensures log <= l && NoTerm(l, n)
  {
    RoundMeaning(pids, Check, alive, log);
  }

  lemma {:induction false} FinishNoTerm(pids: seq<int>, alive: Liveness, log: seq<Call>, n: nat)
    requires NoTerm(log, n) && n <= |log|
    ensures log <= Finish(pids, alive, log) && NoTerm(Finish(pids, alive, log), n)
  {
    if pids != [] {
      FinishNoTerm(pids[..|pids| - 1], alive, log, n);
    }
  }

  /** First of all comes SIGTERM: one to each target, in order, whatever the delay; no later call is one. */
  lemma TermFirst(pids: seq<int>, alive: Liveness, delay: int, limit: nat)
    ensures var e, t := Ended(pids, alive, delay, limit).0, Targets(pids);
            && |e| >= |t| == Listed(pids)
            && (forall j :: 0 <= j < |t| ==> e[j] == Call(t[j], Term, alive(t[j], j)))
            && (forall j :: |t| <= j < |e| ==> e[j].signal != Term)
  {
    var first := Round(pids, Term, alive, []);
    RoundMeaning(pids, Term, alive, []);
    TermOnlyFirst(pids, alive, delay, limit, first, Ended(pids, alive, delay, limit).0);
  }

  lemma TermOnlyFirst(pids: seq<int>, alive: Liveness, delay: int, limit: nat, first: seq<Call>, e: seq<Call>)
    requires first == Round(pids, Term, alive, []) && e == Ended(pids, alive, delay, limit).0
    ensures first <= e && NoTerm(e, |first|)
  {
    if Answered(first, 0) {
      var (r, _) := Rounds(pids, alive, first, delay, limit);
      RoundsNoTerm(pids, alive, first, delay, limit, |first|);
      FinishNoTerm(pids, alive, r, |first|);
    }
  }
}
