/** The monitor that runs inside a container (lib/unimon.c:51-170, 268-363; lib/utlsys.c:3213-3282): mount checks that
    repair what is missing, and the budget of repairs, a sliding window of half an hour. */
module Monitor {

  const MXTRY := 50
  const TRYGAP := 1800

  // ----- the window

  /** The charges still remembered at time `t`: those in front that are too old are dropped. */
  function Purged(q: seq<int>, t: int): seq<int> {
    if q != [] && q[0] <= t - TRYGAP then Purged(q[1..], t) else q
  }

  /** The charges remembered after a request at time `t`, and whether it was granted. */
  function Charge(q: seq<int>, t: int): (seq<int>, bool) {
    var p := Purged(q, t);
    if |p| < MXTRY - 1 then (p + [t], true) else (p, false)
  }

  lemma {:induction false} PurgedFront(q: seq<int>, t: int)
    ensures Purged(q, t) == [] || Purged(q, t)[0] > t - TRYGAP
    ensures |Purged(q, t)| <= |q|
  {
    if q != [] && q[0] <= t - TRYGAP {
      PurgedFront(q[1..], t);
    }
  }

  /** The static array and counter of `check_binding`. */
  class Budget {
    const last: array<int>
    var count: nat

    ghost predicate Valid()
      reads this, last
    {
      last.Length == MXTRY && count < MXTRY && forall k :: count <= k < MXTRY ==> last[k] == 0
    }

    ghost function Charges(): seq<int>
      requires Valid()
      reads this, last
    {
      last[..count]
    }

    constructor ()
      ensures Valid() && Charges() == [] && fresh(last)
    {
      last := new int[MXTRY](_ => 0);
      count := 0;
    }

    /** Forget the oldest charge: shift the others down and clear the last place. */
    method Forget()
      requires Valid() && count > 0
      modifies this`count, last
      ensures Valid() && count == old(count) - 1 && Charges() == old(Charges())[1..]
    {
      count := count - 1;
      if count > 0 {
        forall k | 0 <= k < count { last[k] := last[k + 1]; }
      }
      last[count] := 0;
    }

    method Note(curtime: int)
      requires Valid() && count < MXTRY - 1
      modifies this`count, last
      ensures Valid() && Charges() == old(Charges()) + [curtime]
    {
      last[count] := curtime;
      count := count + 1;
    }

    /** Purge from the front, then take note of the request or refuse it. */
    method CheckBinding(curtime: int) returns (isok: bool)
      requires Valid()
      modifies this`count, last
      ensures Valid() && (Charges(), isok) == Charge(old(Charges()), curtime)
    {
      isok := false;
      ghost var q := Charges();
      while count > 0 && last[0] <= curtime - TRYGAP
        invariant Valid() && Purged(Charges(), curtime) == Purged(q, curtime)
        decreases count
      {
        assert Charges()[0] == last[0];
        Forget();
      }
      assert count > 0 ==> Charges()[0] == last[0];
      if count >= MXTRY - 1 && last[0] > curtime - TRYGAP {
        return;
      }
      Note(curtime);
      isok := true;
    }
  }

  /** What a list of requests leaves remembered, and which of them were granted. */
  function Remembered(ts: seq<int>): seq<int> {
    if ts == [] then [] else Charge(Remembered(ts[..|ts| - 1]), ts[|ts| - 1]).0
  }

  function Granted(ts: seq<int>): seq<int> {
    if ts == [] then []
    else
      var t := ts[|ts| - 1];
      Granted(ts[..|ts| - 1]) + if Charge(Remembered(ts[..|ts| - 1]), t).1 then [t] else []
  }

  predicate Sorted(s: seq<int>) { forall i, j :: 0 <= i < j < |s| ==> s[i] <= s[j] }

  /** The granted requests of the last half hour before time `t`, in seconds. */
  function Recent(s: seq<int>, t: int): seq<int> {
    if s == [] then []
    else Recent(s[..|s| - 1], t) + if s[|s| - 1] > t - 1800 then [s[|s| - 1]] else []
  }

  /** On a sorted list the recent part is what purging leaves, and purging twice is purging once. */
  lemma {:induction false} RecentIsPurged(s: seq<int>, t: int)
    requires Sorted(s)
    ensures Recent(s, t) == Purged(s, t)
  {
    if s != [] {
      var front, x := s[..|s| - 1], s[|s| - 1];
      RecentIsPurged(front, t);
      PurgedAppend(front, x, t);
      assert front + [x] == s;
    }
  }

  lemma {:induction false} PurgedAppend(s: seq<int>, x: int, t: int)
    requires forall i :: 0 <= i < |s| ==> s[i] <= x
    ensures Purged(s + [x], t) == Purged(s, t) + if x > t - TRYGAP then [x] else []
  {
    if s == [] {
      assert s + [x] == [x];
      assert [x][1..] == [];
    } else {
      assert (s + [x])[1..] == s[1..] + [x];
      if s[0] <= t - TRYGAP {
        PurgedAppend(s[1..], x, t);
      }
    }
  }

  lemma {:induction false} PurgedTwice(s: seq<int>, t: int, u: int)
    requires t <= u
    ensures Purged(Purged(s, t), u) == Purged(s, u)
  {
    if s != [] && s[0] <= t - TRYGAP {
      PurgedTwice(s[1..], t, u);
    }
  }

  predicate UpTo(s: seq<int>, t: int) { Sorted(s) && (s != [] ==> s[|s| - 1] <= t) }

  lemma UpToAppend(s: seq<int>, t: int)
    requires UpTo(s, t)
    ensures UpTo(s + [t], t) && forall i :: 0 <= i < |s| ==> s[i] <= t
  {
  }

  lemma OneMore(ts: seq<int>, t: int)
    ensures Remembered(ts + [t]) == Charge(Remembered(ts), t).0
    ensures Granted(ts + [t]) == if Charge(Remembered(ts), t).1 then Granted(ts) + [t] else Granted(ts)
  {
    assert (ts + [t])[..|ts|] == ts;
  }

  /** One request more: what is remembered is again the grants that purging leaves. */
  lemma RememberedStep(ts: seq<int>, t: int)
    requires UpTo(Granted(ts), t) && Purged(Remembered(ts), t) == Purged(Granted(ts), t)
    ensures UpTo(Granted(ts + [t]), t) && Remembered(ts + [t]) == Purged(Granted(ts + [t]), t)
  {
    OneMore(ts, t);
    UpToAppend(Granted(ts), t);
    PurgedAppend(Granted(ts), t, t);
  }

  /** What is remembered after any requests is what purging leaves of all the granted ones. */
  lemma {:induction false} RememberedIsPurged(ts: seq<int>, t: int)
    requires UpTo(ts, t)
    ensures UpTo(Granted(ts), t)
    ensures Purged(Remembered(ts), t) == Purged(Granted(ts), t)
  {
    if ts != [] {
      var front, u := ts[..|ts| - 1], ts[|ts| - 1];
      assert front + [u] == ts;
      RememberedIsPurged(front, u);
      RememberedStep(front, u);
      PurgedTwice(Granted(ts), u, t);
    }
  }

  /** With a clock that never goes back, a request at time `t` leaves remembered exactly the grants of the last half
      hour, in order, and is granted exactly when they are fewer than 49 before it. */
  lemma WindowIsExact(ts: seq<int>, t: int)
    requires UpTo(ts, t)
    ensures Remembered(ts + [t]) == Recent(Granted(ts + [t]), t)
    ensures Granted(ts + [t]) == if |Recent(Granted(ts), t)| < 49 then Granted(ts) + [t] else Granted(ts)
  {
    RememberedIsPurged(ts, t);
    RecentIsPurged(Granted(ts), t);
    RememberedStep(ts, t);
    RecentIsPurged(Granted(ts + [t]), t);
    OneMore(ts, t);
  }

  /** Any 50 successive times span at least half an hour. */
  ghost predicate Spread(g: seq<int>) {
    forall i, j :: 0 <= i && j == i + 49 && j < |g| ==> g[j] >= g[i] + 1800
  }

  lemma {:induction false} RecentLength(s: seq<int>, t: int, n: nat)
    requires Sorted(s) && n <= |s|
    ensures |Recent(s, t)| >= n <==> n == 0 || s[|s| - n] > t - TRYGAP
  {
    if s != [] && n > 0 {
      var front := s[..|s| - 1];
      RecentLength(front, t, n - 1);
      if s[|s| - 1] <= t - TRYGAP {
        RecentNone(front, t);
      }
    }
  }

  lemma {:induction false} RecentNone(s: seq<int>, t: int)
    requires forall i :: 0 <= i < |s| ==> s[i] <= t - TRYGAP
    ensures Recent(s, t) == []
  {
    if s != [] {
      RecentNone(s[..|s| - 1], t);
    }
  }

  lemma RecentAtMost(s: seq<int>, t: int)
    ensures |Recent(s, t)| <= |s|
  {
  }

  /** The last 49 of `g` leave room for another at time `t`. */
  predicate Room(g: seq<int>, t: int) {
    |g| < MXTRY - 1 || g[|g| - (MXTRY - 1)] <= t - TRYGAP
  }

  lemma RoomIsFewRecent(g: seq<int>, t: int)
    requires Sorted(g)
    ensures Room(g, t) <==> |Recent(g, t)| < MXTRY - 1
  {
    if |g| >= MXTRY - 1 {
      RecentLength(g, t, MXTRY - 1);
    } else {
      RecentAtMost(g, t);
    }
  }

  lemma GrantedNext(ts: seq<int>, t: int)
    requires UpTo(ts, t)
    ensures Granted(ts + [t]) == if Room(Granted(ts), t) then Granted(ts) + [t] else Granted(ts)
  {
    WindowIsExact(ts, t);
    RememberedIsPurged(ts, t);
    RoomIsFewRecent(Granted(ts), t);
  }

  lemma SpreadAppend(g: seq<int>, t: int)
    requires Spread(g)
    ensures Spread(g + [t]) <==> Room(g, t)
  {
    var h := g + [t];
    assert forall i, j :: 0 <= i && j == i + (MXTRY - 1) && j < |g| ==> h[j] == g[j] && h[i] == g[i];
    assert |g| >= MXTRY - 1 ==> h[|g|] == t && h[|g| - (MXTRY - 1)] == g[|g| - (MXTRY - 1)];
  }

  lemma {:induction false} GrantsAreSpread(ts: seq<int>)
    requires Sorted(ts)
    ensures Spread(Granted(ts))
  {
    if ts != [] {
      var front, u := ts[..|ts| - 1], ts[|ts| - 1];
      GrantsAreSpread(front);
      assert front + [u] == ts;
      SpreadAppend(Granted(front), u);
      GrantedNext(front, u);
    }
  }

  /** Over a run nothing is refused exactly when any 50 successive requests span half an hour. */
  lemma {:induction false} NothingRefused(ts: seq<int>)
    requires Sorted(ts)
    ensures Granted(ts) == ts <==> Spread(ts)
    ensures |Granted(ts)| <= |ts|
  {
    GrantsAreSpread(ts);
    if ts != [] {
      var front, u := ts[..|ts| - 1], ts[|ts| - 1];
      assert UpTo(front, u) && front + [u] == ts;
      NothingRefused(front);
      GrantedNext(front, u);
      if Spread(ts) {
        assert Spread(front);
      }
    }
  }

  /** How many of `g` lie in `(lo, hi]`. */
  function CountIn(g: seq<int>, lo: int, hi: int): nat {
    if g == [] then 0
    else CountIn(g[..|g| - 1], lo, hi) + if lo < g[|g| - 1] <= hi then 1 else 0
  }

  lemma {:induction false} CountNone(g: seq<int>, lo: int, hi: int)
    requires forall i :: 0 <= i < |g| ==> g[i] <= lo
    ensures CountIn(g, lo, hi) == 0
  {
    if g != [] {
      CountNone(g[..|g| - 1], lo, hi);
    }
  }

  /** When nothing lies beyond the window, its members are the last ones. */
  lemma {:induction false} CountSuffix(g: seq<int>, lo: int, hi: int)
    requires UpTo(g, hi)
    ensures var c := CountIn(g, lo, hi); c <= |g| && (c > 0 ==> g[|g| - c] > lo)
  {
    if g != [] {
      var front := g[..|g| - 1];
      CountSuffix(front, lo, hi);
      if g[|g| - 1] <= lo {
        CountNone(front, lo, hi);
      }
    }
  }

  lemma {:induction false} AtMost49(g: seq<int>, hi: int)
    requires Sorted(g) && Spread(g)
    ensures CountIn(g, hi - TRYGAP, hi) <= MXTRY - 1
  {
    if g != [] {
      var front := g[..|g| - 1];
      AtMost49(front, hi);
      if g[|g| - 1] <= hi {
        CountSuffix(g, hi - TRYGAP, hi);
      }
    }
  }

  /** No half hour of any run holds more than 49 grants. */
  lemma NoWindowOverfull(ts: seq<int>, hi: int)
    requires Sorted(ts)
    ensures CountIn(Granted(ts), hi - 1800, hi) <= 49
  {
    if ts != [] {
      RememberedIsPurged(ts, ts[|ts| - 1]);
    }
    GrantsAreSpread(ts);
    AtMost49(Granted(ts), hi);
  }

  // ----- the mounts

  /** What a source names: nothing, or a file with an identity (device and inode). */
  datatype Source = Missing | Present(id: nat)

  /** What a target shows: nothing, a file with the identity last bound there, or a directory. */
  datatype Target = Absent | File(id: nat) | Directory(tmpfs: bool)

  /** How the calls on one device end, and when the budget would be charged for it. */
  datatype Device = Device(src: Source, statfs: bool, mount: bool, clock: int)

  function Rebound(d: Device, t: Target): Target {
    if d.src.Missing? || t.Absent? then t
    else if t.Directory? then (if d.statfs && d.mount then Directory(true) else t)
    else if d.mount then File(d.src.id)
    else t
  }

  /** The check reports true, and so charges the budget. */
  predicate Reported(d: Device, t: Target) {
    d.src.Missing? || t.Absent? || (t.Directory? && !(d.statfs && t.tmpfs)) || (t.File? && t.id != d.src.id)
  }

  /** A source and a target that need no mount. */
  predicate InPlace(s: Source, t: Target) {
    s.Present? && !t.Absent? && if t.Directory? then t.tmpfs else t.id == s.id
  }

  /** A check changes a target by a mount that works, and only one that needs it; the target is then in place. */
  lemma ReboundMeaning(d: Device, t: Target)
    ensures Rebound(d, t) != t <==>
              d.mount && d.src.Present? && !t.Absent? && !InPlace(d.src, t) && (t.Directory? ==> d.statfs)
    ensures Rebound(d, t) != t ==> InPlace(d.src, Rebound(d, t)) && (Rebound(d, t).Directory? <==> t.Directory?)
  {
  }

  /** The charge times of a pass over the table, and the targets it leaves. */
  function Charged(ds: seq<Device>, ts: seq<Target>): seq<int>
    requires |ds| == |ts|
  {
    if ds == [] then []
    else
      var n := |ds| - 1;
      Charged(ds[..n], ts[..n]) + if Reported(ds[n], ts[n]) then [ds[n].clock] else []
  }

  function Left(ds: seq<Device>, ts: seq<Target>): (r: seq<Target>)
    requires |ds| == |ts|
    ensures |r| == |ts| && forall i :: 0 <= i < |r| ==> r[i] == Rebound(ds[i], ts[i])
  {
    if ds == [] then [] else var n := |ds| - 1; Left(ds[..n], ts[..n]) + [Rebound(ds[n], ts[n])]
  }

  /** What is remembered after the charges `cs`, starting from the window `q`; and whether all were granted. */
  function Spend(q: seq<int>, cs: seq<int>): seq<int> {
    if cs == [] then q else Charge(Spend(q, cs[..|cs| - 1]), cs[|cs| - 1]).0
  }

  predicate Paid(q: seq<int>, cs: seq<int>) {
    cs == [] || (Paid(q, cs[..|cs| - 1]) && Charge(Spend(q, cs[..|cs| - 1]), cs[|cs| - 1]).1)
  }

  /** Both at once: the window left, and whether nothing was refused. */
  function Settled(q: seq<int>, cs: seq<int>): (seq<int>, bool) {
    (Spend(q, cs), Paid(q, cs))
  }

  lemma SpendMore(q: seq<int>, cs: seq<int>, c: int)
    ensures (Spend(q, cs + [c]), Paid(q, cs + [c])) ==
            (Charge(Spend(q, cs), c).0, Paid(q, cs) && Charge(Spend(q, cs), c).1)
  {
    assert (cs + [c])[..|cs|] == cs;
  }

  /** The mounts of a container and the budget of repairs. */
  class Mounts {
    var targets: seq<Target>
    const budget: Budget

    constructor (targets: seq<Target>)
      ensures this.targets == targets && fresh(budget) && fresh(budget.last) && budget.Valid() && budget.Charges() == []
    {
      this.targets := targets;
      budget := new Budget();
    }

    /** Look at one source and target; mount what is not in place. */
    method CheckRemount(i: nat, d: Device) returns (needbind: bool)
      requires i < |targets|
      modifies this
      ensures targets == old(targets)[i := Rebound(d, old(targets)[i])] && needbind == Reported(d, old(targets)[i])
    {
      needbind := true;
      var isok, dotmpfs := false, false;
      match d.src {
        case Missing => return;
        case Present(id) =>
          match targets[i] {
            case Absent => return;
            case Directory(tmpfs) =>
              dotmpfs := true;
              if !d.statfs { return; }
              isok := tmpfs;
            case File(current) =>
              isok := current == id;
          }
          if isok {
            needbind := false;
          } else if d.mount {
            targets := targets[i := if dotmpfs then Directory(true) else File(id)];
          }
      }
    }

    /** One turn of the loop: a check, and a charge when it reports. */
    method CheckDevice(i: nat, d: Device) returns (granted: bool)
      requires budget.Valid() && i < |targets|
      modifies this, budget`count, budget.last
      ensures budget.Valid() && targets == old(targets)[i := Rebound(d, old(targets)[i])]
      ensures (budget.Charges(), granted) ==
              if Reported(d, old(targets)[i]) then Charge(old(budget.Charges()), d.clock)
              else (old(budget.Charges()), true)
    {
      var need := CheckRemount(i, d);
      granted := true;
      if need {
        granted := budget.CheckBinding(d.clock);
      }
    }

    /** Check every device of the table; true unless a repair was refused. */
    method CheckMounts(ds: seq<Device>) returns (isok: bool)
      requires budget.Valid() && |ds| == |targets|
      modifies this, budget`count, budget.last
      ensures budget.Valid() && targets == Left(ds, old(targets))
      ensures (budget.Charges(), isok) == Settled(old(budget.Charges()), Charged(ds, old(targets)))
    {
      isok := true;
      ghost var ts, q := targets, budget.Charges();
      var i := 0;
      while i < |ds|
        invariant 0 <= i <= |ds| && |targets| == |ts| && budget.Valid()
        invariant forall k :: 0 <= k < |ts| ==> targets[k] == if k < i then Rebound(ds[k], ts[k]) else ts[k]
        invariant (budget.Charges(), isok) == Settled(q, Charged(ds[..i], ts[..i]))
      {
        OneDevice(ds, ts, i, q);
        var granted := CheckDevice(i, ds[i]);
        isok := isok && granted;
        i := i + 1;
      }
      assert ds[..i] == ds && ts[..i] == ts;
    }

    /** The poll loop, observed for the given events. */
    method Loop(events: seq<Event>) returns (keepRunning: bool)
      requires budget.Valid() && forall k :: 0 <= k < |events| ==> Fitting(events[k])
      modifies this, budget`count, budget.last
      ensures budget.Valid()
      ensures Watch(targets, budget.Charges(), keepRunning) ==
              Watched(Watch(old(targets), old(budget.Charges()), true), events)
    {
      keepRunning := true;
      ghost var w := Watch(targets, budget.Charges(), true);
      var i := 0;
      while keepRunning && i < |events|
        invariant 0 <= i <= |events| && budget.Valid()
        invariant Watch(targets, budget.Charges(), keepRunning) == Watched(w, events[..i])
        invariant keepRunning || Watched(w, events) == Watched(w, events[..i])
      {
        assert events[..i + 1][..i] == events[..i];
        match events[i] {
          case PollFailed(_) => keepRunning := false;
          case TimedOut(stored, termBefore, termIn) =>
            if termBefore || termIn { keepRunning := false; }      // handle_shutdown, before the result is assigned
            keepRunning := stored;
          case Changed(ds, shown, termBefore, termIn, termAfter) =>
            targets := shown;
            if termBefore || termIn { keepRunning := false; }
            keepRunning := CheckMounts(ds);
            if termAfter { keepRunning := false; }
        }
        i := i + 1;
        if !keepRunning { StaysStopped(w, events, i); }
      }
      assert keepRunning ==> events[..i] == events;
    }
  }

  // ----- the poll loop

  /** What ends a poll: a failure (`term` when it is an interrupt by SIGTERM), a quiet time-out after which the last pid
      is stored, or a change of the mounts, with what the targets show by then. `termBefore`, `termIn` and `termAfter`
      say that SIGTERM arrives between the loop's test and the poll, during the check, or in the second of sleep that
      follows it. */
  datatype Event =
    | PollFailed(term: bool)
    | TimedOut(stored: bool, termBefore: bool, termIn: bool)
    | Changed(ds: seq<Device>, shown: seq<Target>, termBefore: bool, termIn: bool, termAfter: bool)

  predicate Fitting(e: Event) { e.Changed? ==> |e.ds| == |e.shown| }

  datatype Watch = Watch(targets: seq<Target>, window: seq<int>, running: bool)

  /** The result of a check overwrites the flag that SIGTERM cleared while it went on. */
  function OnEvent(w: Watch, e: Event): Watch
    requires Fitting(e)
  {
    match e
    case PollFailed(_) => w.(running := false)
    case TimedOut(stored, _, _) => w.(running := stored)
    case Changed(ds, shown, _, _, termAfter) =>
      var (window, paid) := Settled(w.window, Charged(ds, shown));
      Watch(Left(ds, shown), window, paid && !termAfter)
  }

  function Watched(w: Watch, es: seq<Event>): Watch
    requires forall k :: 0 <= k < |es| ==> Fitting(es[k])
  {
    if es == [] then w
    else
      var v := Watched(w, es[..|es| - 1]);
      if v.running then OnEvent(v, es[|es| - 1]) else v
  }

  lemma {:induction false} StaysStopped(w: Watch, es: seq<Event>, i: nat)
    requires i <= |es| && (forall k :: 0 <= k < |es| ==> Fitting(es[k])) && !Watched(w, es[..i]).running
    ensures Watched(w, es) == Watched(w, es[..i])
  {
    if i < |es| {
      var front := es[..|es| - 1];
      assert front[..i] == es[..i];
      StaysStopped(w, front, i);
    } else {
      assert es[..i] == es;
    }
  }

  lemma OneDevice(ds: seq<Device>, ts: seq<Target>, i: nat, q: seq<int>)
    requires i < |ds| == |ts|
    ensures var (w, ok) := Settled(q, Charged(ds[..i], ts[..i]));
            var (v, granted) := Settled(q, Charged(ds[..i + 1], ts[..i + 1]));
            if Reported(ds[i], ts[i]) then v == Charge(w, ds[i].clock).0 && granted == (ok && Charge(w, ds[i].clock).1)
            else (v, granted) == (w, ok)
  {
    SpendMore(q, Charged(ds[..i], ts[..i]), ds[i].clock);
    assert ds[..i + 1][..i] == ds[..i] && ts[..i + 1][..i] == ts[..i];
    if !Reported(ds[i], ts[i]) {
      assert Charged(ds[..i + 1], ts[..i + 1]) == Charged(ds[..i], ts[..i]);
    }
  }

  /** A pass charges nothing exactly when every device is in place, and then it mounts nothing. */
  lemma {:induction false} QuietPass(ds: seq<Device>, ts: seq<Target>)
    requires |ds| == |ts|
    ensures Charged(ds, ts) == [] <==> forall i :: 0 <= i < |ds| ==> Quiet(ds[i], ts[i])
    ensures Charged(ds, ts) == [] ==> Left(ds, ts) == ts
  {
    if ds != [] {
      var n := |ds| - 1;
      QuietPass(ds[..n], ts[..n]);
      QuietIsUnreported(ds[n], ts[n]);
    }
  }

  predicate Quiet(d: Device, t: Target) {
    InPlace(d.src, t) && (t.Directory? ==> d.statfs)
  }

  lemma QuietIsUnreported(d: Device, t: Target)
    ensures Quiet(d, t) <==> !Reported(d, t)
    ensures Quiet(d, t) ==> Rebound(d, t) == t
  {
  }

  /** Two passes with nothing changed in between: the second mounts nothing and spends nothing exactly when all
      sources and targets exist and, at each device, the first found it in place or its mount succeeded. */
  lemma PassesStabilise(ds: seq<Device>, es: seq<Device>, ts: seq<Target>, q: seq<int>)
    requires |ds| == |es| == |ts|
    requires forall i :: 0 <= i < |ds| ==> es[i].src == ds[i].src && ds[i].statfs && es[i].statfs
    ensures Charged(es, Left(ds, ts)) == [] <==>
            forall i :: 0 <= i < |ds| ==>
              ds[i].src.Present? && !ts[i].Absent? && (InPlace(ds[i].src, ts[i]) || ds[i].mount)
    ensures Charged(es, Left(ds, ts)) == [] ==>
              Left(es, Left(ds, ts)) == Left(ds, ts) && Paid(q, Charged(es, Left(ds, ts))) &&
              Spend(q, Charged(es, Left(ds, ts))) == q
  {
    QuietPass(es, Left(ds, ts));
    forall i | 0 <= i < |ds|
      ensures InPlace(es[i].src, Left(ds, ts)[i]) <==>
              ds[i].src.Present? && !ts[i].Absent? && (InPlace(ds[i].src, ts[i]) || ds[i].mount)
    {
      assert Left(ds, ts)[i] == Rebound(ds[i], ts[i]);
    }
  }

  // ----- a device that cannot be repaired

  datatype Pass = Pass(devices: seq<Device>, targets: seq<Target>)

  ghost predicate WellFormed(ps: seq<Pass>) {
    forall k :: 0 <= k < |ps| ==> |ps[k].devices| == |ps[k].targets|
  }

  /** All the charges of successive passes. */
  function Charges(ps: seq<Pass>): seq<int>
    requires WellFormed(ps)
  {
    if ps == [] then []
    else
      var n := |ps| - 1;
      Charges(ps[..n]) + Charged(ps[n].devices, ps[n].targets)
  }

  ghost predicate Broken(p: Pass, i: nat) {
    i < |p.devices| == |p.targets| && (p.devices[i].src.Missing? || p.targets[i].Absent?)
  }

  lemma {:induction false} BrokenCharges(ds: seq<Device>, ts: seq<Target>, i: nat)
    requires |ds| == |ts| && Broken(Pass(ds, ts), i)
    ensures |Charged(ds, ts)| >= 1
  {
    var n := |ds| - 1;
    if i < n {
      BrokenCharges(ds[..n], ts[..n], i);
    }
  }

  lemma {:induction false} EveryPassCharges(ps: seq<Pass>, i: nat)
    requires WellFormed(ps) && forall k :: 0 <= k < |ps| ==> Broken(ps[k], i)
    ensures |Charges(ps)| >= |ps|
  {
    if ps != [] {
      var n := |ps| - 1;
      EveryPassCharges(ps[..n], i);
      BrokenCharges(ps[n].devices, ps[n].targets, i);
    }
  }

  lemma {:induction false} PaidIsGranted(cs: seq<int>)
    ensures Spend([], cs) == Remembered(cs)
    ensures |Granted(cs)| <= |cs|
    ensures Paid([], cs) <==> Granted(cs) == cs
  {
    if cs != [] {
      var front := cs[..|cs| - 1];
      assert front + [cs[|cs| - 1]] == cs;
      PaidIsGranted(front);
      OneMore(front, cs[|cs| - 1]);
    }
  }

  /** A device whose source or target does not exist cannot be repaired, yet is charged on every pass: 50 passes within
      half an hour always end in a refusal. */
  lemma BrokenDeviceStopsIt(ps: seq<Pass>, i: nat)
    requires WellFormed(ps) && |ps| >= 50 && Sorted(Charges(ps))
    requires forall k :: 0 <= k < |ps| ==> Broken(ps[k], i)
    requires Charges(ps) != [] && Charges(ps)[|Charges(ps)| - 1] - Charges(ps)[0] < 1800
    ensures !Paid([], Charges(ps))
  {
    EveryPassCharges(ps, i);
    TooMany(Charges(ps));
  }

  /** Fifty requests within half an hour are never all granted. */
  lemma TooMany(cs: seq<int>)
    requires Sorted(cs) && |cs| >= MXTRY && cs[|cs| - 1] - cs[0] < TRYGAP
    ensures !Paid([], cs)
  {
    PaidIsGranted(cs);
    NothingRefused(cs);
    NotSpread(cs);
  }

  lemma NotSpread(cs: seq<int>)
    requires Sorted(cs) && |cs| >= MXTRY && cs[|cs| - 1] - cs[0] < TRYGAP
    ensures !Spread(cs)
  {
    assert cs[MXTRY - 1] <= cs[|cs| - 1];
    assert cs[MXTRY - 1] < cs[0] + TRYGAP;
  }

  // ----- runs of the loop

  lemma {:induction false} SpendBoth(q: seq<int>, a: seq<int>, b: seq<int>)
    ensures Spend(q, a + b) == Spend(Spend(q, a), b)
    ensures Paid(q, a + b) <==> Paid(q, a) && Paid(Spend(q, a), b)
  {
    if b == [] {
      assert a + b == a;
    } else {
      var front, c := b[..|b| - 1], b[|b| - 1];
      SpendBoth(q, a, front);
      assert a + b == a + front + [c];
      SpendMore(q, a + front, c);
    }
  }

  predicate AllFitting(es: seq<Event>) { forall k :: 0 <= k < |es| ==> Fitting(es[k]) }

  /** The passes over the devices that the changes among the events cause. */
  function Passes(es: seq<Event>): (ps: seq<Pass>)
    requires AllFitting(es)
    ensures WellFormed(ps)
  {
    if es == [] then []
    else
      var n := |es| - 1;
      Passes(es[..n]) + if es[n].Changed? then [Pass(es[n].ds, es[n].shown)] else []
  }

  /** The event itself does not stop the loop: no failed poll, no failed store, no SIGTERM in the sleep. */
  predicate Undisturbed(e: Event) {
    match e case PollFailed(_) => false case TimedOut(stored, _, _) => stored case Changed(_, _, _, _, late) => !late
  }

  lemma PassesMore(es: seq<Event>, q: seq<int>)
    requires AllFitting(es) && es != []
    ensures var n := |es| - 1;
            var before := Charges(Passes(es[..n]));
            if es[n].Changed? then
              && Spend(q, Charges(Passes(es))) == Spend(Spend(q, before), Charged(es[n].ds, es[n].shown))
              && (Paid(q, Charges(Passes(es))) <==>
                  Paid(q, before) && Paid(Spend(q, before), Charged(es[n].ds, es[n].shown)))
            else Passes(es) == Passes(es[..n])
  {
    var n := |es| - 1;
    if es[n].Changed? {
      var ps, p := Passes(es[..n]), Pass(es[n].ds, es[n].shown);
      assert (ps + [p])[..|ps|] == ps;
      SpendBoth(q, Charges(ps), Charged(es[n].ds, es[n].shown));
    }
  }

  predicate AllUndisturbed(es: seq<Event>) { forall k :: 0 <= k < |es| ==> Undisturbed(es[k]) }

  lemma UndisturbedMore(es: seq<Event>)
    requires es != []
    ensures var n := |es| - 1; AllUndisturbed(es) <==> AllUndisturbed(es[..n]) && Undisturbed(es[n])
  {
    var n := |es| - 1;
    assert forall k :: 0 <= k < n ==> es[..n][k] == es[k];
  }

  lemma RunningStep(v: Watch, e: Event)
    requires Fitting(e) && v.running
    ensures OnEvent(v, e).running <==> Undisturbed(e) && (e.Changed? ==> Paid(v.window, Charged(e.ds, e.shown)))
    ensures OnEvent(v, e).window == if e.Changed? then Spend(v.window, Charged(e.ds, e.shown)) else v.window
  {
  }

  /** Over any events the loop is still running if and only if none of them stopped it and every repair was granted; the
      window is then what all the charges leave. */
  lemma {:induction false} RunningIff(w: Watch, es: seq<Event>)
    requires w.running && AllFitting(es)
    ensures Watched(w, es).running <==> AllUndisturbed(es) && Paid(w.window, Charges(Passes(es)))
    ensures Watched(w, es).running ==> Watched(w, es).window == Spend(w.window, Charges(Passes(es)))
  {
    if es != [] {
      var n := |es| - 1;
      RunningIff(w, es[..n]);
      PassesMore(es, w.window);
      UndisturbedMore(es);
      var v := Watched(w, es[..n]);
      if v.running {
        RunningStep(v, es[n]);
      }
    }
  }

  /** SIGTERM arrives with this event. */
  predicate Term(e: Event) {
    match e
    case PollFailed(term) => term
    case TimedOut(_, before, during) => before || during
    case Changed(_, _, before, during, late) => before || during || late
  }

  /** It can only have come between the loop's test and the result of the check, which overwrites the flag that the
      handler cleared: not as an interrupt of the poll, nor in the sleep. */
  predicate Overwritten(e: Event) {
    e.TimedOut? || (e.Changed? && !e.termAfter)
  }

  /** A loop that SIGTERM was sent to, any number of times, is still running if and only if each one came where the
      result of the check overwrites it, no poll failed, every last pid was stored and every repair was granted. */
  lemma SigtermOutlived(w: Watch, es: seq<Event>)
    requires w.running && AllFitting(es)
    ensures Watched(w, es).running <==>
            && (forall k :: 0 <= k < |es| && Term(es[k]) ==> Overwritten(es[k]))
            && (forall k :: 0 <= k < |es| ==> !es[k].PollFailed? && (es[k].TimedOut? ==> es[k].stored))
            && Paid(w.window, Charges(Passes(es)))
  {
    RunningIff(w, es);
    forall k | 0 <= k < |es|
      ensures Undisturbed(es[k]) <==>
              && (Term(es[k]) ==> Overwritten(es[k])) && !es[k].PollFailed? && (es[k].TimedOut? ==> es[k].stored)
    {
    }
  }

  /** With a device that cannot be repaired, 50 changes within half an hour end the loop, whatever happens in
      between. */
  lemma BrokenDeviceEndsLoop(ts: seq<Target>, es: seq<Event>, i: nat)
    requires AllFitting(es) && |Passes(es)| >= 50
    requires forall k :: 0 <= k < |Passes(es)| ==> Broken(Passes(es)[k], i)
    requires var cs := Charges(Passes(es)); Sorted(cs) && cs != [] && cs[|cs| - 1] - cs[0] < 1800
    ensures !Watched(Watch(ts, [], true), es).running
  {
    BrokenDeviceStopsIt(Passes(es), i);
    RunningIff(Watch(ts, [], true), es);
  }
}
