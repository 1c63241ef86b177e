/** CPU lists: the one that `cpuselector` prints (lib/utlsys.c:449-468), the loop that counts such lists
    (lib/utlsys.c:1852-1872, lib/subprc.c:675-695), and the cpu.max quota (lib/utlsys.c:2092-2164).

    The list format is the one of cpuset(7), section "List format": numbers and ranges separated by commas. */
module CpuList {
  import opened Options
  import opened CText

  // ----- decimal numbers

  predicate Digit(c: char) { '0' <= c <= '9' }

  /** printf("%u"). */
  function Dec(n: nat): (s: string)
    ensures s != ""
  {
    (if n < 10 then "" else Dec(n / 10)) + ['0' + (n % 10) as char]
  }

  predicate AllDigits(s: string) { s != "" && forall i :: 0 <= i < |s| ==> Digit(s[i]) }

  /** The number that digits denote. */
  function Value(s: string): nat
    requires forall i :: 0 <= i < |s| ==> Digit(s[i])
  {
    if s == "" then 0
    else
      var c := s[|s| - 1];
      assert Digit(c);
      Value(s[..|s| - 1]) * 10 + (c as int - '0' as int)
  }

  lemma {:induction false} DecValue(n: nat)
    ensures AllDigits(Dec(n)) && Value(Dec(n)) == n
  {
    var s := Dec(n);
    if n >= 10 {
      DecValue(n / 10);
      assert s[..|s| - 1] == Dec(n / 10);
    } else {
      assert s[..|s| - 1] == "";
    }
  }

  /** How many digits the text begins with. */
  function Digits(s: string): (k: nat)
    ensures k <= |s|
    ensures forall i :: 0 <= i < k ==> Digit(s[i])
  {
    if s == "" || !Digit(s[0]) then 0
    else
      var k := Digits(s[1..]);
      assert forall i :: 1 <= i < 1 + k ==> s[i] == s[1..][i - 1];
      1 + k
  }

  function SkipBlanks(s: string): string {
    if s != "" && (s[0] == ' ' || s[0] == '\t' || s[0] == '\n' || s[0] == '\r') then SkipBlanks(s[1..]) else s
  }

  /** The conversion "%d" of scanf: the number and the text behind it. */
  function ScanInt(text: string): Option<(int, string)> {
    var s := SkipBlanks(text);
    var signed := s != "" && (s[0] == '+' || s[0] == '-');
    var t := if signed then s[1..] else s;
    var k := Digits(t);
    if k == 0 then None
    else
      var v: int := Value(t[..k]);
      Some((if signed && s[0] == '-' then -v else v, t[k..]))
  }

  /** sscanf(check,"%d-%d",&start,&end)==2 */
  function ScanRange(s: string): Option<(int, int)> {
    match ScanInt(s)
    case None => None
    case Some((a, rest)) =>
      if rest == "" || rest[0] != '-' then None
      else match ScanInt(rest[1..]) case None => None case Some((b, _)) => Some((a, b))
  }

  // ----- the counter

  /** What one piece between commas adds to the count. */
  function TokenCount(s: string): int {
    if s == "" || !(Digit(s[0]) || s[0] == '-') then 0
    else
      1 + if Find(s, '-', 0) == |s| then 0
          else match ScanRange(s) case None => 0 case Some((a, b)) => b - a
  }

  function Head(s: string): string { s[..Find(s, ',', 0)] }

  /** The text behind the first comma. */
  function Behind(s: string): (r: string)
    ensures s != "" ==> |r| < |s|
  {
    var i := Find(s, ',', 0);
    if i < |s| then s[i + 1..] else ""
  }

  function CountList(s: string): int
    decreases |s|
  {
    if s == "" then 0 else TokenCount(Head(s)) + CountList(Behind(s))
  }

  /** What a counter of sixteen bits holds. */
  function Word(n: int): nat { n % 0x1_0000 }

  /** The counting loop, which cuts the list in its buffer; the counter has sixteen bits. */
  method CountCpus(data: array<char>, ghost text: string) returns (nbr: nat)
    requires Holds(data, 0, text)
    modifies data
    ensures nbr == Word(CountList(text))
  {
    nbr := 0;
    var ptr := 0;
    var more := true;
    ghost var rest, laps := text, 0;
    while more && data[ptr] != NUL
      invariant 0 <= ptr && nbr < 0x1_0000
      invariant more ==> Holds(data, ptr, rest)
      invariant !more ==> rest == ""
      invariant nbr + laps * 0x1_0000 + CountList(rest) == CountList(text)
      decreases |rest|, more
    {
      var check;
      ghost var lap;
      check, more, ptr := CutToken(data, ptr, rest);
      nbr, lap := AddToken(nbr, check);
      laps := laps + lap;
      rest := Behind(rest);
    }
    LapsAreWord(nbr, laps, CountList(text));
  }

  lemma LapsAreWord(nbr: nat, laps: int, n: int)
    requires nbr < 0x1_0000 && nbr + laps * 0x1_0000 == n
    ensures nbr == Word(n)
  {
  }

  /** Addition on the counter; `lap` times round. */
  method Add16(was: nat, n: int) returns (nbr: nat, ghost lap: int)
    ensures nbr < 0x1_0000 && nbr + lap * 0x1_0000 == was + n
  {
    nbr := Word(was + n);
    lap := (was + n) / 0x1_0000;
  }

  /** strchr and the cut: one piece of the list, and where the next one starts. */
  method CutToken(data: array<char>, ptr: nat, ghost rest: string) returns (check: string, more: bool, next: nat)
    requires Holds(data, ptr, rest) && rest != ""
    modifies data
    ensures check == Head(rest)
    ensures if more then Holds(data, next, Behind(rest)) else Behind(rest) == ""
  {
    var i := Seek(data, ptr, ',', 0, rest);
    check := Copied(data, ptr, i, rest);
    more := data[ptr + i] == ',';
    next := ptr + i;
    if more {
      EndAt(data, ptr, i, rest);
      next := ptr + i + 1;
    }
  }

  /** The first `i` characters of a text in the buffer. */
  method Copied(data: array<char>, ptr: nat, i: nat, ghost s: string) returns (r: string)
    requires Holds(data, ptr, s) && i <= |s|
    ensures r == s[..i]
  {
    r := data[ptr..ptr + i];
    assert forall k :: 0 <= k < i ==> r[k] == s[k];
  }

  /** nbr+=end-start; nbr++ on a sixteen-bit counter. */
  method AddToken(was: nat, check: string) returns (nbr: nat, ghost lap: int)
    requires was < 0x1_0000
    ensures nbr < 0x1_0000 && nbr + lap * 0x1_0000 == was + TokenCount(check)
  {
    nbr, lap := was, 0;
    if check != "" && (Digit(check[0]) || check[0] == '-') {
      ghost var l := 0;
      if Find(check, '-', 0) < |check| {
        var r := ScanRange(check);
        if r.Some? {
          nbr, lap := Add16(nbr, r.value.1 - r.value.0);
        }
      }
      nbr, l := Add16(nbr, 1);
      lap := lap + l;
    }
  }

  // ----- lists that are written as cpuset(7) says

  datatype Item = One(cpu: nat) | Range(first: nat, last: nat)

  function First(x: Item): nat { if x.One? then x.cpu else x.first }
  function Last(x: Item): nat { if x.One? then x.cpu else x.last }

  /** How many CPUs an item that is not backwards denotes. */
  function Size(x: Item): int { Last(x) - First(x) + 1 }

  /** The `n` numbers from `a` on. */
  function Interval(a: nat, n: nat): set<nat> {
    if n == 0 then {} else Interval(a, n - 1) + {a + n - 1}
  }

  function Members(x: Item): set<nat> {
    if First(x) <= Last(x) then Interval(First(x), Last(x) - First(x) + 1) else {}
  }

  function Show(x: Item): string { if x.One? then Dec(x.cpu) else Dec(x.first) + "-" + Dec(x.last) }

  function ShowList(xs: seq<Item>): string {
    if xs == [] then "" else if |xs| == 1 then Show(xs[0]) else Show(xs[0]) + "," + ShowList(xs[1..])
  }

  function Denote(xs: seq<Item>): set<nat> {
    if xs == [] then {} else Members(xs[0]) + Denote(xs[1..])
  }

  /** Ascending, disjoint, and no range is backwards. */
  predicate Ascending(xs: seq<Item>) {
    && (forall i :: 0 <= i < |xs| ==> First(xs[i]) <= Last(xs[i]))
    && (forall i, j :: 0 <= i < j < |xs| ==> Last(xs[i]) < First(xs[j]))
  }

  lemma {:induction false} DigitsOf(s: string, t: string)
    requires forall i :: 0 <= i < |s| ==> Digit(s[i])
    requires t == "" || !Digit(t[0])
    ensures Digits(s + t) == |s|
  {
    if s == "" {
      assert s + t == t;
    } else {
      assert (s + t)[1..] == s[1..] + t;
      DigitsOf(s[1..], t);
    }
  }

  /** Digits are scanned as the number they denote, whatever follows them, as long as that is no digit. */
  lemma ScanDigits(s: string, t: string)
    requires AllDigits(s) && (t == "" || !Digit(t[0]))
    ensures ScanInt(s + t) == Some((Value(s), t))
  {
    DigitsOf(s, t);
    Halves(s, t);
    assert (s + t)[0] == s[0];
    UnsignedScan(s + t, |s|, s, t);
  }

  lemma Halves(s: string, t: string)
    ensures (s + t)[..|s|] == s && (s + t)[|s|..] == t
  {
  }

  lemma UnsignedScan(u: string, k: nat, s: string, t: string)
    requires u != "" && Digit(u[0]) && k == Digits(u) > 0 && s == u[..k] && t == u[k..]
    ensures ScanInt(u) == Some((Value(s), t))
  {
    assert SkipBlanks(u) == u;
  }

  /** A printed number is scanned back, whatever follows it, as long as that is no digit. */
  lemma ScanDec(n: nat, t: string)
    requires t == "" || !Digit(t[0])
    ensures ScanInt(Dec(n) + t) == Some((n, t))
  {
    DecValue(n);
    ScanDigits(Dec(n), t);
  }

  /** The conversion passes over blanks and takes a sign. */
  lemma ScanSigned(u: string, v: int, t: string, blank: char)
    requires u != "" && Digit(u[0]) && ScanInt(u) == Some((v, t)) && blank in {' ', '\t', '\n', '\r'}
    ensures ScanInt(['-'] + u) == Some((-v, t)) && ScanInt(['+'] + u) == Some((v, t))
    ensures ScanInt([blank] + u) == Some((v, t))
  {
    SignedText('-', u);
    SignedText('+', u);
    assert ([blank] + u)[1..] == u;
  }

  lemma SignedText(sign: char, u: string)
    requires sign in {'-', '+'} && u != "" && Digit(u[0])
    ensures SkipBlanks(['-'] + u) == ['-'] + u && SkipBlanks(['+'] + u) == ['+'] + u && SkipBlanks(u) == u
    ensures ([sign] + u)[1..] == u
  {
  }

  lemma NoneInTwo(s: string, t: string, c: char)
    requires (forall i :: 0 <= i < |s| ==> s[i] != c) && forall i :: 0 <= i < |t| ==> t[i] != c
    ensures forall i :: 0 <= i < |s + t| ==> (s + t)[i] != c
  {
  }

  predicate LineEnd(end: string) { end == "" || end == "\n" }

  lemma TokenOfDigits(s: string, end: string)
    requires AllDigits(s) && LineEnd(end)
    ensures TokenCount(s + end) == 1
  {
    var u := s + end;
    NoneInTwo(s, end, '-');
    FindNone(u, '-', 0);
    assert u[0] == s[0];
  }

  lemma ScanDigitsRange(s: string, t: string, end: string)
    requires AllDigits(s) && AllDigits(t) && (end == "" || !Digit(end[0]))
    ensures ScanRange(s + ("-" + (t + end))) == Some((Value(s), Value(t)))
  {
    var rest := t + end;
    var tail := "-" + rest;
    ScanDigits(s, tail);
    assert tail[1..] == rest;
    ScanDigits(t, end);
  }

  lemma Regroup(a: string, b: string, c: string, d: string)
    ensures a + b + c + d == a + (b + (c + d))
  {
  }

  lemma RangeToken(u: string, k: nat, a: nat, b: nat)
    requires k < |u| && u[k] == '-' && Digit(u[0]) && ScanRange(u) == Some((a, b))
    ensures TokenCount(u) == b - a + 1
  {
    FindHas(u, '-', 0, k);
  }

  lemma RangeCells(s: string, t: string)
    requires AllDigits(s)
    ensures var u := s + ("-" + t); |s| < |u| && u[|s|] == '-' && Digit(u[0])
  {
    assert (s + ("-" + t))[0] == s[0];
  }

  lemma TokenOfDigitsRange(s: string, t: string, end: string)
    requires AllDigits(s) && AllDigits(t) && LineEnd(end)
    ensures TokenCount(s + "-" + t + end) == Value(t) - Value(s) + 1
  {
    Regroup(s, "-", t, end);
    RangeCells(s, t + end);
    ScanDigitsRange(s, t, end);
    RangeToken(s + ("-" + (t + end)), |s|, Value(s), Value(t));
  }

  /** One printed item adds the number of its CPUs. */
  lemma TokenOfItem(x: Item, end: string)
    requires First(x) <= Last(x) && LineEnd(end)
    ensures TokenCount(Show(x) + end) == Size(x)
  {
    DecValue(First(x));
    DecValue(Last(x));
    match x
    case One(n) => TokenOfDigits(Dec(n), end);
    case Range(a, b) => TokenOfDigitsRange(Dec(a), Dec(b), end);
  }

  lemma NoComma(x: Item, end: string)
    requires LineEnd(end)
    ensures forall i :: 0 <= i < |Show(x) + end| ==> (Show(x) + end)[i] != ','
  {
    DecValue(First(x));
    DecValue(Last(x));
    match x
    case One(n) => NoneInTwo(Dec(n), end, ',');
    case Range(a, b) => NoCommaInRange(Dec(a), Dec(b), end);
  }

  lemma NoCommaInRange(s: string, t: string, end: string)
    requires AllDigits(s) && AllDigits(t) && LineEnd(end)
    ensures forall i :: 0 <= i < |s + "-" + t + end| ==> (s + "-" + t + end)[i] != ','
  {
    NoneInTwo(s, "-", ',');
    NoneInTwo(s + "-", t, ',');
    NoneInTwo(s + "-" + t, end, ',');
  }

  lemma {:induction false} IntervalIs(a: nat, n: nat)
    ensures forall c: nat :: c in Interval(a, n) <==> a <= c < a + n
    ensures |Interval(a, n)| == n
  {
    if n > 0 {
      IntervalIs(a, n - 1);
    }
  }

  lemma {:induction false} DenoteAbove(xs: seq<Item>, low: nat)
    requires forall i :: 0 <= i < |xs| ==> low < First(xs[i])
    ensures forall c :: c in Denote(xs) ==> low < c
  {
    if xs != [] {
      DenoteAbove(xs[1..], low);
      IntervalIs(First(xs[0]), if First(xs[0]) <= Last(xs[0]) then Last(xs[0]) - First(xs[0]) + 1 else 0);
    }
  }

  lemma MembersSize(x: Item)
    requires First(x) <= Last(x)
    ensures |Members(x)| == Size(x)
    ensures forall c :: c in Members(x) ==> c <= Last(x)
  {
    IntervalIs(First(x), Last(x) - First(x) + 1);
  }

  lemma DenoteSize(xs: seq<Item>)
    requires xs != [] && Ascending(xs)
    ensures |Denote(xs)| == Size(xs[0]) + |Denote(xs[1..])|
  {
    var x := xs[0];
    DenoteAbove(xs[1..], Last(x));
    MembersSize(x);
    UnionSize(Members(x), Denote(xs[1..]), Last(x));
  }

  lemma UnionSize(a: set<nat>, b: set<nat>, n: nat)
    requires (forall c :: c in a ==> c <= n) && (forall c :: c in b ==> n < c)
    ensures |a + b| == |a| + |b|
  {
    assert a !! b;
  }

  /** Every ascending list, with or without its newline, is counted as exactly the size of the set it denotes. */
  lemma {:induction false} ListIsCounted(xs: seq<Item>, end: string)
    requires Ascending(xs) && LineEnd(end)
    ensures CountList(ShowList(xs) + end) == |Denote(xs)|
  {
    if xs == [] {
      EmptyListCounts(end);
    } else if |xs| == 1 {
      DenoteSize(xs);
      LastToken(xs[0], end);
    } else {
      ListIsCounted(xs[1..], end);
      OneMoreItem(xs, end, ShowList(xs[1..]) + end);
    }
  }

  lemma OneMoreItem(xs: seq<Item>, end: string, rest: string)
    requires Ascending(xs) && |xs| > 1
    requires rest == ShowList(xs[1..]) + end && CountList(rest) == |Denote(xs[1..])|
    ensures CountList(ShowList(xs) + end) == |Denote(xs)|
  {
    DenoteSize(xs);
    FirstToken(xs[0], rest);
    assert ShowList(xs) + end == Show(xs[0]) + "," + rest;
  }

  lemma EmptyListCounts(end: string)
    requires LineEnd(end)
    ensures CountList("" + end) == 0
  {
    if end == "\n" {
      assert "" + end == "\n";
      assert Find("\n", ',', 0) == 1;
      assert "\n"[..1] == "\n";
    }
  }

  lemma LastToken(x: Item, end: string)
    requires First(x) <= Last(x) && LineEnd(end)
    ensures CountList(Show(x) + end) == Size(x)
  {
    var s := Show(x) + end;
    NoComma(x, end);
    FindNone(s, ',', 0);
    TokenOfItem(x, end);
    assert s[..|s|] == s;
  }

  lemma FirstToken(x: Item, rest: string)
    requires First(x) <= Last(x)
    ensures CountList(Show(x) + "," + rest) == Size(x) + CountList(rest)
  {
    var s, show := Show(x) + "," + rest, Show(x) + "";
    NoComma(x, "");
    TokenOfItem(x, "");
    assert show == Show(x);
    assert forall k :: 0 <= k < |show| ==> s[k] == show[k];
    assert s[|show|] == ',';
    FindIs(s, ',', 0, |show|);
    assert s[..|show|] == show && s[|show| + 1..] == rest;
  }

  // ----- the list that cpuselector prints

  /** The chosen CPUs below `n`, one by one. */
  function Singles(chosen: set<nat>, n: nat): seq<Item> {
    if n == 0 then [] else Singles(chosen, n - 1) + if n - 1 in chosen then [One(n - 1)] else []
  }

  function Below(chosen: set<nat>, n: nat): set<nat> { set c | c in chosen && c < n }

  lemma ShowListCons(ys: seq<Item>, x: Item, rest: seq<Item>)
    requires ys == [x] + rest && rest != []
    ensures ShowList(ys) == Show(x) + "," + ShowList(rest)
  {
    assert ys[1..] == rest;
  }

  lemma Reassociate(a: string, b: string, c: string)
    ensures a + "," + (b + "," + c) == a + "," + b + "," + c
  {
  }

  lemma {:induction false} ShowListAppend(xs: seq<Item>, x: Item)
    ensures ShowList(xs + [x]) == if xs == [] then Show(x) else ShowList(xs) + "," + Show(x)
  {
    if xs == [] {
      assert xs + [x] == [x];
    } else {
      var first, rest := xs[0], xs[1..];
      assert xs + [x] == [first] + (rest + [x]);
      ShowListCons(xs + [x], first, rest + [x]);
      ShowListAppend(rest, x);
      if rest != [] {
        ShowListCons(xs, first, rest);
        Reassociate(Show(first), ShowList(rest), Show(x));
      }
    }
  }

  lemma {:induction false} DenoteAppend(xs: seq<Item>, x: Item)
    ensures Denote(xs + [x]) == Denote(xs) + Members(x)
  {
    if xs == [] {
      assert xs + [x] == [x];
    } else {
      assert (xs + [x])[1..] == xs[1..] + [x];
      DenoteAppend(xs[1..], x);
    }
  }

  lemma {:induction false} SinglesAscend(chosen: set<nat>, n: nat)
    ensures Ascending(Singles(chosen, n))
    ensures forall i :: 0 <= i < |Singles(chosen, n)| ==> Last(Singles(chosen, n)[i]) < n
  {
    if n > 0 {
      SinglesAscend(chosen, n - 1);
    }
  }

  lemma BelowGrows(chosen: set<nat>, n: nat)
    requires n > 0
    ensures Below(chosen, n) == Below(chosen, n - 1) + if n - 1 in chosen then Members(One(n - 1)) else {}
  {
    assert Interval(n - 1, 1) == {n - 1};
  }

  /** The printed list is ascending and denotes exactly the chosen CPUs below the limit. */
  lemma {:induction false} SinglesDenote(chosen: set<nat>, n: nat)
    ensures Ascending(Singles(chosen, n))
    ensures Denote(Singles(chosen, n)) == Below(chosen, n)
  {
    SinglesAscend(chosen, n);
    if n > 0 {
      SinglesDenote(chosen, n - 1);
      BelowGrows(chosen, n);
      DenoteAppend(Singles(chosen, n - 1), One(n - 1));
      assert n - 1 !in chosen ==> Singles(chosen, n) == Singles(chosen, n - 1);
    }
  }

  /** Phase 7 of cpuselector: `buf` is empty before the first number and a comma from then on. */
  method PrintCpus(chosen: set<nat>, maxcpu: nat) returns (line: string)
    ensures line == ShowList(Singles(chosen, maxcpu)) + "\n"
  {
    line := "";
    var buf := "";
    var i := 0;
    while i < maxcpu
      invariant 0 <= i <= maxcpu && Printed(line, buf, Singles(chosen, i))
    {
      PrintedMore(line, buf, chosen, i);
      if i in chosen {
        line := line + buf + Dec(i);
        buf := ",";
      }
      i := i + 1;
    }
    line := line + "\n";
  }

  /** The line printed for some items, and what to put before the next one. */
  predicate Printed(line: string, buf: string, xs: seq<Item>) {
    line == ShowList(xs) && buf == if xs == [] then "" else ","
  }

  lemma PrintedMore(line: string, buf: string, chosen: set<nat>, i: nat)
    requires Printed(line, buf, Singles(chosen, i))
    ensures if i in chosen then Printed(line + buf + Dec(i), ",", Singles(chosen, i + 1))
            else Printed(line, buf, Singles(chosen, i + 1))
  {
    var xs := Singles(chosen, i);
    if i in chosen {
      var more := Singles(chosen, i + 1);
      assert more == xs + [One(i)] && more != [];
      ShowListAppend(xs, One(i));
      Separated(line, buf, Dec(i), ShowList(more), xs == []);
    } else {
      assert Singles(chosen, i + 1) == xs;
    }
  }

  lemma Separated(line: string, buf: string, shown: string, all: string, start: bool)
    requires buf == (if start then "" else ",") && all == if start then shown else line + "," + shown
    requires start ==> line == ""
    ensures line + buf + shown == all
  {
  }

  /** Round trip: counting the list that was printed for a set of CPUs gives the size of that set. */
  lemma PrintedListIsCounted(chosen: set<nat>, maxcpu: nat)
    ensures CountList(ShowList(Singles(chosen, maxcpu)) + "\n") == |Below(chosen, maxcpu)|
  {
    SinglesDenote(chosen, maxcpu);
    ListIsCounted(Singles(chosen, maxcpu), "\n");
  }

  // ----- the quota

  const SAMPLE := 100000

  datatype Quota = Max | Usec(u: nat)

  /** sys_set_cont_usage: what is written to cpu.max before the sample length. */
  method ContUsage(numcpu: nat, ratio: real) returns (consigne: Quota)
    requires ratio >= 0.0
    ensures consigne == QuotaOf(numcpu, ratio)
  {
    var usage := Times(ratio, numcpu).Floor;
    if usage <= 0 {
      usage := SAMPLE / 4;
    }
    consigne := Usec(usage);
    if usage >= numcpu * SAMPLE {
      consigne := Max;
    }
  }

  /** (ratio*numcpu*SAMPLE)/100.0 */
  function Times(ratio: real, numcpu: nat): real { (ratio * numcpu as real * 100000.0) / 100.0 }

  /** The quota when `asked` microseconds of each sample are asked for. */
  function QuotaAt(numcpu: nat, asked: int): Quota {
    var usage := if asked <= 0 then SAMPLE / 4 else asked;
    if usage >= numcpu * SAMPLE then Max else Usec(usage)
  }

  function QuotaOf(numcpu: nat, ratio: real): Quota {
    QuotaAt(numcpu, Times(ratio, numcpu).Floor)
  }

  lemma QuotaOfTime(numcpu: nat, asked: real)
    requires numcpu >= 1 && asked >= 0.0
    ensures QuotaAt(numcpu, asked.Floor) == Max <==> asked >= numcpu as real * 100000.0
    ensures asked < numcpu as real * 100000.0 ==>
              var u := QuotaAt(numcpu, asked.Floor).u;
              && u < numcpu * 100000
              && (asked < 1.0 ==> u == 25000)
              && (asked >= 1.0 ==> u as real <= asked < u as real + 1.0)
  {
    var n := numcpu * 100000;
    assert n as real == numcpu as real * 100000.0;
  }

  /** For a container with CPUs the quota is "max" exactly from a ratio of 100 on; below, it is the 25000 fallback
      exactly when less than one microsecond is asked for, and otherwise the whole microseconds of what is asked,
      always short of the full machine. */
  lemma QuotaMeaning(numcpu: nat, ratio: real)
    requires numcpu >= 1 && ratio >= 0.0
    ensures QuotaOf(numcpu, ratio) == Max <==> ratio >= 100.0
    ensures ratio < 100.0 ==>
              var u := QuotaOf(numcpu, ratio).u;
              var asked := Times(ratio, numcpu);
              && u < numcpu * 100000
              && (asked < 1.0 ==> u == 25000)
              && (asked >= 1.0 ==> u as real <= asked < u as real + 1.0)
  {
    TimesBound(ratio, numcpu);
    QuotaOfTime(numcpu, Times(ratio, numcpu));
  }

  lemma TimesBound(ratio: real, numcpu: nat)
    requires numcpu >= 1 && ratio >= 0.0
    ensures Times(ratio, numcpu) >= 0.0
    ensures Times(ratio, numcpu) >= numcpu as real * 100000.0 <==> ratio >= 100.0
  {
    ShareBound(ratio, numcpu as real);
  }

  /** A share of `n` whole things is the whole exactly from one hundred percent on. */
  lemma ShareBound(ratio: real, n: real)
    requires n > 0.0 && ratio >= 0.0
    ensures (ratio * n * 100000.0) / 100.0 >= 0.0
    ensures (ratio * n * 100000.0) / 100.0 >= n * 100000.0 <==> ratio >= 100.0
  {
    var less := ratio - 100.0;
    var d := less * n;
    assert ratio * n == d + 100.0 * n;
    assert less >= 0.0 ==> d >= 0.0;
    assert less < 0.0 ==> d < 0.0;
    assert ratio * n >= 0.0;
  }
}
