/** The two functions that count the CPUs of a container (lib/utlsys.c:1808-1885, lib/subprc.c:631-707): a line of the
    kernel goes through a buffer of 200 or 199 characters, and what the buffer does not hold is not counted. */
module CpuCounter {
  import opened Options
  import opened CText
  import opened CpuList

  // ----- the two counting functions

  function TrimEnd(s: string): string {
    if s != "" && s[|s| - 1] in {'\n', '\r', ' '} then TrimEnd(s[..|s| - 1]) else s
  }

  function TrimStart(s: string): string {
    if s != "" && s[0] in {' ', '\t'} then TrimStart(s[1..]) else s
  }

  /** apl_cleanstring (lib/utlapl.c:782-806), in the buffer. */
  method CleanString(str: array<char>, ghost s: string) returns (ghost t: string)
    requires Holds(str, 0, s)
    modifies str
    ensures t == TrimStart(TrimEnd(s)) && Holds(str, 0, t)
  {
    t := s;
    var taille := StrLen(str, 0, s);
    while taille > 0
      invariant taille == |t| && Holds(str, 0, t) && TrimEnd(t) == TrimEnd(s)
    {
      assert str[taille - 1] == t[taille - 1];
      if str[taille - 1] !in {'\n', '\r', ' '} {
        break;
      }
      str[taille - 1] := NUL;
      t := t[..taille - 1];
      taille := taille - 1;
    }
    var ptr := 0;
    while str[ptr] in {' ', '\t'}
      invariant 0 <= ptr <= |t| && Holds(str, 0, t) && TrimStart(t[ptr..]) == TrimStart(t)
      decreases |t| - ptr
    {
      assert ptr < |t| ==> str[ptr] == t[ptr];
      assert t[ptr..][1..] == t[ptr + 1..];
      ptr := ptr + 1;
    }
    assert ptr < |t| ==> str[ptr] == t[ptr];
    if ptr > 0 {
      CloseUp(str, 0, 0, ptr, t);
      assert Without(t, 0, ptr) == t[ptr..];
      t := t[ptr..];
    }
  }

  /** What a buffer of `size` characters keeps of a line. */
  function Kept(line: string, size: nat): (r: string)
    requires size > 0
    ensures |r| < size && r <= line
  {
    if |line| < size then line else line[..size - 1]
  }

  /** The number of CPUs a counter reports: the configured number when there is nothing to count. */
  function Reported(count: int, conf: nat): nat { if Word(count) == 0 then Word(conf) else Word(count) }

  function SysReport(line: string, conf: nat): nat { Reported(CountList(Kept(line, 200)), conf) }

  function PrcReport(line: string, conf: nat): nat { Reported(CountList(TrimStart(TrimEnd(Kept(line, 199)))), conf) }

  /** sys_get_numcpu: `line` is the first line of cpuset.cpus.effective, newline included, `conf` the number of
      configured processors. */
  method SysGetNumcpu(line: Option<string>, conf: nat) returns (nbr: nat)
    requires line.Some? ==> NUL !in line.value
    ensures nbr == if line.Some? then SysReport(line.value, conf) else Word(conf)
  {
    nbr := Word(conf);
    if line.Some? && line.value != "" {
      var data := new char[200];
      Store(data, Kept(line.value, 200));
      nbr := CountCpus(data, Kept(line.value, 200));
    }
    if nbr == 0 {
      nbr := Word(conf);
    }
  }

  /** prc_getnbrcpu: the same with one character less and the line cleaned first. */
  method PrcGetnbrcpu(line: Option<string>, conf: nat) returns (nbr: nat)
    requires line.Some? ==> NUL !in line.value
    ensures nbr == if line.Some? then PrcReport(line.value, conf) else Word(conf)
  {
    nbr := Word(conf);
    if line.Some? && line.value != "" {
      var data := new char[200];
      Store(data, Kept(line.value, 199));
      ghost var t := CleanString(data, Kept(line.value, 199));
      if data[0] != NUL {
        nbr := CountCpus(data, t);
      }
    }
    if nbr == 0 {
      nbr := Word(conf);
    }
  }

  // ----- a list that is cut off

  /** What the first `o` characters of an item add to the count: nothing yet, one for a number or the beginning of a
      range, and what the digits of the upper bound say so far. */
  function PieceCount(x: Item, o: nat): int
    requires o <= |Show(x)|
  {
    if o == 0 then 0
    else if x.One? || o <= |Dec(x.first)| + 1 then 1
    else
      DecValue(x.last);
      Value(Dec(x.last)[..o - |Dec(x.first)| - 1]) - x.first + 1
  }

  lemma PieceIsCounted(x: Item, o: nat)
    requires o <= |Show(x)|
    ensures TokenCount(Show(x)[..o]) == PieceCount(x, o)
  {
    DecValue(First(x));
    DecValue(Last(x));
    if o > 0 {
      match x
      case One(n) => DigitsPiece(Dec(n), o);
      case Range(a, b) => RangePiece(Dec(a), Dec(b), o);
    }
  }

  lemma DigitsPiece(s: string, o: nat)
    requires AllDigits(s) && 0 < o <= |s|
    ensures TokenCount(s[..o]) == 1
  {
    assert s[..o] + "" == s[..o];
    TokenOfDigits(s[..o], "");
  }

  lemma RangeParts(s: string, t: string, o: nat)
    requires o <= |s| + 1 + |t|
    ensures (s + "-" + t)[..o] ==
            if o <= |s| then s[..o] else if o == |s| + 1 then s + "-" else s + "-" + t[..o - |s| - 1] + ""
  {
  }

  lemma RangePiece(s: string, t: string, o: nat)
    requires AllDigits(s) && AllDigits(t) && 0 < o <= |s| + 1 + |t|
    ensures TokenCount((s + "-" + t)[..o]) == if o <= |s| + 1 then 1 else Value(t[..o - |s| - 1]) - Value(s) + 1
  {
    RangeParts(s, t, o);
    if o <= |s| {
      DigitsPiece(s, o);
    } else if o == |s| + 1 {
      TokenOfOpenRange(s);
    } else {
      TokenOfDigitsRange(s, t[..o - |s| - 1], "");
    }
  }

  /** A lower bound and a dash count as one, for the scan then misses its second number. */
  lemma TokenOfOpenRange(s: string)
    requires AllDigits(s)
    ensures TokenCount(s + "-") == 1
  {
    var u := s + "-";
    ScanDigits(s, "-");
    assert "-"[1..] == "" && ScanInt("") == None;
    assert u[|s|] == '-' && u[0] == s[0];
    FindHas(u, '-', 0, |s|);
  }

  /** The count of the first `m` characters of a list. */
  function PrefixCount(xs: seq<Item>, m: nat): int
    requires m <= |ShowList(xs)|
  {
    if xs == [] then 0
    else if |xs| == 1 || m <= |Show(xs[0])| then PieceCount(xs[0], m)
    else Size(xs[0]) + PrefixCount(xs[1..], m - |Show(xs[0])| - 1)
  }

  lemma PieceAlone(x: Item, o: nat)
    requires o <= |Show(x)|
    ensures CountList(Show(x)[..o]) == PieceCount(x, o)
  {
    var p := Show(x)[..o];
    PieceIsCounted(x, o);
    NoComma(x, "");
    assert Show(x) + "" == Show(x);
    assert forall i :: 0 <= i < |p| ==> p[i] == Show(x)[i];
    FindNone(p, ',', 0);
    assert p[..|p|] == p;
  }

  lemma FirstPart(a: string, rest: string, m: nat)
    requires m <= |a + "," + rest|
    ensures (a + "," + rest)[..m] == if m <= |a| then a[..m] else a + "," + rest[..m - |a| - 1]
  {
  }

  lemma PieceOfFirst(x: Item, rest: string, whole: string, m: nat)
    requires whole == Show(x) + "," + rest && m <= |Show(x)|
    ensures CountList(whole[..m]) == PieceCount(x, m)
  {
    FirstPart(Show(x), rest, m);
    PieceAlone(x, m);
  }

  lemma PieceBehindFirst(x: Item, rest: string, whole: string, m: nat, k: nat, p: string, count: int)
    requires First(x) <= Last(x) && whole == Show(x) + "," + rest && m <= |whole|
    requires m == |Show(x)| + 1 + k && p == rest[..k] && count == CountList(p)
    ensures CountList(whole[..m]) == Size(x) + count
  {
    FirstPart(Show(x), rest, m);
    FirstToken(x, p);
  }

  /** The list cut off at `m` is counted as `PrefixCount` says. */
  ghost predicate Counted(xs: seq<Item>, m: nat) {
    m <= |ShowList(xs)| && CountList(ShowList(xs)[..m]) == PrefixCount(xs, m)
  }

  ghost predicate Means(counted: (seq<Item>, nat) -> bool) {
    forall xs, m {:trigger Counted(xs, m)} :: counted(xs, m) == Counted(xs, m)
  }

  lemma PrefixEarly(counted: (seq<Item>, nat) -> bool, xs: seq<Item>, m: nat)
    requires Means(counted) && |xs| > 1 && m <= |Show(xs[0])|
    ensures counted(xs, m)
  {
    PieceOfFirst(xs[0], ShowList(xs[1..]), ShowList(xs), m);
    assert Counted(xs, m);
  }

  lemma PrefixCountLater(xs: seq<Item>, m: nat, k: nat)
    requires |xs| > 1 && m <= |ShowList(xs)| && m == |Show(xs[0])| + 1 + k
    ensures k <= |ShowList(xs[1..])| && PrefixCount(xs, m) == Size(xs[0]) + PrefixCount(xs[1..], k)
  {
  }

  lemma RestCounted(counted: (seq<Item>, nat) -> bool, ys: seq<Item>, k: nat, rest: string)
    requires Means(counted) && counted(ys, k) && rest == ShowList(ys)
    ensures k <= |rest| && CountList(rest[..k]) == PrefixCount(ys, k)
  {
    assert Counted(ys, k);
  }

  lemma CountedFrom(counted: (seq<Item>, nat) -> bool, xs: seq<Item>, m: nat, whole: string, count: int)
    requires Means(counted) && whole == ShowList(xs) && m <= |whole|
    requires CountList(whole[..m]) == count && PrefixCount(xs, m) == count
    ensures counted(xs, m)
  {
    assert Counted(xs, m);
  }

  lemma PrefixLater(counted: (seq<Item>, nat) -> bool, xs: seq<Item>, m: nat, k: nat, rest: string, whole: string)
    requires Means(counted) && Ascending(xs) && |xs| > 1 && rest == ShowList(xs[1..]) && whole == ShowList(xs)
    requires m <= |whole| && m == |Show(xs[0])| + 1 + k && counted(xs[1..], k)
    ensures counted(xs, m)
  {
    var count := PrefixCount(xs[1..], k);
    RestCounted(counted, xs[1..], k, rest);
    PrefixCountLater(xs, m, k);
    PieceBehindFirst(xs[0], rest, whole, m, k, rest[..k], count);
    CountedFrom(counted, xs, m, whole, Size(xs[0]) + count);
  }

  lemma PrefixAlone(counted: (seq<Item>, nat) -> bool, xs: seq<Item>, m: nat)
    requires Means(counted) && |xs| <= 1 && m <= |ShowList(xs)|
    ensures counted(xs, m)
  {
    if xs != [] {
      PieceAlone(xs[0], m);
    }
    assert Counted(xs, m);
  }

  lemma {:induction false} PrefixBy(counted: (seq<Item>, nat) -> bool, xs: seq<Item>, m: nat)
    requires Means(counted) && Ascending(xs) && m <= |ShowList(xs)|
    ensures counted(xs, m)
    decreases |xs|
  {
    if |xs| <= 1 {
      PrefixAlone(counted, xs, m);
    } else if m <= |Show(xs[0])| {
      PrefixEarly(counted, xs, m);
    } else {
      var k := m - |Show(xs[0])| - 1;
      PrefixBy(counted, xs[1..], k);
      PrefixLater(counted, xs, m, k, ShowList(xs[1..]), ShowList(xs));
    }
  }

  /** The counting loop on a list that is cut off anywhere. */
  lemma PrefixIsCounted(xs: seq<Item>, m: nat)
    requires Ascending(xs) && m <= |ShowList(xs)|
    ensures CountList(ShowList(xs)[..m]) == PrefixCount(xs, m)
  {
    PrefixBy((ys: seq<Item>, n: nat) => Counted(ys, n), xs, m);
    assert Counted(xs, m);
  }

  // ----- digits cut off a number

  lemma DecLength(n: nat)
    ensures |Dec(n)| == if n < 10 then 1 else |Dec(n / 10)| + 1
    ensures n >= 10 ==> Dec(n)[..|Dec(n)| - 1] == Dec(n / 10)
  {
  }

  function DecPrefix(n: nat, k: nat): nat
    requires k <= |Dec(n)|
  {
    DecValue(n);
    Value(Dec(n)[..k])
  }

  lemma PrefixOfShorter(n: nat, k: nat)
    requires n >= 10 && k < |Dec(n)|
    ensures k <= |Dec(n / 10)| && DecPrefix(n, k) == DecPrefix(n / 10, k)
  {
    DecLength(n);
    assert Dec(n)[..k] == Dec(n / 10)[..k];
  }

  lemma WholeNumber(n: nat)
    ensures DecPrefix(n, |Dec(n)|) == n
  {
    DecValue(n);
    assert Dec(n)[..|Dec(n)|] == Dec(n);
  }

  /** A number without some of its last digits is smaller. */
  lemma {:induction false} PrefixSmaller(n: nat, k: nat)
    requires 0 < k <= |Dec(n)|
    ensures DecPrefix(n, k) <= n
    ensures DecPrefix(n, k) == n <==> k == |Dec(n)|
  {
    if k == |Dec(n)| {
      WholeNumber(n);
    } else {
      DecLength(n);
      PrefixOfShorter(n, k);
      PrefixSmaller(n / 10, k);
    }
  }

  /** Every further digit makes it larger, for no number begins with a zero that has more than one digit. */
  lemma {:induction false} PrefixGrows(n: nat, k: nat)
    requires 0 < k < |Dec(n)|
    ensures DecPrefix(n, k) < DecPrefix(n, k + 1)
  {
    DecLength(n);
    PrefixOfShorter(n, k);
    if k + 1 == |Dec(n)| {
      WholeNumber(n);
      WholeNumber(n / 10);
    } else {
      PrefixOfShorter(n, k + 1);
      PrefixGrows(n / 10, k);
    }
  }

  // ----- when a cut does no harm

  /** The first `o` characters of an item count as the whole: those of a number if there are any, those of a range only
      when none is missing, or when it is a single CPU and its upper bound is missing whole. */
  predicate PieceRight(x: Item, o: nat) {
    o > 0 && (x.One? || o >= |Show(x)| || (x.first == x.last && o <= |Dec(x.first)| + 1))
  }

  lemma PieceBounds(x: Item, o: nat)
    requires o <= |Show(x)| && First(x) <= Last(x)
    ensures PieceCount(x, o) <= Size(x)
    ensures PieceCount(x, o) == Size(x) <==> PieceRight(x, o)
    ensures PieceCount(x, o) >= 0 || PieceCount(x, o) >= Size(x) - Last(x)
  {
    if x.Range? && o > |Dec(x.first)| + 1 {
      PrefixSmaller(x.last, o - |Dec(x.first)| - 1);
    }
  }

  /** Where the last item of a list begins. */
  function Start(xs: seq<Item>): nat
    requires xs != []
  {
    if |xs| == 1 then 0 else |Show(xs[0])| + 1 + Start(xs[1..])
  }

  lemma ShowSome(x: Item)
    ensures |Show(x)| > 0
  {
  }

  lemma {:induction false} StartIsLast(xs: seq<Item>)
    requires xs != []
    ensures Start(xs) + |Show(xs[|xs| - 1])| == |ShowList(xs)|
    ensures Start(xs) >= 2 * (|xs| - 1)
  {
    if |xs| > 1 {
      StartIsLast(xs[1..]);
      ShowSome(xs[0]);
    }
  }

  /** The cut leaves the last item, or as much of it as counts as the whole. */
  predicate CutHarmless(xs: seq<Item>, m: nat)
    requires xs != []
  {
    m > Start(xs) && PieceRight(xs[|xs| - 1], m - Start(xs))
  }

  lemma LastIsMost(xs: seq<Item>)
    requires Ascending(xs) && xs != []
    ensures 0 < |Denote(xs)| <= Last(xs[|xs| - 1]) - First(xs[0]) + 1
    decreases |xs|
  {
    DenoteSize(xs);
    if |xs| > 1 {
      LastIsMost(xs[1..]);
    }
  }

  lemma CutFirst(xs: seq<Item>, m: nat)
    requires Ascending(xs) && xs != [] && m <= |ShowList(xs)| && (|xs| == 1 || m <= |Show(xs[0])|)
    ensures PrefixCount(xs, m) == PieceCount(xs[0], m)
    ensures CutHarmless(xs, m) <==> |xs| == 1 && PieceRight(xs[0], m)
  {
    if |xs| > 1 {
      StartIsLast(xs);
    }
  }

  lemma CutLater(xs: seq<Item>, m: nat)
    requires Ascending(xs) && |xs| > 1 && |Show(xs[0])| < m <= |ShowList(xs)|
    ensures var k := m - |Show(xs[0])| - 1;
            && 0 <= k <= |ShowList(xs[1..])|
            && PrefixCount(xs, m) == Size(xs[0]) + PrefixCount(xs[1..], k)
            && (CutHarmless(xs, m) <==> CutHarmless(xs[1..], k))
  {
  }

  /** What is missing from a count: nothing exactly when the cut is harmless. */
  predicate CountFits(count: int, size: nat, harmless: bool, last: nat) {
    && count <= size
    && (count == size <==> harmless)
    && (count >= 0 || size - count <= last)
  }

  lemma DenoteOne(xs: seq<Item>)
    requires |xs| == 1 && Ascending(xs)
    ensures |Denote(xs)| == Size(xs[0])
  {
    DenoteSize(xs);
  }

  lemma CutAlone(xs: seq<Item>, m: nat)
    requires Ascending(xs) && |xs| == 1 && m <= |Show(xs[0])|
    ensures CountFits(PieceCount(xs[0], m), |Denote(xs)|, PieceRight(xs[0], m), Last(xs[0]))
  {
    PieceBounds(xs[0], m);
    DenoteOne(xs);
  }

  lemma CutEarly(xs: seq<Item>, m: nat)
    requires Ascending(xs) && |xs| > 1 && m <= |Show(xs[0])|
    ensures CountFits(PieceCount(xs[0], m), |Denote(xs)|, false, Last(xs[|xs| - 1]))
  {
    PieceBounds(xs[0], m);
    DenoteSize(xs);
    LastIsMost(xs[1..]);
  }

  ghost predicate CutFits(xs: seq<Item>, m: nat) {
    xs != [] && m <= |ShowList(xs)| &&
    CountFits(PrefixCount(xs, m), |Denote(xs)|, CutHarmless(xs, m), Last(xs[|xs| - 1]))
  }

  ghost predicate MeansFits(fits: (seq<Item>, nat) -> bool) {
    forall xs, m {:trigger CutFits(xs, m)} :: fits(xs, m) == CutFits(xs, m)
  }

  lemma OneItemMore(size: int, count: int, rest: nat, harmless: bool, last: nat)
    requires size >= 1 && CountFits(count, rest, harmless, last)
    ensures CountFits(size + count, size + rest, harmless, last)
  {
  }

  lemma CutFitsOne(fits: (seq<Item>, nat) -> bool, xs: seq<Item>, m: nat)
    requires MeansFits(fits) && Ascending(xs) && |xs| == 1 && m <= |ShowList(xs)|
    ensures fits(xs, m)
  {
    CutFirst(xs, m);
    CutAlone(xs, m);
    assert CutFits(xs, m);
  }

  lemma CutFitsEarly(fits: (seq<Item>, nat) -> bool, xs: seq<Item>, m: nat)
    requires MeansFits(fits) && Ascending(xs) && |xs| > 1 && m <= |Show(xs[0])| && m <= |ShowList(xs)|
    ensures fits(xs, m)
  {
    CutFirst(xs, m);
    CutEarly(xs, m);
    assert CutFits(xs, m);
  }

  /** The step: what fits for the rest fits for the whole. */
  lemma CutStep(xs: seq<Item>, m: nat, size: int, c: int, d: nat, h: bool)
    requires xs != [] && m <= |ShowList(xs)| && size >= 1
    requires PrefixCount(xs, m) == size + c && |Denote(xs)| == size + d && (CutHarmless(xs, m) <==> h)
    requires CountFits(c, d, h, Last(xs[|xs| - 1]))
    ensures CutFits(xs, m)
  {
    OneItemMore(size, c, d, h, Last(xs[|xs| - 1]));
  }

  lemma CutFitsLater(fits: (seq<Item>, nat) -> bool, xs: seq<Item>, m: nat, k: nat)
    requires MeansFits(fits) && Ascending(xs) && |xs| > 1 && m <= |ShowList(xs)| && m == |Show(xs[0])| + 1 + k
    requires fits(xs[1..], k)
    ensures fits(xs, m)
  {
    assert CutFits(xs[1..], k);
    DenoteSize(xs);
    CutLater(xs, m);
    CutStep(xs, m, Size(xs[0]), PrefixCount(xs[1..], k), |Denote(xs[1..])|, CutHarmless(xs[1..], k));
  }

  lemma {:induction false} CutBy(fits: (seq<Item>, nat) -> bool, xs: seq<Item>, m: nat)
    requires MeansFits(fits) && Ascending(xs) && xs != [] && m <= |ShowList(xs)|
    ensures fits(xs, m)
    decreases |xs|
  {
    if |xs| == 1 {
      CutFitsOne(fits, xs, m);
    } else if m <= |Show(xs[0])| {
      CutFitsEarly(fits, xs, m);
    } else {
      var k := m - |Show(xs[0])| - 1;
      CutBy(fits, xs[1..], k);
      CutFitsLater(fits, xs, m, k);
    }
  }

  lemma CutCount(xs: seq<Item>, m: nat)
    requires Ascending(xs) && xs != [] && m <= |ShowList(xs)|
    ensures CountFits(PrefixCount(xs, m), |Denote(xs)|, CutHarmless(xs, m), Last(xs[|xs| - 1]))
  {
    CutBy((ys: seq<Item>, n: nat) => CutFits(ys, n), xs, m);
    assert CutFits(xs, m);
  }

  // ----- what the two functions report

  /** How much of a list the buffer of the first and of the second function holds. */
  function Seen(xs: seq<Item>, size: nat): (m: nat)
    requires size > 0
    ensures m <= |ShowList(xs)|
  {
    if |ShowList(xs)| < size then |ShowList(xs)| else size - 1
  }

  predicate ListChar(c: char) { Digit(c) || c == '-' || c == ',' }

  lemma {:induction false} ListChars(xs: seq<Item>)
    ensures forall i :: 0 <= i < |ShowList(xs)| ==> ListChar(ShowList(xs)[i])
  {
    if xs != [] {
      ItemChars(xs[0]);
      if |xs| > 1 {
        ListChars(xs[1..]);
        JoinedChars(Show(xs[0]), ShowList(xs[1..]));
      }
    }
  }

  predicate AllListChars(s: string) { forall i :: 0 <= i < |s| ==> ListChar(s[i]) }

  lemma JoinedChars(a: string, b: string)
    requires AllListChars(a) && AllListChars(b)
    ensures AllListChars(a + "," + b) && AllListChars(a + "-" + b)
  {
  }

  lemma ItemChars(x: Item)
    ensures AllListChars(Show(x))
  {
    DecValue(First(x));
    DecValue(Last(x));
    if x.Range? {
      JoinedChars(Dec(x.first), Dec(x.last));
    }
  }

  lemma TrimmedAlready(p: string)
    requires AllListChars(p)
    ensures TrimStart(TrimEnd(p)) == p && TrimStart(TrimEnd(p + "\n")) == p
  {
    assert p != "" ==> ListChar(p[|p| - 1]) && ListChar(p[0]);
    assert (p + "\n")[..|p|] == p;
  }

  lemma WholeIsCounted(xs: seq<Item>)
    requires Ascending(xs)
    ensures PrefixCount(xs, |ShowList(xs)|) == |Denote(xs)|
  {
    var s := ShowList(xs);
    PrefixIsCounted(xs, |s|);
    ListIsCounted(xs, "");
    assert s[..|s|] == s && s + "" == s;
  }

  lemma KeptOfLine(s: string, size: nat)
    requires size > 0
    ensures Kept(s + "\n", size) == if |s| + 1 < size then s + "\n" else s[..size - 1]
  {
  }

  lemma WholeLineCounted(xs: seq<Item>, p: string)
    requires Ascending(xs) && p == ShowList(xs) + "\n"
    ensures CountList(p) == PrefixCount(xs, |ShowList(xs)|)
  {
    ListIsCounted(xs, "\n");
    WholeIsCounted(xs);
  }

  lemma CutLineCounted(xs: seq<Item>, m: nat, p: string)
    requires Ascending(xs) && m <= |ShowList(xs)| && p == ShowList(xs)[..m]
    ensures CountList(p) == PrefixCount(xs, m)
  {
    PrefixIsCounted(xs, m);
  }

  /** The first function counts the part of the list that its buffer holds. */
  lemma KeptIsCounted(xs: seq<Item>, size: nat, p: string)
    requires Ascending(xs) && size > 0 && p == Kept(ShowList(xs) + "\n", size)
    ensures CountList(p) == PrefixCount(xs, Seen(xs, size))
  {
    KeptOfLine(ShowList(xs), size);
    if |ShowList(xs)| + 1 < size {
      WholeLineCounted(xs, p);
    } else {
      CutLineCounted(xs, size - 1, p);
    }
  }

  /** So does the second, for there is nothing to trim but the newline. */
  lemma CleanedIsCounted(xs: seq<Item>, size: nat, p: string)
    requires Ascending(xs) && size > 0 && p == TrimStart(TrimEnd(Kept(ShowList(xs) + "\n", size)))
    ensures CountList(p) == PrefixCount(xs, Seen(xs, size))
  {
    var s, m := ShowList(xs), Seen(xs, size);
    ListChars(xs);
    KeptOfLine(s, size);
    TrimmedPart(s, m);
    CutLineCounted(xs, m, p);
  }

  lemma TrimmedPart(s: string, m: nat)
    requires AllListChars(s) && m <= |s|
    ensures TrimStart(TrimEnd(s[..m])) == s[..m]
    ensures TrimStart(TrimEnd(s + "\n")) == s[..|s|]
  {
    TrimmedAlready(s[..m]);
    TrimmedAlready(s);
  }

  lemma Reports(xs: seq<Item>, conf: nat)
    requires Ascending(xs)
    ensures SysReport(ShowList(xs) + "\n", conf) == Reported(PrefixCount(xs, Seen(xs, 200)), conf)
    ensures PrcReport(ShowList(xs) + "\n", conf) == Reported(PrefixCount(xs, Seen(xs, 199)), conf)
  {
    var line := ShowList(xs) + "\n";
    KeptIsCounted(xs, 200, Kept(line, 200));
    CleanedIsCounted(xs, 199, TrimStart(TrimEnd(Kept(line, 199))));
  }

  /** A count that is too small by less than a lap of the counter shows on it. */
  lemma ReportFits(count: int, n: nat, harmless: bool, last: nat, conf: nat)
    requires CountFits(count, n, harmless, last) && 0 < n < 0x1_0000 && last < 0x1_0000
    ensures Reported(count, conf) == n <==> harmless || (Word(count) == 0 && Word(conf) == n)
  {
    if count != n {
      Laps(count, n);
    }
  }

  lemma Laps(a: int, b: int)
    requires 0 < b - a < 0x1_0000
    ensures Word(a) != Word(b)
  {
  }

  /** CPU numbers, and how many they are, fit the counter. */
  predicate FitsCounter(xs: seq<Item>) {
    xs != [] && Last(xs[|xs| - 1]) < 0x1_0000 && |Denote(xs)| < 0x1_0000
  }

  /** The first function is right about a list, of any length, if and only if the cut by its buffer is harmless, or
      nothing is counted and the configured number, taken instead, happens to be the right one. */
  lemma FirstCounter(xs: seq<Item>, conf: nat)
    requires Ascending(xs) && FitsCounter(xs)
    ensures var m := Seen(xs, 200);
            SysReport(ShowList(xs) + "\n", conf) == |Denote(xs)| <==>
            CutHarmless(xs, m) || (Word(PrefixCount(xs, m)) == 0 && Word(conf) == |Denote(xs)|)
  {
    var m := Seen(xs, 200);
    Reports(xs, conf);
    CutCount(xs, m);
    LastIsMost(xs);
    ReportFits(PrefixCount(xs, m), |Denote(xs)|, CutHarmless(xs, m), Last(xs[|xs| - 1]), conf);
  }

  /** And so the second, whose buffer holds one character less. */
  lemma SecondCounter(xs: seq<Item>, conf: nat)
    requires Ascending(xs) && FitsCounter(xs)
    ensures var m := Seen(xs, 199);
            PrcReport(ShowList(xs) + "\n", conf) == |Denote(xs)| <==>
            CutHarmless(xs, m) || (Word(PrefixCount(xs, m)) == 0 && Word(conf) == |Denote(xs)|)
  {
    var m := Seen(xs, 199);
    Reports(xs, conf);
    CutCount(xs, m);
    LastIsMost(xs);
    ReportFits(PrefixCount(xs, m), |Denote(xs)|, CutHarmless(xs, m), Last(xs[|xs| - 1]), conf);
  }

  /** A list that fits the buffer whole, with or without its newline, is never harmed. */
  lemma WholeIsHarmless(xs: seq<Item>)
    requires xs != []
    ensures CutHarmless(xs, |ShowList(xs)|)
  {
    StartIsLast(xs);
    ShowSome(xs[|xs| - 1]);
  }

  /** So a list that fits the buffers is counted right by both, whatever is configured. */
  lemma FittingListIsCounted(xs: seq<Item>, conf: nat)
    requires Ascending(xs) && FitsCounter(xs)
    ensures |ShowList(xs)| <= 199 ==> SysReport(ShowList(xs) + "\n", conf) == |Denote(xs)|
    ensures |ShowList(xs)| <= 198 ==> PrcReport(ShowList(xs) + "\n", conf) == |Denote(xs)|
  {
    WholeIsHarmless(xs);
    FirstCounter(xs, conf);
    SecondCounter(xs, conf);
  }

  /** More than a hundred separate items never fit: the first function is then wrong whatever they are. */
  lemma ManyItems(xs: seq<Item>, conf: nat)
    requires Ascending(xs) && FitsCounter(xs) && |xs| > 100 && Word(conf) != |Denote(xs)|
    ensures SysReport(ShowList(xs) + "\n", conf) != |Denote(xs)|
    ensures PrcReport(ShowList(xs) + "\n", conf) != |Denote(xs)|
  {
    StartIsLast(xs);
    FirstCounter(xs, conf);
    SecondCounter(xs, conf);
  }

  function Evens(n: nat): (xs: seq<Item>)
    ensures |xs| == n && forall i :: 0 <= i < n ==> xs[i] == One(2 * i)
  {
    seq(n, i requires 0 <= i < n => One(2 * i))
  }

  lemma {:induction false} SinglesSize(xs: seq<Item>)
    requires Ascending(xs) && forall i :: 0 <= i < |xs| ==> xs[i].One?
    ensures |Denote(xs)| == |xs|
    decreases |xs|
  {
    if xs != [] {
      DenoteSize(xs);
      SinglesSize(xs[1..]);
    }
  }

  lemma EvensAre(n: nat)
    ensures Ascending(Evens(n)) && |Denote(Evens(n))| == n
    ensures 0 < n <= 0x8000 ==> FitsCounter(Evens(n))
  {
    SinglesSize(Evens(n));
  }

  /** An input that is miscounted: the 101 CPUs 0, 2, 4, ..., 200, on any machine but one with 101 configured; and so
      any longer list of even numbers. */
  lemma EvenCpusMiscounted(n: nat, conf: nat)
    requires 101 <= n <= 0x8000 && Word(conf) != n
    ensures Ascending(Evens(n)) && |Denote(Evens(n))| == n
    ensures SysReport(ShowList(Evens(n)) + "\n", conf) != n
    ensures PrcReport(ShowList(Evens(n)) + "\n", conf) != n
  {
    EvensAre(n);
    ManyItems(Evens(n), conf);
  }

  // ----- when the two disagree

  /** One character more of an item changes nothing: it continues a number or the beginning of a range, or it is the
      first digit of an upper bound and equal to the lower one. */
  predicate PieceSame(x: Item, o: nat)
    requires o < |Show(x)|
  {
    o > 0 && (x.One? || o <= |Dec(x.first)| || (o == |Dec(x.first)| + 1 && DecPrefix(x.last, 1) == x.first))
  }

  /** The character behind the first `m` of a list adds nothing to the count: it is a comma, or one of those. */
  predicate AddsNothing(xs: seq<Item>, m: nat)
    requires m < |ShowList(xs)|
  {
    if |xs| == 1 || m < |Show(xs[0])| then PieceSame(xs[0], m)
    else m == |Show(xs[0])| || AddsNothing(xs[1..], m - |Show(xs[0])| - 1)
  }

  /** What one character more does to a count. */
  predicate Differs(before: int, after: int, same: bool) {
    && (before == after <==> same)
    && -0x1_0000 < after - before < 0x1_0000
  }

  lemma PieceMore(x: Item, o: nat)
    requires o < |Show(x)| && First(x) <= Last(x) < 0x1_0000
    ensures Differs(PieceCount(x, o), PieceCount(x, o + 1), PieceSame(x, o))
  {
    if x.Range? && o > |Dec(x.first)| {
      var k := o - |Dec(x.first)| - 1;
      PrefixSmaller(x.last, k + 1);
      if k > 0 {
        PrefixSmaller(x.last, k);
        PrefixGrows(x.last, k);
      }
    }
  }

  lemma MoreFirst(xs: seq<Item>, m: nat)
    requires m < |ShowList(xs)| && xs != [] && (|xs| == 1 || m < |Show(xs[0])|)
    ensures PrefixCount(xs, m) == PieceCount(xs[0], m) && PrefixCount(xs, m + 1) == PieceCount(xs[0], m + 1)
    ensures AddsNothing(xs, m) <==> PieceSame(xs[0], m)
  {
  }

  lemma MoreComma(xs: seq<Item>, m: nat)
    requires |xs| > 1 && m == |Show(xs[0])| && First(xs[0]) <= Last(xs[0])
    ensures m < |ShowList(xs)| && AddsNothing(xs, m)
    ensures PrefixCount(xs, m) == PrefixCount(xs, m + 1)
  {
    ShowSome(xs[0]);
    PieceBounds(xs[0], m);
  }

  lemma MoreLater(xs: seq<Item>, m: nat, k: nat)
    requires |xs| > 1 && |Show(xs[0])| < m < |ShowList(xs)| && k == m - |Show(xs[0])| - 1
    ensures k < |ShowList(xs[1..])| && (AddsNothing(xs, m) <==> AddsNothing(xs[1..], k))
    ensures PrefixCount(xs, m) == Size(xs[0]) + PrefixCount(xs[1..], k)
    ensures PrefixCount(xs, m + 1) == Size(xs[0]) + PrefixCount(xs[1..], k + 1)
  {
  }

  lemma FitsRest(xs: seq<Item>)
    requires Ascending(xs) && FitsCounter(xs)
    ensures First(xs[0]) <= Last(xs[0]) < 0x1_0000
    ensures |xs| > 1 ==> Ascending(xs[1..]) && FitsCounter(xs[1..])
  {
    DenoteSize(xs);
  }

  lemma {:induction false} ListMore(xs: seq<Item>, m: nat)
    requires Ascending(xs) && FitsCounter(xs) && m < |ShowList(xs)|
    ensures Differs(PrefixCount(xs, m), PrefixCount(xs, m + 1), AddsNothing(xs, m))
    decreases |xs|
  {
    FitsRest(xs);
    if |xs| == 1 || m < |Show(xs[0])| {
      MoreFirst(xs, m);
      PieceMore(xs[0], m);
    } else if m == |Show(xs[0])| {
      MoreComma(xs, m);
    } else {
      var k := m - |Show(xs[0])| - 1;
      MoreLater(xs, m, k);
      ListMore(xs[1..], k);
    }
  }

  lemma ReportsDiffer(a: int, b: int, same: bool, conf: nat)
    requires Differs(a, b, same)
    ensures Reported(a, conf) == Reported(b, conf) <==>
            same || (Word(a) == 0 && Word(conf) == Word(b)) || (Word(b) == 0 && Word(conf) == Word(a))
  {
    if a < b {
      Laps(a, b);
    } else if b < a {
      Laps(b, a);
    }
  }

  /** With the one character more in hand, or not. */
  lemma CountsAgree(xs: seq<Item>, conf: nat, m: nat)
    requires Ascending(xs) && FitsCounter(xs) && m < |ShowList(xs)|
    ensures Reported(PrefixCount(xs, m + 1), conf) == Reported(PrefixCount(xs, m), conf) <==>
            || AddsNothing(xs, m)
            || (Word(PrefixCount(xs, m)) == 0 && Word(conf) == Word(PrefixCount(xs, m + 1)))
            || (Word(PrefixCount(xs, m + 1)) == 0 && Word(conf) == Word(PrefixCount(xs, m)))
  {
    ListMore(xs, m);
    ReportsDiffer(PrefixCount(xs, m), PrefixCount(xs, m + 1), AddsNothing(xs, m), conf);
  }

  /** The two functions agree on a list, of any length, if and only if it fits the shorter buffer, or the one character
      more adds nothing, or one of them counts nothing and takes what the other counts for the configured number. */
  lemma CountersAgree(xs: seq<Item>, conf: nat, m: nat)
    requires Ascending(xs) && FitsCounter(xs) && m == 198
    ensures var s := ShowList(xs);
            SysReport(s + "\n", conf) == PrcReport(s + "\n", conf) <==>
            || |s| <= m || AddsNothing(xs, m)
            || (Word(PrefixCount(xs, m)) == 0 && Word(conf) == Word(PrefixCount(xs, m + 1)))
            || (Word(PrefixCount(xs, m + 1)) == 0 && Word(conf) == Word(PrefixCount(xs, m)))
  {
    Reports(xs, conf);
    if |ShowList(xs)| > m {
      CountsAgree(xs, conf, m);
    }
  }
}
