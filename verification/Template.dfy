/** The online status template (lib/unicfg.c): variable declarations with a prefix lookup, and the substitution of
    `$NAME:` markers in a fixed buffer.  What a variable's format renders to is an input; numbers are not modelled. */
module Template {
  import opened Options
  import opened CText

  // ----- the vocabulary

  /** The known variables; the code of a variable is its position here. */
  const Voc: seq<string> := [
    "CEILING", "COOMKILL", "CHWRATIO", "CINT", "CIP", "CMEM", "CMPRESS", "CNAME", "CPUIDLE", "CPUUSED", "CPUWAIT",
    "CTRXTX", "CSRXTX", "CSWAP", "HINT", "HIP", "HMEM", "HNAME", "HMODEL", "HMPRESS", "HOOMKILL", "HSRXTX", "HSWAP",
    "HTRXTX", "LOADAVG", "LSTASS", "MEMMAX", "MAXCPU", "NUMCPU", "ONL", "PID", "PIDMAX", "PWRCPU", "SWAPMAX",
    "THROTTLE", "USERS", "UPTIME"
  ]

  /** The first entry of a vocabulary, from `i` on, that begins with `name`. */
  function LookupIn(voc: seq<string>, name: string, i: nat): Option<nat>
    decreases |voc| - i
  {
    if i >= |voc| then None
    else if name <= voc[i] then Some(i)
    else LookupIn(voc, name, i + 1)
  }

  function Lookup(voc: seq<string>, name: string): Option<nat> { LookupIn(voc, name, 0) }

  lemma {:induction false} LookupInMeaning(voc: seq<string>, name: string, i: nat)
    ensures match LookupIn(voc, name, i)
            case Some(c) => i <= c < |voc| && name <= voc[c] && forall j :: i <= j < c ==> !(name <= voc[j])
            case None => forall j :: i <= j < |voc| ==> !(name <= voc[j])
    decreases |voc| - i
  {
    if i < |voc| && !(name <= voc[i]) {
      LookupInMeaning(voc, name, i + 1);
    }
  }

  /** lookup: compare with strlen(varname) characters only. */
  method LookupName(voc: seq<string>, varname: string) returns (found: Option<nat>)
    ensures found == LookupIn(voc, varname, 0)
    ensures found.Some? ==> found.value < |voc| && varname <= voc[found.value]
                            && forall j :: 0 <= j < found.value ==> !(varname <= voc[j])
    ensures found.None? ==> forall j :: 0 <= j < |voc| ==> !(varname <= voc[j])
  {
    LookupInMeaning(voc, varname, 0);
    var i := 0;
    while i < |voc|
      invariant 0 <= i <= |voc| && LookupIn(voc, varname, i) == LookupIn(voc, varname, 0)
    {
      if varname <= voc[i] {
        return Some(i);
      }
      i := i + 1;
    }
    found := None;
  }

  lemma {:induction false} LookupInIs(voc: seq<string>, name: string, i: nat, c: nat)
    requires i <= c < |voc| && name <= voc[c] && forall j :: i <= j < c ==> !(name <= voc[j])
    ensures LookupIn(voc, name, i) == Some(c)
    decreases c - i
  {
    if i < c {
      LookupInIs(voc, name, i + 1, c);
    }
  }

  /** The shipped template (conf/online.tpl:20,49) writes CPUIDL for CPUIDLE; the shorter C, on the other hand, is
      not short for anything but the first entry. */
  lemma ShippedAbbreviation()
    ensures Lookup(Voc, "CPUIDL") == Lookup(Voc, "CPUIDLE") == Some(8)
    ensures Lookup(Voc, "C") == Lookup(Voc, "CEILING") == Lookup(Voc, "") == Some(0)
  {
    forall j | 0 <= j < 8 ensures !("CPUIDL" <= Voc[j]) && !("CPUIDLE" <= Voc[j]) {
      assert Voc[j][1] != 'P';
    }
    LookupInIs(Voc, "CPUIDL", 0, 8);
    LookupInIs(Voc, "CPUIDLE", 0, 8);
  }

  // ----- declarations

  datatype Var = Var(code: nat, format: string)

  /** The first entry with a code. */
  function FindVar(vars: seq<Var>, code: nat): Option<Var> {
    if vars == [] then None
    else if vars[0].code == code then Some(vars[0])
    else FindVar(vars[1..], code)
  }

  /** sscanf(line,"%49[^=]=<%49[^>]>"): the closing '>' need not be there. */
  function Parse(line: string): Option<(string, string)> {
    var n := Find(line, '=', 0);
    if 1 <= n <= 49 && n + 2 <= |line| && line[n..n + 2] == "=<" then
      var m := Find(line, '>', n + 2);
      var e := if m > n + 51 then n + 51 else m;
      if e > n + 2 then Some((line[..n], line[n + 2..e])) else None
    else None
  }

  /** A declaration is refused when it cannot be parsed, its name begins no known variable, or the variable that
      name stands for is already declared. */
  function Declare(voc: seq<string>, vars: seq<Var>, line: string): Option<seq<Var>> {
    match Parse(line)
    case None => None
    case Some((name, format)) =>
      match Lookup(voc, name)
      case None => None
      case Some(code) => if FindVar(vars, code).Some? then None else Some(vars + [Var(code, format)])
  }

  /** The entries after all lines; a refused line adds nothing. */
  function Declared(voc: seq<string>, lines: seq<string>): seq<Var> {
    if lines == [] then []
    else
      var vars := Declared(voc, lines[..|lines| - 1]);
      match Declare(voc, vars, lines[|lines| - 1]) case None => vars case Some(more) => more
  }

  /** A declaration begins with a name and, in "=<", a format, 1 to 49 characters each; the format ends at a '>', at
      the end of the line, or at its 49th character. */
  predicate Declares(line: string, name: string, format: string) {
    && 1 <= |name| <= 49 && '=' !in name && 1 <= |format| <= 49 && '>' !in format
    && name + "=<" + format <= line
    && var e := |name| + 2 + |format|;
       |format| == 49 || e == |line| || line[e] == '>'
  }

  lemma ParsedAt(line: string, n: nat, e: nat)
    requires 1 <= n <= 49 && n + 2 < e <= n + 51 && e <= |line| && line[n] == '=' && line[n + 1] == '<'
    requires (forall k :: 0 <= k < n ==> line[k] != '=') && (forall k :: n + 2 <= k < e ==> line[k] != '>')
    requires e == n + 51 || e == |line| || line[e] == '>'
    ensures Parse(line) == Some((line[..n], line[n + 2..e]))
  {
    FindIs(line, '=', 0, n);
    assert line[n..n + 2] == "=<";
    if e == |line| {
      FindNone(line, '>', n + 2);
    } else if line[e] == '>' {
      FindIs(line, '>', n + 2, e);
    } else {
      FindSkips(line, '>', n + 2);
    }
  }

  lemma ParsedParts(line: string, name: string, format: string)
    requires Parse(line) == Some((name, format))
    ensures Declares(line, name, format)
  {
    var n := Find(line, '=', 0);
    var m := Find(line, '>', n + 2);
    var e := if m > n + 51 then n + 51 else m;
    FindSkips(line, '=', 0);
    FindSkips(line, '>', n + 2);
    assert name == line[..n] && format == line[n + 2..e] && line[n..n + 2] == "=<";
    DeclaredAt(line, name, format, n, e);
  }

  lemma DeclaredAt(line: string, name: string, format: string, n: nat, e: nat)
    requires 1 <= n <= 49 && n + 2 < e <= n + 51 && e <= |line| && line[n..n + 2] == "=<"
    requires name == line[..n] && format == line[n + 2..e]
    requires (forall k :: 0 <= k < n ==> line[k] != '=') && (forall k :: n + 2 <= k < e ==> line[k] != '>')
    requires e == n + 51 || e == |line| || line[e] == '>'
    ensures Declares(line, name, format)
  {
    InParts(line, n, n + 2, e);
    assert forall k :: 0 <= k < n ==> name[k] == line[k];
    assert forall k :: 0 <= k < |format| ==> format[k] == line[n + 2 + k];
  }

  lemma InParts(line: string, n: nat, m: nat, e: nat)
    requires n <= m <= e <= |line|
    ensures line[..n] + line[n..m] + line[m..e] <= line
  {
  }

  /** A line is parsed into a name and a format if and only if it declares them: in particular what is written out as a
      declaration is read back. */
  lemma ParseMeaning(line: string, name: string, format: string)
    ensures Parse(line) == Some((name, format)) <==> Declares(line, name, format)
  {
    if Parse(line) == Some((name, format)) {
      ParsedParts(line, name, format);
    }
    if Declares(line, name, format) {
      var n, e := |name|, |name| + 2 + |format|;
      var text := name + "=<" + format;
      assert forall k :: 0 <= k < e ==> line[k] == text[k];
      assert forall k :: 0 <= k < n ==> text[k] == name[k];
      assert forall k :: n + 2 <= k < e ==> text[k] == format[k - (n + 2)];
      ParsedAt(line, n, e);
      assert line[..n] == name && line[n + 2..e] == format;
    }
  }

  predicate Accepted(voc: seq<string>, lines: seq<string>, i: nat)
    requires i < |lines|
  {
    Declare(voc, Declared(voc, lines[..i]), lines[i]).Some?
  }

  /** The lines of a template file that begin with `c`, without it. */
  function Marked(file: seq<string>, c: char): seq<string> {
    if file == [] then []
    else
      var line := file[|file| - 1];
      Marked(file[..|file| - 1], c) + if line != "" && line[0] == c then [line[1..]] else []
  }

  predicate AllAccepted(voc: seq<string>, lines: seq<string>) {
    forall i :: 0 <= i < |lines| ==> Accepted(voc, lines, i)
  }

  lemma AcceptedMore(voc: seq<string>, lines: seq<string>, line: string)
    ensures AllAccepted(voc, lines + [line]) <==>
              AllAccepted(voc, lines) && Declare(voc, Declared(voc, lines), line).Some?
    ensures Declared(voc, lines + [line]) ==
              match Declare(voc, Declared(voc, lines), line) case None => Declared(voc, lines) case Some(more) => more
  {
    var all := lines + [line];
    assert all[..|lines|] == lines && all[..|all| - 1] == lines;
    assert Accepted(voc, all, |lines|) <==> Declare(voc, Declared(voc, lines), line).Some?;
    forall i | 0 <= i < |lines| ensures Accepted(voc, all, i) <==> Accepted(voc, lines, i) {
      assert all[..i] == lines[..i];
    }
    if AllAccepted(voc, all) {
      assert forall i :: 0 <= i < |lines| ==> Accepted(voc, all, i);
    }
  }

  lemma MarkedMore(file: seq<string>, n: nat, c: char)
    requires n < |file|
    ensures Marked(file[..n + 1], c) ==
              Marked(file[..n], c) + if file[n] != "" && file[n][0] == c then [file[n][1..]] else []
  {
    assert file[..n + 1][..n] == file[..n];
  }

  predicate Distinct(vars: seq<Var>) {
    forall i, j :: 0 <= i < j < |vars| ==> vars[i].code != vars[j].code
  }

  lemma {:induction false} FindVarMeaning(vars: seq<Var>, code: nat)
    ensures match FindVar(vars, code)
            case Some(v) => v in vars && v.code == code
            case None => forall v :: v in vars ==> v.code != code
  {
    if vars != [] && vars[0].code != code {
      FindVarMeaning(vars[1..], code);
    }
  }

  /** Over any lines the declared codes stay pairwise distinct. */
  lemma {:induction false} DeclaredDistinct(voc: seq<string>, lines: seq<string>)
    ensures Distinct(Declared(voc, lines))
  {
    if lines != [] {
      var before := lines[..|lines| - 1];
      DeclaredDistinct(voc, before);
      match Parse(lines[|lines| - 1])
      case None =>
      case Some((name, _)) =>
        match Lookup(voc, name)
        case None =>
        case Some(code) => FindVarMeaning(Declared(voc, before), code);
    }
  }

  lemma {:induction false} FindVarExtends(vars: seq<Var>, more: seq<Var>, code: nat)
    ensures FindVar(vars, code).Some? ==> FindVar(vars + more, code) == FindVar(vars, code)
    ensures FindVar(vars, code).None? ==> FindVar(vars + more, code) == FindVar(more, code)
  {
    if vars == [] {
      assert vars + more == more;
    } else {
      assert (vars + more)[1..] == vars[1..] + more;
      if vars[0].code != code {
        FindVarExtends(vars[1..], more, code);
      }
    }
  }

  /** The entry that a name used in a template line stands for. */
  function Resolve(voc: seq<string>, vars: seq<Var>, name: string): Option<Var> {
    match Lookup(voc, name) case None => None case Some(code) => FindVar(vars, code)
  }

  /** Whatever is declared before or after it, the name of an accepted declaration resolves to that declaration. */
  lemma {:induction false} DeclaredNamesResolve(voc: seq<string>, lines: seq<string>, i: nat)
    requires i < |lines| && Accepted(voc, lines, i)
    ensures var (name, format) := Parse(lines[i]).value;
            Resolve(voc, Declared(voc, lines), name) == Some(Var(Lookup(voc, name).value, format))
    decreases |lines|
  {
    var (name, format) := Parse(lines[i]).value;
    var code := Lookup(voc, name).value;
    var before := lines[..|lines| - 1];
    if i == |lines| - 1 {
      FindVarExtends(Declared(voc, before), [Var(code, format)], code);
    } else {
      assert before[..i] == lines[..i];
      DeclaredNamesResolve(voc, before, i);
      var d := Declare(voc, Declared(voc, before), lines[|lines| - 1]);
      if d.Some? {
        FindVarExtends(Declared(voc, before), d.value[|Declared(voc, before)|..], code);
        assert d.value == Declared(voc, before) + d.value[|Declared(voc, before)|..];
      }
    }
  }

  /** Which names in a template stand for a declaration of variable `c`: exactly the abbreviations of that variable that
      abbreviate none known before it.  So `$CPUIDL:` finds what `CPUIDLE` declared, and `$C:` does not. */
  lemma AbbreviationsResolve(voc: seq<string>, lines: seq<string>, i: nat, c: nat, a: string)
    requires i < |lines| && Accepted(voc, lines, i) && Lookup(voc, Parse(lines[i]).value.0) == Some(c)
    ensures c < |voc|
    ensures Resolve(voc, Declared(voc, lines), a) == Some(Var(c, Parse(lines[i]).value.1)) <==>
            a <= voc[c] && forall j :: 0 <= j < c ==> !(a <= voc[j])
  {
    DeclaredNamesResolve(voc, lines, i);
    LookupInMeaning(voc, Parse(lines[i]).value.0, 0);
    LookupInMeaning(voc, a, 0);
    if a <= voc[c] && forall j :: 0 <= j < c ==> !(a <= voc[j]) {
      LookupInIs(voc, a, 0, c);
    }
    if Lookup(voc, a).Some? {
      FindVarMeaning(Declared(voc, lines), Lookup(voc, a).value);
    }
  }

  // ----- substitution

  /** A string of C. */
  type Text = s: string | NUL !in s witness ""

  /** The name after a '$': up to 49 characters other than ':'. */
  function Name(m: string): (name: string)
    requires m != "" && m[0] == '$'
    ensures |name| <= 49 && |name| < |m|
  {
    var n := Find(m, ':', 1);
    m[1..if n > 50 then 50 else n]
  }

  /** The name of a marker as it is meant to be written, and of one that is too long or has no end. */
  lemma NameMeaning(name: string, rest: string)
    requires ':' !in name
    ensures |name| <= 49 ==> Name("$" + name + ":" + rest) == name && Name("$" + name) == name
    ensures |name| > 49 ==> Name("$" + name + rest) == name[..49]
  {
    var closed, open, long := "$" + name + ":" + rest, "$" + name, "$" + name + rest;
    var n := |name| + 1;
    assert forall k :: 0 <= k < |name| ==> name[k] != ':';
    assert forall k :: 1 <= k < n ==> closed[k] == name[k - 1];
    assert forall k :: 1 <= k < n ==> open[k] == name[k - 1];
    assert forall k :: 1 <= k < n ==> long[k] == name[k - 1];
    FindIs(closed, ':', 1, n);
    FindNone(open, ':', 1);
    assert closed[1..n] == name && open[1..n] == name;
    if |name| > 49 {
      assert long[1..50] == name[..49];
    }
  }

  /** The text from a marker on, once its key of `using` characters gave way to `r`: a longer key is closed up, a
      shorter one lets the value run over the text behind it.  An empty value changes nothing. */
  function Spliced(m: string, using: nat, r: string): string {
    var e := if using > |r| then using else |r|;
    if r == "" then m else r + if e <= |m| then m[e..] else ""
  }

  /** `n` placeholder characters over the beginning of the text. */
  function Masked(m: string, n: nat, c: char): (t: string)
    requires n <= |m|
    ensures |t| == |m|
  {
    seq(n, _ => c) + m[n..]
  }

  /** What the text from a marker on is found to be: a known key of `using` characters with its value, or text with
      the name masked. */
  datatype Marker = Known(using: nat, r: Text) | Unknown(masked: string)

  /** `value` is what snprintf makes of a variable's format. */
  function Look(voc: seq<string>, vars: seq<Var>, value: Var -> Text, m: string): Marker {
    if m == "" || m[0] != '$' then Unknown(m)
    else if Lookup(voc, Name(m)).None? then Unknown(Masked(m, |Name(m)|, 'X'))
    else
      match Resolve(voc, vars, Name(m))
      case None => Unknown(Masked(m, |Name(m)|, 'Y'))
      case Some(v) => Known(|Name(m)| + 2, value(v))
  }

  function Looker(voc: seq<string>, vars: seq<Var>, value: Var -> Text): string -> Marker {
    m => Look(voc, vars, value, m)
  }

  /** `look` finds what the template finds. */
  ghost predicate Speaks(look: string -> Marker, voc: seq<string>, vars: seq<Var>, value: Var -> Text) {
    forall m {:trigger Look(voc, vars, value, m)} :: look(m) == Look(voc, vars, value, m)
  }

  /** The text that takes the place of the text `m` from a marker on. */
  function Adjusted(x: Marker, m: string): string {
    match x
    case Unknown(t) => t
    case Known(using, r) => Spliced(m, using, r)
  }

  /** A marker that means nothing keeps its length and what follows its name's characters: these become 'X' when no
      known variable begins with that name, 'Y' when the variable is not declared. */
  lemma MaskMeaning(voc: seq<string>, vars: seq<Var>, value: Var -> Text, m: string, k: nat)
    requires m != "" && m[0] == '$' && k < |m| && Resolve(voc, vars, Name(m)).None?
    ensures var x := Look(voc, vars, value, m);
            && x.Unknown? && |x.masked| == |m|
            && x.masked[k] == if k >= |Name(m)| then m[k]
                              else if exists j :: 0 <= j < |voc| && Name(m) <= voc[j] then 'Y' else 'X'
  {
    LookupInMeaning(voc, Name(m), 0);
  }

  const REPLACE := 60

  /** No call of do_resolv writes or reads behind its own buffer of 60 characters or the `room` left in the line's. */
  predicate Bounded(x: Marker, room: nat)
    requires x.Known?
  {
    |x.r| <= REPLACE && |x.r| < room
  }

  /** A key longer than its value is not cut off by the end of the line, behind which stale cells would be moved. */
  predicate WholeKey(x: Marker, m: string)
    requires x.Known?
  {
    x.using > |x.r| ==> x.using <= |m|
  }

  /** The substitution is what it is meant to be: bounded, with a whole key, and not of the one length, 60, at which the
      terminator that cuts the value off is copied into the line. */
  predicate Fits(x: Marker, m: string, room: nat) {
    x.Known? && x.r != "" ==> Bounded(x, room) && WholeKey(x, m) && |x.r| != REPLACE
  }

  /** In numbers: a value of at most 59 characters that leaves room for a terminator, and a key that is not longer than
      both the value and the rest of the line. */
  lemma FitsMeaning(using: nat, r: Text, m: string, room: nat)
    ensures Fits(Known(using, r), m, room) <==> r == "" || (|r| <= 59 && |r| < room && (using <= |r| || using <= |m|))
  {
  }

  /** A line after at most `left` substitutions; the scan resumes at the text that replaced the marker. */
  function Render(look: string -> Marker, s: string, left: nat): string
    decreases left
  {
    var i := Find(s, '$', 0);
    if left == 0 || i == |s| then s
    else
      var x := look(s[i..]);
      s[..i] + if x.Known? then Render(look, Adjusted(x, s[i..]), left - 1) else Adjusted(x, s[i..])
  }

  /** Every substitution of the line fits. */
  predicate LineFits(look: string -> Marker, s: string, room: int, left: nat)
    decreases left
  {
    var i := Find(s, '$', 0);
    left == 0 || i == |s| ||
    var x := look(s[i..]);
    i < room && Fits(x, s[i..], room - i)
    && (x.Known? ==> LineFits(look, Adjusted(x, s[i..]), room - i, left - 1))
  }

  const ROOM := 400
  const MARKERS := 10

  class Template {
    const voc: seq<string>
    var vars: seq<Var>
    var lines: seq<Text>
    var updated: seq<string>

    constructor ()
      ensures voc == Voc && vars == [] && lines == [] && updated == []
    {
      voc := Voc;
      vars, lines, updated := [], [], [];
    }

    /** scanvar on a line without its '$'. */
    method ScanVar(line: string) returns (isok: bool)
      modifies this`vars
      ensures isok <==> Declare(voc, old(vars), line).Some?
      ensures vars == if isok then Declare(voc, old(vars), line).value else old(vars)
    {
      isok := false;
      match Parse(line) {
        case None =>
        case Some((name, format)) =>
          var found := LookupName(voc, name);
          if found.Some? {
            var declared := Search(found.value);
            if declared.None? {
              vars := vars + [Var(found.value, format)];
              isok := true;
            }
          }
      }
    }

    /** The scan of the template file in cfg_open_online: comments and unexpected lines are skipped, and one refused
        declaration makes the whole template unusable. */
    method Open(file: seq<Text>) returns (isok: bool)
      requires vars == [] && lines == []
      modifies this`vars, this`lines
      ensures vars == Declared(voc, Marked(file, '$')) && lines == Marked(file, '>')
      ensures isok <==> AllAccepted(voc, Marked(file, '$'))
      ensures Distinct(vars)
    {
      isok := true;
      var n := 0;
      ghost var declared: seq<string> := [];
      while n < |file|
        invariant 0 <= n <= |file|
        invariant declared == Marked(file[..n], '$') && lines == Marked(file[..n], '>')
        invariant vars == Declared(voc, declared) && (isok <==> AllAccepted(voc, declared))
      {
        MarkedMore(file, n, '$');
        MarkedMore(file, n, '>');
        declared, isok := Scan(file[n], declared, isok);
        n := n + 1;
      }
      assert file[..|file|] == file;
      DeclaredDistinct(voc, Marked(file, '$'));
    }

    /** One line of the template file. */
    method Scan(line: Text, ghost was: seq<string>, soFar: bool) returns (ghost declared: seq<string>, isok: bool)
      requires vars == Declared(voc, was) && (soFar <==> AllAccepted(voc, was))
      modifies this`vars, this`lines
      ensures declared == was + if line != "" && line[0] == '$' then [line[1..]] else []
      ensures lines == old(lines) + if line != "" && line[0] == '>' then [line[1..]] else []
      ensures vars == Declared(voc, declared) && (isok <==> AllAccepted(voc, declared))
    {
      declared, isok := was, soFar;
      if line != "" {
        if line[0] == '$' {
          AcceptedMore(voc, was, line[1..]);
          var accepted := ScanVar(line[1..]);
          isok := soFar && accepted;
          declared := was + [line[1..]];
        } else if line[0] == '>' {
          lines := lines + [line[1..]];
        }
      }
    }

    /** The walk over the declared variables. */
    method Search(code: nat) returns (v: Option<Var>)
      ensures v == FindVar(vars, code)
    {
      var i := 0;
      assert vars[0..] == vars;
      while i < |vars|
        invariant 0 <= i <= |vars| && FindVar(vars[i..], code) == FindVar(vars, code)
      {
        if vars[i].code == code {
          return Some(vars[i]);
        }
        assert vars[i..][1..] == vars[i + 1..];
        i := i + 1;
      }
      v := None;
    }

    /** do_resolv from the rendered value on: memmove, memcpy and the terminator, in the buffer.  The method stops where
        a call would leave a buffer, move stale cells, or copy the terminator of a cut value along. */
    method Splice(work: array<char>, marker: nat, using: nat, replace: Text, ghost m: string) returns (fits: bool)
      requires Holds(work, marker, m)
      modifies work
      ensures fits <==> Fits(Known(using, replace), m, work.Length - marker)
      ensures fits ==> Holds(work, marker, Spliced(m, using, replace))
      ensures forall k :: 0 <= k < marker ==> work[k] == old(work[k])
    {
      var num := |replace|;
      if num == 0 {
        return true;
      }
      if num >= REPLACE || num >= work.Length - marker {
        return false;
      }
      ghost var t := m;
      if using > num {
        var len := StrLen(work, marker, m);
        if using > len {
          return false;
        }
        CloseUp(work, marker, num, using, m);
        t := Without(m, num, using);
      }
      Overwrite(work, marker, replace, t);
      fits := true;
    }

    /** The value over the beginning of the text, with a terminator if it reaches the old one. */
    method Overwrite(work: array<char>, marker: nat, replace: Text, ghost t: string)
      requires Holds(work, marker, t) && |replace| < work.Length - marker
      modifies work
      ensures Holds(work, marker, replace + if |replace| <= |t| then t[|replace|..] else "")
      ensures forall k :: 0 <= k < marker ==> work[k] == old(work[k])
    {
      var num := |replace|;
      var max := StrLen(work, marker, t);
      Memcpy(work, marker, replace, num);
      if num >= max {
        work[marker + num] := NUL;
      }
      ghost var r := replace + if |replace| <= |t| then t[|replace|..] else "";
      assert |r| == if num >= max then num else max;
      assert forall k {:trigger r[k]} :: 0 <= k < |r| ==> r[k] == if k < num then replace[k] else t[k];
    }

    /** adjusting: the marker at `marker` becomes its value, or is masked. */
    method Adjusting(value: Var -> Text, work: array<char>, marker: nat, ghost m: string)
      returns (isok: bool, fits: bool)
      requires Holds(work, marker, m) && m != "" && m[0] == '$'
      modifies work
      ensures var x := Look(voc, vars, value, m);
              && (fits <==> Fits(x, m, work.Length - marker))
              && (fits ==> (isok <==> x.Known?) && Holds(work, marker, Adjusted(x, m)))
      ensures forall k :: 0 <= k < marker ==> work[k] == old(work[k])
    {
      fits := true;
      var name := ReadName(work, marker, m);
      var found := LookupName(voc, name);
      if found.None? {
        Mask(work, marker, |name|, 'X', m);
        return false, true;
      }
      var v := Search(found.value);
      if v.None? {
        Mask(work, marker, |name|, 'Y', m);
        return false, true;
      }
      fits := Splice(work, marker, |name| + 2, value(v.value), m);
      isok := fits;
    }

    /** sscanf(marker,"$%49[^:]",var_name) */
    method ReadName(work: array<char>, marker: nat, ghost m: string) returns (name: string)
      requires Holds(work, marker, m) && m != "" && m[0] == '$'
      ensures name == Name(m)
    {
      var end := Seek(work, marker, ':', 1, m);
      if end > 50 { end := 50; }
      name := work[marker + 1..marker + end];
      assert forall k :: 1 <= k < end ==> m[k] == work[marker + k] == name[k - 1];
    }

    method Mask(work: array<char>, marker: nat, n: nat, c: char, ghost m: string)
      requires Holds(work, marker, m) && n <= |m| && c != NUL
      modifies work
      ensures Holds(work, marker, Masked(m, n, c))
      ensures forall k :: 0 <= k < marker ==> work[k] == old(work[k])
    {
      Memset(work, marker, c, n);
      ghost var r := Masked(m, n, c);
      assert forall k {:trigger r[k]} :: 0 <= k < |r| ==> r[k] == if k < n then c else m[k];
    }

    /** One turn of the line loop: look for the next '$' and adjust the marker there. */
    method NextMarker(value: Var -> Text, work: array<char>, scan: nat, ghost pre: string, ghost s: string,
                      ghost look: string -> Marker)
      returns (found: bool, ptr: nat, isok: bool, fits: bool, ghost m: string, ghost x: Marker)
      requires Prefixed(work, scan, pre) && Holds(work, scan, s) && Speaks(look, voc, vars, value)
      modifies work
      ensures found <==> Find(s, '$', 0) < |s|
      ensures ptr == scan + Find(s, '$', 0) < work.Length && m == s[ptr - scan..] && x == look(m)
      ensures if found then fits <==> Fits(x, m, work.Length - ptr) else fits && Holds(work, ptr, m)
      ensures found && fits ==> Holds(work, ptr, Adjusted(x, m)) && (isok <==> x.Known?)
      ensures Prefixed(work, ptr, pre + s[..ptr - scan])
    {
      ptr, found := SeekMarker(work, scan, pre, s);
      isok, fits, m := false, true, s[ptr - scan..];
      x := Look(voc, vars, value, m);
      if found {
        isok, fits := Adjusting(value, work, ptr, m);
      }
    }

    /** strchr for the next '$'; what lies before it joins what was passed already. */
    method SeekMarker(work: array<char>, scan: nat, ghost pre: string, ghost s: string) returns (ptr: nat, found: bool)
      requires Prefixed(work, scan, pre) && Holds(work, scan, s)
      ensures ptr == scan + Find(s, '$', 0) < work.Length && (found <==> Find(s, '$', 0) < |s|)
      ensures Prefixed(work, ptr, pre + s[..ptr - scan]) && Holds(work, ptr, s[ptr - scan..])
    {
      var cpt := Seek(work, scan, '$', 0, s);
      ptr := scan + cpt;
      found := work[ptr] != NUL;
      ghost var done, m := pre + s[..cpt], s[cpt..];
      assert forall k {:trigger done[k]} :: 0 <= k < ptr ==> done[k] == if k < scan then pre[k] else s[k - scan];
      assert forall k {:trigger m[k]} :: 0 <= k < |m| ==> m[k] == s[cpt + k];
    }

    /** A turn with its book-keeping; `on` says that the loop goes on. */
    method OneTurn(value: Var -> Text, work: array<char>, scan: nat, numvar: nat, ghost pre: string, ghost s: string,
                   ghost look: string -> Marker, ghost owed: Goal)
      returns (on: bool, fits: bool, next: nat, left: nat, ghost pre': string, ghost s': string)
      requires Prefixed(work, scan, pre) && Holds(work, scan, s) && Speaks(look, voc, vars, value) && numvar > 0
      requires Owes(owed, look)
      modifies work
      ensures next < work.Length && (on ==> fits && 0 < left < numvar)
      ensures owed(pre, s, work.Length - scan, numvar) ==
              if fits then owed(pre', s', work.Length - next, left) else None
      ensures fits ==> Prefixed(work, next, pre') && Holds(work, next, s')
      ensures fits && !on ==> owed(pre', s', work.Length - next, left) == Some(pre' + s')
    {
      ghost var m, x;
      var found, isok;
      found, next, isok, fits, m, x := NextMarker(value, work, scan, pre, s, look);
      pre' := pre + s[..next - scan];
      if found {
        TurnOwed(look, owed, pre, s, work.Length - scan, numvar, next - scan, m, x, fits);
        left := if isok then numvar - 1 else 0;
        on := fits && left > 0;
        s' := Adjusted(x, m);
        if left == 0 {
          ArrivedOwed(look, owed, pre', s', work.Length - next, 0);
        }
      } else {
        on, left, s' := false, numvar, m;
        NothingOwed(look, owed, pre, s, work.Length - scan, work.Length - next, numvar, m);
      }
    }

    /** The substitution loop over the line in its buffer: at most `markers` of them, whatever the values contain, and
        to the end exactly when every substitution of the line fits. */
    method Substitute(value: Var -> Text, work: array<char>, markers: nat, ghost line: string,
                      ghost look: string -> Marker)
      returns (fits: bool, ghost goal: string)
      requires Speaks(look, voc, vars, value) && markers > 0 && Holds(work, 0, line)
      modifies work
      ensures Outcome(look, "", line, work.Length, markers) == if fits then Some(goal) else None
      ensures fits ==> Holds(work, 0, goal)
    {
      ghost var owed: Goal := (pre: string, s: string, room: int, left: nat) => Outcome(look, pre, s, room, left);
      fits, goal := SubstituteFrom(value, work, markers, line, look, owed);
    }

    method SubstituteFrom(value: Var -> Text, work: array<char>, markers: nat, ghost line: string,
                          ghost look: string -> Marker, ghost owed: Goal)
      returns (fits: bool, ghost goal: string)
      requires Speaks(look, voc, vars, value) && Owes(owed, look) && markers > 0 && Holds(work, 0, line)
      modifies work
      ensures owed("", line, work.Length, markers) == if fits then Some(goal) else None
      ensures fits ==> Holds(work, 0, goal)
    {
      fits, goal := true, "";
      var numvar, scan, on := markers, 0, true;
      ghost var pre, s, all := "", line, owed("", line, work.Length, markers);
      while on && work[scan] != NUL
        invariant 0 <= scan < work.Length && fits && (on ==> 0 < numvar)
        invariant Holds(work, scan, s) && Prefixed(work, scan, pre)
        invariant all == owed(pre, s, work.Length - scan, numvar)
        invariant !on ==> all == Some(pre + s)
        decreases on, numvar
      {
        on, fits, scan, numvar, pre, s := OneTurn(value, work, scan, numvar, pre, s, look, owed);
        if !fits {
          return;
        }
      }
      assert s != "" ==> work[scan] == s[0] != NUL;
      AtEnd(look, owed, pre, s, work.Length - scan, numvar, on, all);
      HeldFromStart(work, scan, pre, s);
      goal := pre + s;
    }

    method UpdateLine(value: Var -> Text, line: Text, ghost look: string -> Marker, ghost goal: Text -> Option<string>)
      returns (updated: string, fits: bool)
      requires look == Looker(voc, vars, value) && goal == Renderer(look)
      ensures goal(line) == if fits then Some(updated) else None
    {
      var markers := MARKERS;
      updated := "";
      var work := new char[ROOM];
      Store(work, Cut(line));
      ghost var text;
      fits, text := Substitute(value, work, markers, Cut(line), look);
      OutcomeFromStart(look, Cut(line), ROOM, markers);
      if fits {
        updated := ReadBack(work, text);
      }
    }

    /** cfg_update_online: one updated line per template line, up to a line whose substitutions do not fit.  The
        code never sets its result to true. */
    method Update(value: Var -> Text) returns (isok: bool, fits: bool)
      modifies this`updated
      ensures !isok && Rendered(updated, lines, Renderer(Looker(voc, vars, value)))
      ensures fits <==> |updated| == |lines|
      ensures !fits ==> Renderer(Looker(voc, vars, value))(lines[|updated|]) == None
    {
      isok, fits := false, true;
      updated := [];
      ghost var look := Looker(voc, vars, value);
      ghost var goal := Renderer(look);
      var i := 0;
      while i < |lines|
        invariant 0 <= i <= |lines| && |updated| == i && fits
        invariant Rendered(updated, lines, goal)
      {
        var u;
        u, fits := UpdateLine(value, lines[i], look, goal);
        if !fits {
          return;
        }
        RenderedMore(updated, lines, goal, u);
        updated := updated + [u];
        i := i + 1;
      }
    }
  }

  lemma RenderedMore(updated: seq<string>, lines: seq<Text>, goal: Text -> Option<string>, u: string)
    requires Rendered(updated, lines, goal) && |updated| < |lines| && goal(lines[|updated|]) == Some(u)
    ensures Rendered(updated + [u], lines, goal)
  {
  }

  /** The updated lines are the rendered ones, in order. */
  predicate Rendered(updated: seq<string>, lines: seq<Text>, goal: Text -> Option<string>) {
    |updated| <= |lines| && forall i :: 0 <= i < |updated| ==> goal(lines[i]) == Some(updated[i])
  }

  /** What becomes of a line: nothing when a substitution does not fit. */
  function Renderer(look: string -> Marker): Text -> Option<string> {
    line => if LineFits(look, Cut(line), ROOM, MARKERS) then Some(Render(look, Cut(line), MARKERS)) else None
  }

  /** A line without markers is kept up to its 399th character. */
  lemma PlainLine(look: string -> Marker, line: Text)
    requires '$' !in line
    ensures Renderer(look)(line) == Some(if |line| <= 399 then line else line[..399])
  {
    FindNone(Cut(line), '$', 0);
    assert forall k :: 0 <= k < |Cut(line)| ==> Cut(line)[k] in line;
  }

  /** What snprintf keeps of a line in the buffer. */
  function Cut(line: string): (r: string)
    ensures |r| < ROOM && r <= line
  {
    if |line| < ROOM then line else line[..ROOM - 1]
  }

  /** The cells before `scan` are the finished part of the line. */
  ghost predicate Prefixed(work: array<char>, scan: nat, pre: string)
    reads work
  {
    |pre| == scan <= work.Length && forall k {:trigger pre[k]} :: 0 <= k < scan ==> work[k] == pre[k] && pre[k] != NUL
  }

  /** Where the loop arrives from the finished part `pre` and the text `s` ahead of it; nowhere when some substitution
      does not fit. */
  function Outcome(look: string -> Marker, pre: string, s: string, room: int, left: nat): Option<string>
    decreases left
  {
    var i := Find(s, '$', 0);
    if left == 0 || i == |s| then Some(pre + s)
    else
      var x := look(s[i..]);
      if room <= i || !Fits(x, s[i..], room - i) then None
      else Outcome(look, pre + s[..i], Adjusted(x, s[i..]), room - i, if x.Known? then left - 1 else 0)
  }

  /** One turn of the loop. */
  lemma Turn(look: string -> Marker, pre: string, s: string, room: nat, left: nat, i: nat, m: string, x: Marker,
             fits: bool)
    requires left > 0 && i == Find(s, '$', 0) < |s| < room
    requires m == s[i..] && x == look(m) && fits == Fits(x, m, room - i)
    ensures Outcome(look, pre, s, room, left) ==
            if fits then Outcome(look, pre + s[..i], Adjusted(x, m), room - i, if x.Known? then left - 1 else 0)
            else None
  {
  }

  lemma Arrived(look: string -> Marker, pre: string, s: string, room: int, left: nat)
    requires left == 0 || Find(s, '$', 0) == |s|
    ensures Outcome(look, pre, s, room, left) == Some(pre + s)
  {
  }

  type Goal = (string, string, int, nat) -> Option<string>

  ghost predicate Owes(owed: Goal, look: string -> Marker) {
    forall pre, s, room, left {:trigger Outcome(look, pre, s, room, left)} ::
      owed(pre, s, room, left) == Outcome(look, pre, s, room, left)
  }

  lemma TurnOwed(look: string -> Marker, owed: Goal, pre: string, s: string, room: nat, left: nat, i: nat, m: string,
                 x: Marker, fits: bool)
    requires Owes(owed, look) && left > 0 && i == Find(s, '$', 0) < |s| < room
    requires m == s[i..] && x == look(m) && fits == Fits(x, m, room - i)
    ensures owed(pre, s, room, left) ==
            if fits then owed(pre + s[..i], Adjusted(x, m), room - i, if x.Known? then left - 1 else 0) else None
  {
    Turn(look, pre, s, room, left, i, m, x, fits);
    assert owed(pre, s, room, left) == Outcome(look, pre, s, room, left);
    var more := if x.Known? then left - 1 else 0;
    assert owed(pre + s[..i], Adjusted(x, m), room - i, more) ==
           Outcome(look, pre + s[..i], Adjusted(x, m), room - i, more);
  }

  lemma ArrivedOwed(look: string -> Marker, owed: Goal, pre: string, s: string, room: int, left: nat)
    requires Owes(owed, look) && (left == 0 || Find(s, '$', 0) == |s|)
    ensures owed(pre, s, room, left) == Some(pre + s)
  {
    Arrived(look, pre, s, room, left);
  }

  lemma NothingOwed(look: string -> Marker, owed: Goal, pre: string, s: string, room: int, rest: int, left: nat,
                    m: string)
    requires Owes(owed, look) && Find(s, '$', 0) == |s| && m == s[|s|..]
    ensures owed(pre, s, room, left) == Some(pre + s[..|s|] + m)
    ensures owed(pre + s[..|s|], m, rest, left) == Some(pre + s[..|s|] + m)
  {
    NothingFound(look, pre, s, room, rest, left, m);
  }

  lemma AtEnd(look: string -> Marker, owed: Goal, pre: string, s: string, room: int, left: nat, on: bool,
              all: Option<string>)
    requires Owes(owed, look) && all == owed(pre, s, room, left) && if on then s == "" else all == Some(pre + s)
    ensures all == Some(pre + s)
  {
    if on {
      Arrived(look, pre, s, room, left);
    }
  }

  lemma NothingFound(look: string -> Marker, pre: string, s: string, room: int, rest: int, left: nat, m: string)
    requires Find(s, '$', 0) == |s| && m == s[|s|..]
    ensures Outcome(look, pre, s, room, left) == Some(pre + s[..|s|] + m)
    ensures Outcome(look, pre + s[..|s|], m, rest, left) == Some(pre + s[..|s|] + m)
  {
    assert m == "" && s[..|s|] == s && pre + s + "" == pre + s;
    Arrived(look, pre, s, room, left);
    Arrived(look, pre + s, m, rest, left);
  }

  lemma {:induction false} OutcomeIsRender(look: string -> Marker, pre: string, s: string, room: int, left: nat)
    ensures Outcome(look, pre, s, room, left) ==
            if LineFits(look, s, room, left) then Some(pre + Render(look, s, left)) else None
    decreases left
  {
    var i := Find(s, '$', 0);
    if left > 0 && i < |s| && i < room {
      var x := look(s[i..]);
      var t := Adjusted(x, s[i..]);
      OutcomeIsRender(look, pre + s[..i], t, room - i, if x.Known? then left - 1 else 0);
      Moved(pre, s[..i], if x.Known? then Render(look, t, left - 1) else t);
    }
  }

  lemma OutcomeFromStart(look: string -> Marker, s: string, room: int, left: nat)
    ensures Outcome(look, "", s, room, left) ==
            if LineFits(look, s, room, left) then Some(Render(look, s, left)) else None
  {
    OutcomeIsRender(look, "", s, room, left);
    assert "" + Render(look, s, left) == Render(look, s, left);
  }

  lemma Moved(pre: string, mid: string, rest: string)
    ensures pre + (mid + rest) == pre + mid + rest
  {
  }

  lemma HeldFromStart(work: array<char>, scan: nat, pre: string, s: string)
    requires Holds(work, scan, s) && Prefixed(work, scan, pre)
    ensures Holds(work, 0, pre + s)
  {
    var r := pre + s;
    assert forall k {:trigger r[k]} :: 0 <= k < |r| ==> r[k] == if k < scan then pre[k] else s[k - scan];
  }

  method ReadBack(work: array<char>, ghost s: string) returns (r: string)
    requires Holds(work, 0, s)
    ensures r == s
  {
    var n := StrLen(work, 0, s);
    r := work[..n];
  }
}
