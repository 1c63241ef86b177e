/** What the substitution loop of the status template amounts to (lib/unicfg.c:424-435, 669-703): the loop scans its own
    output again; a plain renderer would not. */
module TemplateRender {
  import opened Options
  import opened CText
  import opened Template

  // ----- what the rescanning loop amounts to

  function Field(x: Marker): nat
    requires x.Known?
  {
    if x.using > |x.r| then x.using else |x.r|
  }

  /** The text behind a marker that its value leaves over. */
  function Tail(m: string, x: Marker): string
    requires x.Known?
  {
    if Field(x) <= |m| then m[Field(x)..] else ""
  }

  /** The plain renderer: markers are replaced from left to right and what was written is never looked at again. */
  function OnePass(look: string -> Marker, s: string, left: nat): string
    decreases left
  {
    var i := Find(s, '$', 0);
    if left == 0 || i == |s| then s
    else
      var x := look(s[i..]);
      if x.Unknown? then s[..i] + x.masked
      else s[..i] + x.r + OnePass(look, Tail(s[i..], x), left - 1)
  }

  // ----- what is met along a line

  /** No value met along the line is empty. */
  predicate NoneEmpty(look: string -> Marker, s: string, left: nat)
    decreases left
  {
    var i := Find(s, '$', 0);
    left == 0 || i == |s| ||
    var x := look(s[i..]);
    x.Unknown? || (x.r != "" && NoneEmpty(look, Tail(s[i..], x), left - 1))
  }

  /** No value met along the line contains a '$'. */
  predicate NoDollar(look: string -> Marker, s: string, left: nat)
    decreases left
  {
    var i := Find(s, '$', 0);
    left == 0 || i == |s| ||
    var x := look(s[i..]);
    x.Unknown? || ('$' !in x.r && NoDollar(look, Tail(s[i..], x), left - 1))
  }

  /** A key is not empty, and masking keeps the length. */
  predicate ShapedMarker(x: Marker, m: string) {
    match x case Known(using, _) => using > 0 case Unknown(masked) => |masked| == |m|
  }

  ghost predicate Shaped(look: string -> Marker) {
    forall m: string {:trigger ShapedMarker(look(m), m)} :: ShapedMarker(look(m), m)
  }

  lemma LookerIsShaped(voc: seq<string>, vars: seq<Var>, value: Var -> Text)
    ensures Shaped(Looker(voc, vars, value))
  {
  }

  // ----- single turns

  lemma {:induction false} FindBehind(r: string, t: string, c: char)
    requires c !in r
    ensures Find(r + t, c, 0) == |r| + Find(t, c, 0)
  {
    var k := Find(t, c, 0);
    FindSkips(t, c, 0);
    var s := r + t;
    assert forall j :: 0 <= j < |r| ==> s[j] == r[j] && r[j] in r;
    assert forall j :: |r| <= j < |r| + k ==> s[j] == t[j - |r|];
    if k < |t| {
      FindIs(s, c, 0, |r| + k);
    } else {
      FindNone(s, c, 0);
    }
  }

  lemma PartsBehind(r: string, t: string, k: nat)
    requires k <= |t|
    ensures (r + t)[|r| + k..] == t[k..] && (r + t)[..|r| + k] == r + t[..k]
  {
  }

  /** One turn of the renderer: what becomes of the text from the marker on. */
  function Beyond(look: string -> Marker, x: Marker, m: string, left: nat): string {
    if x.Known? then Render(look, Adjusted(x, m), left) else Adjusted(x, m)
  }

  lemma RenderTurn(look: string -> Marker, s: string, left: nat, i: nat, m: string, rest: string)
    requires left > 0 && i == Find(s, '$', 0) < |s| && m == s[i..] && rest == Beyond(look, look(m), m, left - 1)
    ensures Render(look, s, left) == s[..i] + rest
  {
  }

  lemma MarkerBehind(look: string -> Marker, r: string, t: string, left: nat, k: nat, m: string, rest: string,
                     u: string)
    requires left > 0 && k <= |t| && |r| + k == Find(u, '$', 0) < |u| && u == r + t
    requires m == u[|r| + k..] && rest == Beyond(look, look(m), m, left - 1)
    ensures Render(look, u, left) == r + (t[..k] + rest)
  {
    PartsBehind(r, t, k);
    RenderTurn(look, u, left, |r| + k, m, rest);
    Moved(r, t[..k], rest);
  }

  lemma RenderBehind(look: string -> Marker, r: string, t: string, left: nat)
    requires '$' !in r
    ensures Render(look, r + t, left) == r + Render(look, t, left)
  {
    FindBehind(r, t, '$');
    var k := Find(t, '$', 0);
    if left > 0 && k < |t| {
      var m := t[k..];
      var rest := Beyond(look, look(m), m, left - 1);
      PartsBehind(r, t, k);
      MarkerBehind(look, r, t, left, k, m, rest, r + t);
      RenderTurn(look, t, left, k, m, rest);
    }
  }

  lemma AdjustedKnown(m: string, x: Marker)
    requires x.Known? && x.r != ""
    ensures Adjusted(x, m) == x.r + Tail(m, x)
  {
  }

  lemma OnePassTurn(look: string -> Marker, s: string, left: nat, i: nat, m: string, x: Marker, rest: string)
    requires left > 0 && i == Find(s, '$', 0) < |s| && m == s[i..] && x == look(m) && x.Known?
    requires rest == OnePass(look, Tail(m, x), left - 1)
    ensures OnePass(look, s, left) == s[..i] + (x.r + rest)
  {
    Moved(s[..i], x.r, rest);
  }

  lemma RenderKnown(look: string -> Marker, s: string, left: nat, i: nat, m: string, x: Marker, t: string, rest: string)
    requires left > 0 && i == Find(s, '$', 0) < |s| && m == s[i..] && x == look(m) && x.Known?
    requires t == Adjusted(x, m) && rest == Render(look, t, left - 1)
    ensures Render(look, s, left) == s[..i] + rest
  {
    RenderTurn(look, s, left, i, m, rest);
  }

  lemma StallStep(look: string -> Marker, s: string, left: nat, i: nat, m: string)
    requires left > 0 && i == Find(s, '$', 0) < |s| && m == s[i..] && look(m).Known? && look(m).r == ""
    ensures Render(look, s, left) == s[..i] + Render(look, m, left - 1)
  {
    RenderTurn(look, s, left, i, m, Render(look, m, left - 1));
  }

  lemma FromMarker(s: string, i: nat, m: string)
    requires i < |s| && s[i] == '$' && m == s[i..]
    ensures s[..i] + m == s && Find(m, '$', 0) == 0 && m[0..] == m
  {
  }

  /** A variable that renders to nothing keeps its marker and holds up the whole line: the loop meets the same marker
      until its markers are used up. */
  lemma {:induction false} EmptyValueStalls(look: string -> Marker, s: string, left: nat)
    requires var i := Find(s, '$', 0);
             i < |s| && look(s[i..]).Known? && look(s[i..]).r == ""
    ensures Render(look, s, left) == s
    decreases left
  {
    if left > 0 {
      var i := Find(s, '$', 0);
      FromMarker(s, i, s[i..]);
      StallStep(look, s, left, i, s[i..]);
      EmptyValueStalls(look, s[i..], left - 1);
    }
  }

  lemma TailShorter(m: string, x: Marker)
    requires x.Known? && x.using > 0 && m != ""
    ensures |Tail(m, x)| < |m|
  {
  }

  // ----- both renderers at once

  /** The two renderers and what is met, as functions of the line and the markers left. */
  datatype View = View(
    ren: (string, nat) -> string, one: (string, nat) -> string,
    full: (string, nat) -> bool, plain: (string, nat) -> bool)

  ghost predicate Views(v: View, look: string -> Marker) {
    && (forall s, n {:trigger Render(look, s, n)} :: v.ren(s, n) == Render(look, s, n))
    && (forall s, n {:trigger OnePass(look, s, n)} :: v.one(s, n) == OnePass(look, s, n))
    && (forall s, n {:trigger NoneEmpty(look, s, n)} :: v.full(s, n) == NoneEmpty(look, s, n))
    && (forall s, n {:trigger NoDollar(look, s, n)} :: v.plain(s, n) == NoDollar(look, s, n))
  }

  lemma NoTurn(look: string -> Marker, v: View, s: string, n: nat)
    requires Views(v, look) && (n == 0 || Find(s, '$', 0) == |s|)
    ensures v.ren(s, n) == s == v.one(s, n) && v.full(s, n)
  {
    assert Render(look, s, n) == s == OnePass(look, s, n) && NoneEmpty(look, s, n);
  }

  lemma TurnUnknown(look: string -> Marker, v: View, s: string, n: nat, i: nat, m: string, x: Marker)
    requires Views(v, look) && n > 0 && i == Find(s, '$', 0) < |s| && m == s[i..] && x == look(m) && x.Unknown?
    ensures v.ren(s, n) == s[..i] + x.masked == v.one(s, n) && v.full(s, n)
  {
    assert Render(look, s, n) == s[..i] + x.masked == OnePass(look, s, n) && NoneEmpty(look, s, n);
  }

  lemma FoundNext(look: string -> Marker, v: View, s: string, n: nat, i: nat, m: string, x: Marker, tail: string)
    requires Views(v, look) && n > 0 && i == Find(s, '$', 0) < |s| && m == s[i..] && x == look(m) && x.Known?
    requires tail == Tail(m, x) && v.plain(s, n)
    ensures '$' !in x.r && v.plain(tail, n - 1)
    ensures v.full(s, n) <==> x.r != "" && v.full(tail, n - 1)
    ensures v.one(s, n) == s[..i] + (x.r + v.one(tail, n - 1))
  {
    assert NoDollar(look, s, n) && NoDollar(look, tail, n - 1);
    assert NoneEmpty(look, s, n) <==> x.r != "" && NoneEmpty(look, tail, n - 1);
    OnePassTurn(look, s, n, i, m, x, OnePass(look, tail, n - 1));
  }

  lemma BehindBy(look: string -> Marker, v: View, r: string, tail: string, n: nat, t: string)
    requires Views(v, look) && '$' !in r && t == r + tail
    ensures v.ren(t, n) == r + v.ren(tail, n)
  {
    RenderBehind(look, r, tail, n);
    assert v.ren(t, n) == Render(look, t, n) && v.ren(tail, n) == Render(look, tail, n);
  }

  lemma TurnBy(look: string -> Marker, v: View, s: string, n: nat, i: nat, m: string, x: Marker, t: string)
    requires Views(v, look) && n > 0 && i == Find(s, '$', 0) < |s| && m == s[i..] && x == look(m) && x.Known?
    requires t == Adjusted(x, m)
    ensures v.ren(s, n) == s[..i] + v.ren(t, n - 1)
  {
    RenderKnown(look, s, n, i, m, x, t, Render(look, t, n - 1));
    assert v.ren(s, n) == Render(look, s, n) && v.ren(t, n - 1) == Render(look, t, n - 1);
  }

  lemma NextText(m: string, x: Marker, tail: string) returns (t: string)
    requires x.Known? && x.r != "" && tail == Tail(m, x)
    ensures t == x.r + tail && t == Adjusted(x, m)
  {
    AdjustedKnown(m, x);
    t := Adjusted(x, m);
  }

  lemma TurnEmpty(look: string -> Marker, v: View, s: string, n: nat, i: nat, m: string, x: Marker)
    requires Views(v, look) && i == Find(s, '$', 0) < |s| && m == s[i..] && x == look(m) && x.Known? && x.r == ""
    ensures v.ren(s, n) == s
  {
    EmptyValueStalls(look, s, n);
  }

  /** A shorter text never renders to a text that begins with a marker, when no value met contains a '$'. */
  lemma {:induction false} NeverGrowsBack(look: string -> Marker, v: View, t: string, n: nat, m: string)
    requires Views(v, look) && Shaped(look) && |t| < |m| && m[0] == '$' && v.plain(t, n)
    ensures v.one(t, n) != m
    decreases n
  {
    var i := Find(t, '$', 0);
    if n == 0 || i == |t| {
      NoTurn(look, v, t, n);
    } else {
      var k := t[i..];
      var x := look(k);
      assert ShapedMarker(look(k), k);
      if x.Unknown? {
        TurnUnknown(look, v, t, n, i, k, x);
        StartsLike(t, i, x.masked, m);
      } else {
        var tail := Tail(k, x);
        FoundNext(look, v, t, n, i, k, x, tail);
        if i == 0 && x.r == "" {
          TailShorter(k, x);
          NeverGrowsBack(look, v, tail, n - 1, m);
          assert t[..0] + ("" + v.one(tail, n - 1)) == v.one(tail, n - 1);
        } else {
          StartsOtherwise(t, i, x.r, v.one(tail, n - 1), m);
        }
      }
    }
  }

  lemma StartsLike(t: string, i: nat, masked: string, m: string)
    requires i <= |t| && |masked| == |t| - i && |t| < |m|
    ensures t[..i] + masked != m
  {
    assert |t[..i] + masked| == |t|;
  }

  lemma StartsOtherwise(t: string, i: nat, r: string, rest: string, m: string)
    requires i == Find(t, '$', 0) < |t| && '$' !in r && (i > 0 || r != "") && m != "" && m[0] == '$'
    ensures t[..i] + (r + rest) != m
  {
    var u := t[..i] + (r + rest);
    if i > 0 {
      FindSkips(t, '$', 0);
      assert u[0] == t[0] != '$';
    } else {
      assert u[0] == r[0] && r[0] in r;
    }
  }

  /** Lines that begin alike are the same exactly when what follows is. */
  lemma SameBehind(a: string, b: string, pre: string, w: string, r: string, u: string, z: string)
    requires a == pre + w && w == r + u && b == pre + (r + z)
    ensures a == b <==> u == z
  {
    assert a[|pre| + |r|..] == u && b[|pre| + |r|..] == z;
  }

  lemma FullTurn(look: string -> Marker, v: View, s: string, n: nat, i: nat, m: string, x: Marker, tail: string,
                 t: string)
    requires Views(v, look) && n > 0 && i == Find(s, '$', 0) < |s| && m == s[i..] && x == look(m) && x.Known?
    requires tail == Tail(m, x) && t == x.r + tail && t == Adjusted(x, m) && x.r != "" && v.plain(s, n)
    requires v.ren(tail, n - 1) == v.one(tail, n - 1) <==> v.full(tail, n - 1)
    ensures v.ren(s, n) == v.one(s, n) <==> v.full(s, n)
  {
    FoundNext(look, v, s, n, i, m, x, tail);
    TurnBy(look, v, s, n, i, m, x, t);
    BehindBy(look, v, x.r, tail, n - 1, t);
    SameBehind(v.ren(s, n), v.one(s, n), s[..i], v.ren(t, n - 1), x.r, v.ren(tail, n - 1), v.one(tail, n - 1));
  }

  lemma EmptyTurn(look: string -> Marker, v: View, s: string, n: nat, i: nat, m: string, x: Marker, tail: string)
    requires Views(v, look) && Shaped(look) && n > 0 && i == Find(s, '$', 0) < |s| && m == s[i..] && x == look(m)
    requires x.Known? && tail == Tail(m, x) && x.r == "" && v.plain(s, n)
    ensures v.ren(s, n) != v.one(s, n) && !v.full(s, n)
  {
    FoundNext(look, v, s, n, i, m, x, tail);
    TurnEmpty(look, v, s, n, i, m, x);
    assert ShapedMarker(look(m), m);
    TailShorter(m, x);
    NeverGrowsBack(look, v, tail, n - 1, m);
    EmptyDiffers(s, i, m, v.one(tail, n - 1));
  }

  lemma {:induction false} SameLine(look: string -> Marker, v: View, s: string, n: nat)
    requires Views(v, look) && Shaped(look) && v.plain(s, n)
    ensures v.ren(s, n) == v.one(s, n) <==> v.full(s, n)
    decreases n
  {
    var i := Find(s, '$', 0);
    if n == 0 || i == |s| {
      NoTurn(look, v, s, n);
    } else {
      var m := s[i..];
      var x := look(m);
      if x.Unknown? {
        TurnUnknown(look, v, s, n, i, m, x);
      } else if x.r == "" {
        EmptyTurn(look, v, s, n, i, m, x, Tail(m, x));
      } else {
        var tail := Tail(m, x);
        FoundNext(look, v, s, n, i, m, x, tail);
        SameLine(look, v, tail, n - 1);
        var t := NextText(m, x, tail);
        FullTurn(look, v, s, n, i, m, x, tail, t);
      }
    }
  }

  lemma EmptyDiffers(s: string, i: nat, m: string, rest: string)
    requires i < |s| && m == s[i..] && rest != m
    ensures s[..i] + ("" + rest) != s
  {
    assert (s[..i] + ("" + rest))[i..] == rest;
  }

  /** Along a line on which no value met contains a '$', the loop that scans its own output again gives what the plain
      renderer gives if and only if no value met is empty. */
  lemma RescanIsOnePass(look: string -> Marker, s: string, left: nat)
    requires Shaped(look) && NoDollar(look, s, left)
    ensures Render(look, s, left) == OnePass(look, s, left) <==> NoneEmpty(look, s, left)
  {
    var v := View((t: string, n: nat) => Render(look, t, n), (t: string, n: nat) => OnePass(look, t, n),
                  (t: string, n: nat) => NoneEmpty(look, t, n), (t: string, n: nat) => NoDollar(look, t, n));
    SameLine(look, v, s, left);
  }

  /** So for every updated line of every template, whatever its other lines and variables are. */
  lemma UpdatedLineIsOnePass(voc: seq<string>, vars: seq<Var>, value: Var -> Text, line: Text, look: string -> Marker)
    requires look == Looker(voc, vars, value) && NoDollar(look, Cut(line), MARKERS) && Renderer(look)(line).Some?
    ensures Renderer(look)(line) == Some(OnePass(look, Cut(line), MARKERS)) <==> NoneEmpty(look, Cut(line), MARKERS)
  {
    LookerIsShaped(voc, vars, value);
    var n := MARKERS;
    RescanIsOnePass(look, Cut(line), n);
  }

  // ----- how many markers are replaced

  /** How many markers the line has for a renderer that has no limit. */
  function Met(look: string -> Marker, s: string): nat
    decreases |s|
  {
    var i := Find(s, '$', 0);
    if i == |s| then 0
    else
      var x := look(s[i..]);
      if x.Unknown? || |Tail(s[i..], x)| >= |s| then 1 else 1 + Met(look, Tail(s[i..], x))
  }

  /** All of them are known and render to text without a '$'. */
  predicate AllKnown(look: string -> Marker, s: string)
    decreases |s|
  {
    var i := Find(s, '$', 0);
    i == |s| ||
    var x := look(s[i..]);
    x.Known? && x.r != "" && '$' !in x.r && |Tail(s[i..], x)| < |s| && AllKnown(look, Tail(s[i..], x))
  }

  /** The plain renderer, the number of markers, and what is known of the values, as functions. */
  datatype Tally = Tally(one: (string, nat) -> string, full: (string, nat) -> bool, plain: (string, nat) -> bool,
                         met: string -> nat, known: string -> bool)

  ghost predicate Tallies(v: Tally, look: string -> Marker) {
    && (forall s, n {:trigger OnePass(look, s, n)} :: v.one(s, n) == OnePass(look, s, n))
    && (forall s, n {:trigger NoneEmpty(look, s, n)} :: v.full(s, n) == NoneEmpty(look, s, n))
    && (forall s, n {:trigger NoDollar(look, s, n)} :: v.plain(s, n) == NoDollar(look, s, n))
    && (forall s {:trigger Met(look, s)} :: v.met(s) == Met(look, s))
    && (forall s {:trigger AllKnown(look, s)} :: v.known(s) == AllKnown(look, s))
  }

  lemma NoMarker(look: string -> Marker, v: Tally, s: string, n: nat)
    requires Tallies(v, look) && Find(s, '$', 0) == |s|
    ensures v.one(s, n) == s && v.met(s) == 0 && v.full(s, n) && v.plain(s, n) && '$' !in s
  {
    assert OnePass(look, s, n) == s && Met(look, s) == 0 && NoneEmpty(look, s, n) && NoDollar(look, s, n);
    FindSkips(s, '$', 0);
  }

  lemma NoneLeft(look: string -> Marker, v: Tally, s: string)
    requires Tallies(v, look) && Find(s, '$', 0) < |s|
    ensures v.one(s, 0) == s && v.met(s) >= 1 && v.full(s, 0) && v.plain(s, 0) && '$' in s
  {
    assert OnePass(look, s, 0) == s && Met(look, s) >= 1 && NoneEmpty(look, s, 0) && NoDollar(look, s, 0);
    assert s[Find(s, '$', 0)] == '$';
  }

  lemma OneMarker(look: string -> Marker, v: Tally, s: string, n: nat, i: nat, m: string, x: Marker)
    returns (tail: string)
    requires Tallies(v, look) && v.known(s) && n > 0 && i == Find(s, '$', 0) < |s| && m == s[i..] && x == look(m)
    ensures x.Known? && '$' !in x.r && v.known(tail) && v.met(s) == 1 + v.met(tail)
    ensures v.one(s, n) == s[..i] + (x.r + v.one(tail, n - 1))
    ensures (v.full(tail, n - 1) ==> v.full(s, n)) && (v.plain(tail, n - 1) ==> v.plain(s, n))
  {
    assert AllKnown(look, s);
    tail := Tail(m, x);
    assert AllKnown(look, tail) && Met(look, s) == 1 + Met(look, tail);
    assert NoneEmpty(look, tail, n - 1) ==> NoneEmpty(look, s, n);
    assert NoDollar(look, tail, n - 1) ==> NoDollar(look, s, n);
    OnePassTurn(look, s, n, i, m, x, OnePass(look, tail, n - 1));
  }

  lemma DollarBehind(s: string, i: nat, r: string, rest: string)
    requires i == Find(s, '$', 0) && '$' !in r
    ensures '$' in s[..i] + (r + rest) <==> '$' in rest
  {
    FindSkips(s, '$', 0);
    assert '$' !in s[..i];
  }

  lemma {:induction false} Replaced(look: string -> Marker, v: Tally, s: string, n: nat)
    requires Tallies(v, look) && v.known(s)
    ensures v.full(s, n) && v.plain(s, n) && ('$' !in v.one(s, n) <==> v.met(s) <= n)
    decreases n
  {
    var i := Find(s, '$', 0);
    if i == |s| {
      NoMarker(look, v, s, n);
    } else if n == 0 {
      NoneLeft(look, v, s);
    } else {
      var x := look(s[i..]);
      var tail := OneMarker(look, v, s, n, i, s[i..], x);
      Replaced(look, v, tail, n - 1);
      DollarBehind(s, i, x.r, v.one(tail, n - 1));
    }
  }

  /** Ten markers a line: when all of them are known and render to text without a '$', the updated line keeps no '$'
      if and only if there are at most ten. */
  lemma TenMarkers(voc: seq<string>, vars: seq<Var>, value: Var -> Text, line: Text, look: string -> Marker)
    requires look == Looker(voc, vars, value) && AllKnown(look, Cut(line)) && Renderer(look)(line).Some?
    ensures '$' !in Renderer(look)(line).value <==> Met(look, Cut(line)) <= 10
  {
    var n := MARKERS;
    var v := Tally((t: string, k: nat) => OnePass(look, t, k), (t: string, k: nat) => NoneEmpty(look, t, k),
                   (t: string, k: nat) => NoDollar(look, t, k), (t: string) => Met(look, t),
                   (t: string) => AllKnown(look, t));
    assert AllKnown(look, Cut(line)) == v.known(Cut(line));
    Replaced(look, v, Cut(line), n);
    AsTallied(look, v, Cut(line), n);
    UpdatedLineIsOnePass(voc, vars, value, line, look);
  }

  lemma AsTallied(look: string -> Marker, v: Tally, s: string, n: nat)
    requires Tallies(v, look)
    ensures v.one(s, n) == OnePass(look, s, n) && v.full(s, n) == NoneEmpty(look, s, n)
    ensures v.plain(s, n) == NoDollar(look, s, n) && v.met(s) == Met(look, s)
  {
  }

  // ----- a template whose value reads like a marker

  /** A format without conversions renders to itself. */
  function AsIs(v: Var): Text { if NUL in v.format then "" else v.format }

  const Nested: seq<string> := ["CNAME=<$HNAME:>", "HNAME=<h>"]

  lemma CodeOfCname()
    ensures Lookup(Voc, "CNAME") == Some(7)
  {
    forall j | 0 <= j < 7
      ensures !("CNAME" <= Voc[j])
    {
      assert Voc[j][1] != 'N';
    }
    LookupInIs(Voc, "CNAME", 0, 7);
  }

  lemma CodeOfHname()
    ensures Lookup(Voc, "HNAME") == Some(17)
  {
    forall j | 0 <= j < 14
      ensures !("HNAME" <= Voc[j])
    {
      assert Voc[j][0] == 'C';
    }
    assert !("HNAME" <= Voc[14]) && !("HNAME" <= Voc[15]) && !("HNAME" <= Voc[16]) by {
      assert Voc[14][1] == Voc[15][1] == 'I' && Voc[16][1] == 'M';
    }
    LookupInIs(Voc, "HNAME", 0, 17);
  }

  lemma ParsedNested()
    ensures Parse(Nested[0]) == Some(("CNAME", "$HNAME:")) && Parse(Nested[1]) == Some(("HNAME", "h"))
  {
    FindIs(Nested[0], '=', 0, 5);
    FindIs(Nested[0], '>', 7, 14);
    FindIs(Nested[1], '=', 0, 5);
    FindIs(Nested[1], '>', 7, 8);
    assert Nested[0][..5] == "CNAME" && Nested[0][7..14] == "$HNAME:" && Nested[0][5..7] == "=<";
    assert Nested[1][..5] == "HNAME" && Nested[1][7..8] == "h" && Nested[1][5..7] == "=<";
  }

  lemma DeclaresOne(voc: seq<string>, vars: seq<Var>, line: string, name: string, format: string, code: nat)
    requires Parse(line) == Some((name, format)) && Lookup(voc, name) == Some(code) && FindVar(vars, code).None?
    ensures Declare(voc, vars, line) == Some(vars + [Var(code, format)])
  {
  }

  lemma DeclaresNext(voc: seq<string>, before: seq<string>, line: string, more: seq<Var>)
    requires Declare(voc, Declared(voc, before), line) == Some(more)
    ensures Declared(voc, before + [line]) == more
  {
    assert (before + [line])[..|before|] == before;
  }

  lemma DeclaredOne(voc: seq<string>, line: string, a: string, f: string, c: nat)
    requires Parse(line) == Some((a, f)) && Lookup(voc, a) == Some(c)
    ensures Declared(voc, [line]) == [Var(c, f)]
  {
    DeclaresOne(voc, [], line, a, f, c);
    assert [] + [Var(c, f)] == [Var(c, f)] && Declared(voc, []) == [];
    DeclaresNext(voc, [], line, [Var(c, f)]);
    assert [] + [line] == [line];
  }

  /** Two declarations of different variables. */
  lemma DeclaredTwo(voc: seq<string>, lines: seq<string>, a: string, f: string, c: nat, b: string, g: string, d: nat)
    requires |lines| == 2 && Parse(lines[0]) == Some((a, f)) && Parse(lines[1]) == Some((b, g))
    requires Lookup(voc, a) == Some(c) && Lookup(voc, b) == Some(d) && c != d
    ensures Declared(voc, lines) == [Var(c, f)] + [Var(d, g)]
  {
    var one := [Var(c, f)];
    DeclaredOne(voc, lines[0], a, f, c);
    NotFound(Var(c, f), d);
    DeclaresOne(voc, one, lines[1], b, g, d);
    DeclaresNext(voc, [lines[0]], lines[1], one + [Var(d, g)]);
    assert [lines[0]] + [lines[1]] == lines;
  }

  lemma NotFound(v: Var, code: nat)
    requires v.code != code
    ensures FindVar([v], code).None?
  {
    assert [v][1..] == [];
  }

  lemma DeclaredNested()
    ensures Declared(Voc, Nested) == [Var(7, "$HNAME:"), Var(17, "h")]
  {
    CodeOfCname();
    CodeOfHname();
    ParsedNested();
    DeclaredTwo(Voc, Nested, "CNAME", "$HNAME:", 7, "HNAME", "h", 17);
  }

  lemma LookIs(voc: seq<string>, vars: seq<Var>, value: Var -> Text, m: string, name: string, code: nat, v: Var)
    requires m != "" && m[0] == '$' && Name(m) == name
    requires Lookup(voc, name) == Some(code) && FindVar(vars, code) == Some(v)
    ensures Look(voc, vars, value, m) == Known(|name| + 2, value(v))
  {
  }

  lemma NamesOfMarkers()
    ensures Name("$CNAME:") == "CNAME" && Name("$HNAME:") == "HNAME"
  {
    FindIs("$CNAME:", ':', 1, 6);
    FindIs("$HNAME:", ':', 1, 6);
    assert "$CNAME:"[1..6] == "CNAME" && "$HNAME:"[1..6] == "HNAME";
  }

  lemma FoundSecond(vars: seq<Var>, v: Var, w: Var)
    requires vars == [v, w] && v.code != w.code
    ensures FindVar(vars, v.code) == Some(v) && FindVar(vars, w.code) == Some(w)
  {
    assert vars[1..] == [w];
  }

  lemma LookedUp(vars: seq<Var>, look: string -> Marker)
    requires vars == [Var(7, "$HNAME:"), Var(17, "h")] && look == Looker(Voc, vars, AsIs)
    ensures look("$CNAME:") == Known(7, "$HNAME:") && look("$HNAME:") == Known(7, "h")
  {
    CodeOfCname();
    CodeOfHname();
    NamesOfMarkers();
    FoundSecond(vars, Var(7, "$HNAME:"), Var(17, "h"));
    LookIs(Voc, vars, AsIs, "$CNAME:", "CNAME", 7, Var(7, "$HNAME:"));
    LookIs(Voc, vars, AsIs, "$HNAME:", "HNAME", 17, Var(17, "h"));
  }

  lemma WholeMarker(look: string -> Marker, m: string, n: nat, r: Text)
    requires n > 0 && m != "" && m[0] == '$' && look(m) == Known(|m|, r) && 0 < |r| <= |m|
    ensures Render(look, m, n) == Render(look, r, n - 1) && OnePass(look, m, n) == r
  {
    assert m[0..] == m && m[..0] == "" && m[|m|..] == "";
    RenderKnown(look, m, n, 0, m, Known(|m|, r), r, Render(look, r, n - 1));
    assert OnePass(look, "", n - 1) == "";
    OnePassTurn(look, m, n, 0, m, Known(|m|, r), "");
    assert "" + (r + "") == r && "" + Render(look, r, n - 1) == Render(look, r, n - 1);
  }

  /** There the two renderers differ: the loop replaces what it has just written, if it has a marker left for it. */
  lemma DollarValueDiffers(vars: seq<Var>, look: string -> Marker, n: nat)
    requires vars == Declared(Voc, Nested) && look == Looker(Voc, vars, AsIs) && n >= 2
    ensures Render(look, "$CNAME:", n) == "h" && OnePass(look, "$CNAME:", n) == "$HNAME:"
  {
    DeclaredNested();
    LookedUp(vars, look);
    WholeMarker(look, "$CNAME:", n, "$HNAME:");
    WholeMarker(look, "$HNAME:", n - 1, "h");
    assert Render(look, "h", n - 2) == "h";
  }

  // ----- columns

  type Renders = (string, nat) -> string

  /** Column `k` of a line lies in a replaced field, or behind the marker that stopped the line. */
  predicate InField(look: string -> Marker, s: string, left: nat, k: int)
    decreases left
  {
    var i := Find(s, '$', 0);
    if left == 0 || i == |s| then false
    else
      var x := look(s[i..]);
      if x.Unknown? then i <= k
      else i <= k < i + Field(x) || InField(look, Tail(s[i..], x), left - 1, k - i - Field(x))
  }

  /** Every value met is at least as long as its key. */
  predicate Wide(look: string -> Marker, s: string, left: nat)
    decreases left
  {
    var i := Find(s, '$', 0);
    left == 0 || i == |s| ||
    var x := look(s[i..]);
    x.Unknown? || (|x.r| >= x.using && Wide(look, Tail(s[i..], x), left - 1))
  }

  /** A column behind a field is the column of what follows the field. */
  lemma ColumnStep(s: string, i: nat, x: Marker, tail: string, rest: string, t: string, k: nat, j: nat)
    requires i <= k < |s| && x.Known? && |x.r| >= x.using && tail == Tail(s[i..], x) && t == s[..i] + (x.r + rest)
    requires k == i + |x.r| + j && j < |tail| && j < |rest| && rest[j] == tail[j]
    ensures k < |t| && t[k] == s[k]
  {
    assert tail[j] == s[k];
  }

  lemma WideStep(look: string -> Marker, s: string, left: nat, i: nat, x: Marker, tail: string)
    requires Wide(look, s, left) && left > 0 && i == Find(s, '$', 0) < |s| && x == look(s[i..])
    ensures x.Known? && tail == Tail(s[i..], x) ==> |x.r| >= x.using && Wide(look, tail, left - 1)
  {
  }

  lemma FieldStep(look: string -> Marker, s: string, left: nat, k: nat, i: nat, x: Marker, tail: string, j: int)
    requires !InField(look, s, left, k) && left > 0 && i == Find(s, '$', 0) < |s| && i <= k < |s| && x == look(s[i..])
    requires x.Known? ==> tail == Tail(s[i..], x) && j == k - i - Field(x)
    ensures x.Known? && 0 <= j < |tail| && !InField(look, tail, left - 1, j)
  {
  }

  ghost predicate Laid(look: string -> Marker, one: Renders, wide: (string, nat) -> bool,
                       field: (string, nat, int) -> bool)
  {
    && (forall s, n {:trigger OnePass(look, s, n)} :: one(s, n) == OnePass(look, s, n))
    && (forall s, n {:trigger Wide(look, s, n)} :: wide(s, n) == Wide(look, s, n))
    && (forall s, n, k {:trigger InField(look, s, n, k)} :: field(s, n, k) == InField(look, s, n, k))
  }

  lemma ColumnTurn(look: string -> Marker, one: Renders, wide: (string, nat) -> bool,
                   field: (string, nat, int) -> bool, s: string, left: nat, k: nat, i: nat, x: Marker)
    returns (tail: string)
    requires Laid(look, one, wide, field) && wide(s, left) && !field(s, left, k)
    requires left > 0 && i == Find(s, '$', 0) < |s| && i <= k < |s| && x == look(s[i..])
    ensures x.Known? && |x.r| >= x.using && tail == Tail(s[i..], x)
    ensures k >= i + |x.r| && k - i - |x.r| < |tail|
    ensures wide(tail, left - 1) && !field(tail, left - 1, k - i - |x.r|)
    ensures one(s, left) == s[..i] + (x.r + one(tail, left - 1))
  {
    tail := if x.Known? then Tail(s[i..], x) else "";
    assert Wide(look, s, left) && !InField(look, s, left, k);
    FieldStep(look, s, left, k, i, x, tail, if x.Known? then k - i - Field(x) else 0);
    WideStep(look, s, left, i, x, tail);
    OnePassTurn(look, s, left, i, s[i..], x, OnePass(look, tail, left - 1));
  }

  lemma BeforeFields(look: string -> Marker, one: Renders, wide: (string, nat) -> bool,
                     field: (string, nat, int) -> bool, s: string, left: nat, k: nat)
    requires Laid(look, one, wide, field) && !field(s, left, k) && k < |s| && (left == 0 || k < Find(s, '$', 0))
    ensures k < |one(s, left)| && one(s, left)[k] == s[k]
  {
    assert !InField(look, s, left, k);
    var t := OnePass(look, s, left);
  }

  lemma {:induction false} ColumnKept(look: string -> Marker, one: Renders, wide: (string, nat) -> bool,
                                      field: (string, nat, int) -> bool, s: string, left: nat, k: nat)
    requires Laid(look, one, wide, field) && wide(s, left) && k < |s| && !field(s, left, k)
    ensures k < |one(s, left)| && one(s, left)[k] == s[k]
    decreases left
  {
    var i := Find(s, '$', 0);
    if left == 0 || k < i {
      BeforeFields(look, one, wide, field, s, left, k);
    } else {
      var x := look(s[i..]);
      var tail := ColumnTurn(look, one, wide, field, s, left, k, i, x);
      var j := k - i - |x.r|;
      ColumnKept(look, one, wide, field, tail, left - 1, j);
      ColumnStep(s, i, x, tail, one(tail, left - 1), one(s, left), k, j);
    }
  }

  /** With values at least as long as their keys, the text outside the fields keeps its columns. */
  lemma ColumnsKept(look: string -> Marker, s: string, left: nat, k: nat)
    requires Wide(look, s, left) && k < |s| && !InField(look, s, left, k)
    ensures k < |OnePass(look, s, left)| && OnePass(look, s, left)[k] == s[k]
  {
    ColumnKept(look, (t: string, n: nat) => OnePass(look, t, n), (t: string, n: nat) => Wide(look, t, n),
               (t: string, n: nat, j: int) => InField(look, t, n, j), s, left, k);
  }

  ghost predicate Sized(look: string -> Marker, wide: (string, nat) -> bool, full: (string, nat) -> bool) {
    && (forall s, n {:trigger Wide(look, s, n)} :: wide(s, n) == Wide(look, s, n))
    && (forall s, n {:trigger NoneEmpty(look, s, n)} :: full(s, n) == NoneEmpty(look, s, n))
  }

  lemma SizedTurn(look: string -> Marker, wide: (string, nat) -> bool, full: (string, nat) -> bool, s: string, n: nat,
                  i: nat, m: string, x: Marker, tail: string)
    requires Sized(look, wide, full) && wide(s, n) && n > 0 && i == Find(s, '$', 0) < |s| && m == s[i..] && x == look(m)
    requires x.Known? && x.using > 0 && tail == Tail(m, x)
    ensures wide(tail, n - 1) && (full(tail, n - 1) ==> full(s, n))
  {
    assert Wide(look, s, n);
    WideStep(look, s, n, i, x, tail);
    assert Wide(look, tail, n - 1) && (NoneEmpty(look, tail, n - 1) ==> NoneEmpty(look, s, n));
  }

  lemma SizedStops(look: string -> Marker, wide: (string, nat) -> bool, full: (string, nat) -> bool, s: string, n: nat)
    requires Sized(look, wide, full)
    requires var i := Find(s, '$', 0); n == 0 || i == |s| || look(s[i..]).Unknown?
    ensures full(s, n)
  {
    assert NoneEmpty(look, s, n);
  }

  lemma {:induction false} WideBy(look: string -> Marker, wide: (string, nat) -> bool, full: (string, nat) -> bool,
                                  s: string, n: nat)
    requires Shaped(look) && Sized(look, wide, full) && wide(s, n)
    ensures full(s, n)
    decreases n
  {
    var i := Find(s, '$', 0);
    if n == 0 || i == |s| || look(s[i..]).Unknown? {
      SizedStops(look, wide, full, s, n);
    } else {
      var m := s[i..];
      assert ShapedMarker(look(m), m);
      var tail := Tail(m, look(m));
      SizedTurn(look, wide, full, s, n, i, m, look(m), tail);
      WideBy(look, wide, full, tail, n - 1);
    }
  }

  /** Values as long as their keys are not empty. */
  lemma WideIsFull(look: string -> Marker, s: string, left: nat)
    requires Shaped(look) && Wide(look, s, left)
    ensures NoneEmpty(look, s, left)
  {
    WideBy(look, (t: string, n: nat) => Wide(look, t, n), (t: string, n: nat) => NoneEmpty(look, t, n), s, left);
  }

  /** So does the line that the rescanning loop makes, when no value met contains a '$'. */
  lemma RenderedColumnsKept(look: string -> Marker, s: string, left: nat, k: nat)
    requires Shaped(look) && NoDollar(look, s, left)
    requires Wide(look, s, left) && k < |s| && !InField(look, s, left, k)
    ensures k < |Render(look, s, left)| && Render(look, s, left)[k] == s[k]
  {
    WideIsFull(look, s, left);
    RescanIsOnePass(look, s, left);
    ColumnsKept(look, s, left, k);
  }
}
