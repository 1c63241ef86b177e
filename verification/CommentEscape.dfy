/** Comments and escaped comment characters in a configuration line (`apl_getstr`, lib/utlapl.c:683-729): the line
    is edited in place in the buffer that `fgets` filled. */
module CommentEscape {
  import opened CText

  /** The scan from position `p`: an escaped comment character loses its backslash and the character after it is
      skipped unseen; any other one ends the line.  `p` may be one past the terminator. */
  function Uncomment(s: string, com: char, p: nat): string
    decreases |s| + 2 - p
  {
    if p > |s| then s
    else
      var k := Find(s, com, p);
      if k == |s| then s
      else if k > 0 && s[k - 1] == '\\' then Uncomment(Without(s, k - 1, k), com, k + 1)
      else s[..k]
  }

  /** What the caller gets for a line. */
  function Line(s: string, com: char): string {
    if com == NUL then s
    else if s != "" && s[0] == com then ""
    else Uncomment(s, com, 0)
  }

  /** A backslash in front of every comment character. */
  function Escape(s: string, com: char): string {
    if s == "" then ""
    else if s[0] == com then ['\\', com] + Escape(s[1..], com)
    else [s[0]] + Escape(s[1..], com)
  }

  /** `line` is what `fgets` delivers: at most `taille - 1` characters, newline included.  The loop that follows the
      comments is meant to drop that newline; it starts on the terminator and drops nothing. */
  method GetStr(str: array<char>, line: string, carcom: char) returns (ghost got: string)
    requires |line| < str.Length && NUL !in line
    modifies str
    ensures got == Line(line, carcom)
    ensures Holds(str, 0, got)
  {
    Store(str, line);
    got := line;
    if carcom != NUL {
      if str[0] == carcom {
        str[0] := NUL;
        got := "";
        return;
      }
      got := UncommentInPlace(str, line, carcom);
    }
    var len: int := StrLen(str, 0, got);
    var at := len;
    while len > 0
      invariant Holds(str, 0, got) && at == |got|
    {
      len := len - 1;
      if str[at] == '\n' || str[at] == '\r' {
        assert false;                            // never: the loop starts on the terminator
      } else {
        len := 0;
      }
    }
  }

  /** The comment loop: every `strchr` starts inside the buffer, on the text, on its terminator, or on the stale
      terminator one past it. */
  method UncommentInPlace(str: array<char>, line: string, carcom: char) returns (ghost got: string)
    requires Holds(str, 0, line) && carcom != NUL
    modifies str
    ensures got == Uncomment(line, carcom, 0) && Holds(str, 0, got)
  {
    ghost var owed := (s: string, p: nat) => Uncomment(s, carcom, p);
    got := UncommentFrom(str, line, carcom, owed);
  }

  /** `owed` is what the scan from a position is to give. */
  ghost predicate Owes(owed: (string, nat) -> string, com: char) {
    forall s, p {:trigger Uncomment(s, com, p)} :: owed(s, p) == Uncomment(s, com, p)
  }

  method UncommentFrom(str: array<char>, line: string, carcom: char, ghost owed: (string, nat) -> string)
    returns (ghost got: string)
    requires Holds(str, 0, line) && carcom != NUL && Owes(owed, carcom)
    modifies str
    ensures got == owed(line, 0) && Holds(str, 0, got)
  {
    got := line;
    var p: nat := 0;
    var k := SeekFrom(str, p, carcom, got);
    while str[k] == carcom
      invariant Holds(str, 0, got) && p <= |got| + 1 && k < str.Length
      invariant str[k] == carcom ==> p <= |got| && k == Find(got, carcom, p) < |got|
      invariant str[k] != carcom ==> p > |got| || Find(got, carcom, p) == |got|
      invariant owed(line, 0) == owed(got, p)
      decreases |got| + 2 - p
    {
      OwedAt(owed, got, carcom, p, k);
      if k != 0 && str[k - 1] == '\\' {
        got := Unescape(str, k, got);
        p := k + 1;
        k := SeekFrom(str, p, carcom, got);
      } else {
        CutAt(str, k, got);
        got := got[..k];
        return;
      }
    }
    OwedNone(owed, got, carcom, p);
  }

  lemma OwedAt(owed: (string, nat) -> string, s: string, com: char, p: nat, k: nat)
    requires Owes(owed, com) && p <= |s| && k == Find(s, com, p) < |s|
    ensures owed(s, p) == if k > 0 && s[k - 1] == '\\' then owed(Without(s, k - 1, k), k + 1) else s[..k]
  {
    UncommentAt(s, com, p);
    if k > 0 && s[k - 1] == '\\' {
      assert owed(Without(s, k - 1, k), k + 1) == Uncomment(Without(s, k - 1, k), com, k + 1);
    }
  }

  lemma OwedNone(owed: (string, nat) -> string, s: string, com: char, p: nat)
    requires Owes(owed, com) && (p > |s| || Find(s, com, p) == |s|)
    ensures owed(s, p) == s
  {
    UncommentNone(s, com, p);
    assert owed(s, p) == Uncomment(s, com, p);
  }

  /** memmove(ptrloc-1,ptrloc,strlen(ptrloc)+1) at `k`; the old terminator stays where it was. */
  method Unescape(str: array<char>, k: nat, ghost s: string) returns (ghost t: string)
    requires Holds(str, 0, s) && 0 < k < |s|
    modifies str
    ensures t == Without(s, k - 1, k) && Holds(str, 0, t) && str[|t| + 1] == NUL
  {
    CloseUp(str, 0, k - 1, k, s);
    t := Without(s, k - 1, k);
  }

  method CutAt(str: array<char>, k: nat, ghost s: string)
    requires Holds(str, 0, s) && k < |s|
    modifies str
    ensures Holds(str, 0, s[..k])
  {
    str[k] := NUL;
  }

  lemma UncommentNone(s: string, com: char, p: nat)
    requires p > |s| || Find(s, com, p) == |s|
    ensures Uncomment(s, com, p) == s
  {
  }

  /** strchr(ptrloc,carcom) where `ptrloc` is at `p`. */
  method SeekFrom(str: array<char>, p: nat, carcom: char, ghost s: string) returns (k: nat)
    requires Holds(str, 0, s) && p <= |s| + 1 && carcom != NUL
    requires p == |s| + 1 ==> p < str.Length && str[p] == NUL
    ensures p <= k < str.Length
    ensures str[k] == carcom ==> p <= |s| && k == Find(s, carcom, p) < |s|
    ensures str[k] != carcom ==> p > |s| || Find(s, carcom, p) == |s|
  {
    ghost var rest := if p <= |s| then s[p..] else "";
    assert Holds(str, p, rest) by {
      assert forall i {:trigger rest[i]} :: 0 <= i < |rest| ==> rest[i] == s[p + i];
    }
    var i := Seek(str, p, carcom, 0, rest);
    if p <= |s| { FindSuffix(s, carcom, p); }
    k := p + i;
  }

  lemma UncommentAt(s: string, com: char, p: nat)
    requires p <= |s| && Find(s, com, p) < |s|
    ensures var k := Find(s, com, p);
            Uncomment(s, com, p) ==
              if k > 0 && s[k - 1] == '\\' then Uncomment(Without(s, k - 1, k), com, k + 1) else s[..k]
  {
  }

  lemma FindSuffix(s: string, c: char, p: nat)
    requires p <= |s|
    ensures Find(s, c, p) == p + Find(s[p..], c, 0)
  {
    var i := Find(s[p..], c, 0);
    FindSkips(s[p..], c, 0);
    if i < |s| - p {
      assert forall k :: p <= k < p + i ==> s[k] == s[p..][k - p];
      FindIs(s, c, p, p + i);
    } else {
      assert forall k :: p <= k < |s| ==> s[k] == s[p..][k - p];
      FindNone(s, c, p);
    }
  }

  /** A line without a backslash is cut at its first comment character, wherever that is; without one, or when no
      comment character is asked for, the line is kept. */
  lemma CutAtComment(s: string, com: char)
    ensures com == NUL || com !in s ==> Line(s, com) == s
    ensures com != NUL && '\\' !in s && com in s ==>
              exists k :: 0 <= k < |s| && s[k] == com && com !in s[..k] && Line(s, com) == s[..k]
  {
    var k := Find(s, com, 0);
    FindSkips(s, com, 0);
    if com !in s {
      FindNone(s, com, 0);
      UncommentNone(s, com, 0);
    } else if com != NUL && '\\' !in s {
      assert k < |s| && com !in s[..k];
      UncommentAt(s, com, 0);
      assert s[0] == com ==> s[..k] == "";
    }
  }

  // ----- escaping and reading back

  predicate NoneFrom(s: string, com: char, p: nat) {
    forall k :: p <= k < |s| ==> s[k] != com
  }

  /** Where the scan stands after the escaped text of `s`: one past it when `s` ends in a comment character. */
  predicate Stands(s: string, com: char, p: nat) {
    && p <= |s| + 1 && NoneFrom(s, com, p)
    && (p == |s| + 1 <==> s != "" && s[|s| - 1] == com)
  }

  /** Reading an escaped text: the scan gives back the text and stands at its end, whatever follows. */
  lemma {:induction false} EscapeReadBack(done: string, s: string, tail: string, com: char, p: nat) returns (q: nat)
    requires com != NUL && com != '\\' && Stands(done, com, p)
    ensures Stands(done + s, com, q)
    ensures Uncomment(done + Escape(s, com) + tail, com, p) == Uncomment(done + s + tail, com, q)
    decreases |s|
  {
    if s == "" {
      q := p;
      assert done + s == done && done + Escape(s, com) + tail == done + s + tail;
    } else {
      var d := done + [s[0]];
      var r := if s[0] == com then |done| + 2 else p;
      assert d + s[1..] == done + s;
      OneCharacter(done, s, tail, com, p);
      q := EscapeReadBack(d, s[1..], tail, com, r);
    }
  }

  lemma OneCharacter(done: string, s: string, tail: string, com: char, p: nat)
    requires com != NUL && com != '\\' && Stands(done, com, p) && s != ""
    ensures var d := done + [s[0]];
            var r := if s[0] == com then |done| + 2 else p;
            && Stands(d, com, r)
            && Uncomment(done + Escape(s, com) + tail, com, p) == Uncomment(d + Escape(s[1..], com) + tail, com, r)
  {
    var x := if s[0] == com then ['\\', com] else [s[0]];
    var more := Escape(s[1..], com);
    Regroup(done, x, more, tail);
    Regroup(done, [s[0]], more, tail);
    if s[0] == com {
      EscapedAt(done, more + tail, com, p);
    }
  }

  lemma Regroup(a: string, x: string, y: string, t: string)
    ensures a + (x + y) + t == a + x + (y + t) == a + x + y + t
  {
    assert a + (x + y) == a + x + y;
    assert a + x + (y + t) == a + x + y + t;
  }

  /** The scan meets the escaped character right after what it has already decided. */
  lemma EscapedAt(done: string, after: string, com: char, p: nat)
    requires com != NUL && com != '\\' && Stands(done, com, p)
    ensures Uncomment(done + ['\\', com] + after, com, p) == Uncomment(done + [com] + after, com, |done| + 2)
  {
    var text := done + ['\\', com] + after;
    EscapedCells(done, after, com, p);
    UncommentAt(text, com, p);
  }

  lemma EscapedCells(done: string, after: string, com: char, p: nat)
    requires com != '\\' && Stands(done, com, p)
    ensures var text := done + ['\\', com] + after;
            && |done| < |text| && text[|done|] == '\\' && Find(text, com, p) == |done| + 1 < |text|
            && Without(text, |done|, |done| + 1) == done + [com] + after
  {
    var text := done + ['\\', com] + after;
    assert text[|done|] == '\\' && text[|done| + 1] == com;
    assert forall k :: p <= k < |done| ==> text[k] == done[k];
    FindIs(text, com, p, |done| + 1);
  }

  lemma {:induction false} UncommentKeeps(s: string, com: char, p: nat)
    ensures |Uncomment(s, com, p)| >= if p <= |s| then p else |s|
    decreases |s| + 2 - p
  {
    if p <= |s| {
      var k := Find(s, com, p);
      if k < |s| && k > 0 && s[k - 1] == '\\' {
        UncommentKeeps(Without(s, k - 1, k), com, k + 1);
      }
    }
  }

  lemma EscapeStart(s: string, tail: string, com: char)
    requires com != NUL && com != '\\' && (s != "" || tail == "")
    ensures Line(Escape(s, com) + tail, com) == Uncomment(Escape(s, com) + tail, com, 0)
  {
  }

  lemma LineReadBack(s: string, tail: string, com: char) returns (q: nat)
    requires com != NUL && com != '\\' && (s != "" || tail == "")
    ensures Stands(s, com, q) && Line(Escape(s, com) + tail, com) == Uncomment(s + tail, com, q)
  {
    EscapeStart(s, tail, com);
    q := EscapeReadBack("", s, tail, com, 0);
    assert "" + Escape(s, com) == Escape(s, com) && "" + s == s;
  }

  /** Round trip: a text written with its comment characters escaped is read back as it was. */
  lemma EscapedTextIsReadBack(s: string, com: char)
    requires com != NUL && com != '\\'
    ensures Line(Escape(s, com), com) == s
  {
    var q := LineReadBack(s, "", com);
    assert Escape(s, com) + "" == Escape(s, com) && s + "" == s;
    if q <= |s| { FindNone(s, com, q); }
    UncommentNone(s, com, q);
  }

  /** A comment after an escaped text is ignored exactly when the text does not end in the comment character, which
      would hide the one that follows it from the scan, nor in a backslash, which would escape it. */
  lemma {:induction false} CommentIsIgnored(s: string, t: string, com: char)
    requires com != NUL && com != '\\'
    ensures Line(Escape(s, com) + ([com] + t), com) == s <==> s == "" || s[|s| - 1] !in {com, '\\'}
  {
    if s == "" {
      assert (Escape(s, com) + ([com] + t))[0] == com;
    } else {
      var q := LineReadBack(s, [com] + t, com);
      CommentAfter(s, t, com, q);
    }
  }

  lemma CommentAfter(s: string, t: string, com: char, q: nat)
    requires com != NUL && com != '\\' && s != "" && Stands(s, com, q)
    ensures Uncomment(s + ([com] + t), com, q) == s <==> s[|s| - 1] !in {com, '\\'}
  {
    var line := s + ([com] + t);
    if s[|s| - 1] == com {
      UncommentKeeps(line, com, q);
    } else {
      CommentFound(s, t, com, q);
      UncommentAt(line, com, q);
      if s[|s| - 1] == '\\' {
        SwallowedComment(s, t, com);
      } else {
        assert line[..|s|] == s;
      }
    }
  }

  lemma CommentFound(s: string, t: string, com: char, q: nat)
    requires Stands(s, com, q) && q <= |s|
    ensures Find(s + ([com] + t), com, q) == |s|
  {
    var line := s + ([com] + t);
    assert line[|s|] == com && forall k :: q <= k < |s| ==> line[k] == s[k];
    FindIs(line, com, q, |s|);
  }

  /** The escaped comment character stays in the text, and so does what follows it. */
  lemma SwallowedComment(s: string, t: string, com: char)
    requires s != "" && s[|s| - 1] == '\\' && com != '\\'
    ensures Uncomment(Without(s + ([com] + t), |s| - 1, |s|), com, |s| + 1) != s
  {
    var rest := Without(s + ([com] + t), |s| - 1, |s|);
    assert rest[|s| - 1] == com;
    UncommentKeeps(rest, com, |s| + 1);
    if t == "" {
      assert Uncomment(rest, com, |s| + 1) == rest;
    }
  }
}
