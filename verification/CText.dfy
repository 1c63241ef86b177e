/** NUL-terminated text in a fixed buffer, and the C library calls the modelled code makes on it. */
module CText {

  const NUL := '\0'

  /** The buffer holds the string `s` from position `p` on, with its terminator. */
  ghost predicate Holds(a: array<char>, p: nat, s: string)
    reads a
  {
    && p + |s| < a.Length && a[p + |s|] == NUL
    && forall i {:trigger s[i]} :: 0 <= i < |s| ==> a[p + i] == s[i] && s[i] != NUL
  }

  /** The first position of `c` in `s` at or after `p`, or the length of `s`. */
  function Find(s: string, c: char, p: nat): (i: nat)
    ensures p <= |s| ==> p <= i <= |s|
    ensures p > |s| ==> i == |s|
    ensures i < |s| ==> s[i] == c
    decreases |s| - p
  {
    if p >= |s| then |s| else if s[p] == c then p else Find(s, c, p + 1)
  }

  lemma {:induction false} FindSkips(s: string, c: char, p: nat)
    ensures forall k :: p <= k < Find(s, c, p) ==> s[k] != c
    decreases |s| - p
  {
    if p < |s| && s[p] != c {
      FindSkips(s, c, p + 1);
    }
  }

  lemma {:induction false} FindIs(s: string, c: char, p: nat, i: nat)
    requires p <= i < |s| && s[i] == c && forall k :: p <= k < i ==> s[k] != c
    ensures Find(s, c, p) == i
    decreases i - p
  {
    if p < i {
      FindIs(s, c, p + 1, i);
    }
  }

  lemma {:induction false} FindNone(s: string, c: char, p: nat)
    requires forall k :: p <= k < |s| ==> s[k] != c
    ensures Find(s, c, p) == |s|
    decreases |s| - p
  {
    if p < |s| {
      FindNone(s, c, p + 1);
    }
  }

  lemma FindHas(s: string, c: char, p: nat, k: nat)
    requires p <= k < |s| && s[k] == c
    ensures Find(s, c, p) <= k
  {
    FindSkips(s, c, p);
  }

  method StrLen(a: array<char>, p: nat, ghost s: string) returns (n: nat)
    requires Holds(a, p, s)
    ensures n == |s|
  {
    n := 0;
    while a[p + n] != NUL
      invariant n <= |s| && (n < |s| ==> a[p + n] == s[n] != NUL)
      decreases |s| - n
    {
      n := n + 1;
    }
  }

  /** strchr and strcspn: scan for `c` from offset `from`; `i == |s|` means the terminator was met first. */
  method Seek(a: array<char>, p: nat, c: char, from: nat, ghost s: string) returns (i: nat)
    requires Holds(a, p, s) && from <= |s| && c != NUL
    ensures i == Find(s, c, from)
    ensures i < |s| <==> a[p + i] == c
  {
    i := from;
    while a[p + i] != c && a[p + i] != NUL
      invariant from <= i <= |s|
      invariant Find(s, c, i) == Find(s, c, from)
      decreases |s| - i
    {
      assert i < |s| ==> a[p + i] == s[i];
      i := i + 1;
    }
    assert i < |s| ==> a[p + i] == s[i] && s[i] != NUL;
  }

  /** memmove: the regions may overlap. */
  method Memmove(a: array<char>, dst: nat, src: nat, n: nat)
    requires dst + n <= a.Length && src + n <= a.Length
    modifies a
    ensures forall j :: dst <= j < dst + n ==> a[j] == old(a[j - dst + src])
    ensures forall j :: 0 <= j < dst || dst + n <= j < a.Length ==> a[j] == old(a[j])
  {
    forall i | dst <= i < dst + n { a[i] := a[i - dst + src]; }
  }

  /** memcpy of the first `n` characters of another buffer. */
  method Memcpy(a: array<char>, dst: nat, r: string, n: nat)
    requires n <= |r| && dst + n <= a.Length
    modifies a
    ensures forall j :: dst <= j < dst + n ==> a[j] == r[j - dst]
    ensures forall j :: 0 <= j < dst || dst + n <= j < a.Length ==> a[j] == old(a[j])
  {
    forall i | dst <= i < dst + n { a[i] := r[i - dst]; }
  }

  method Memset(a: array<char>, dst: nat, c: char, n: nat)
    requires dst + n <= a.Length
    modifies a
    ensures forall j :: dst <= j < dst + n ==> a[j] == c
    ensures forall j :: 0 <= j < dst || dst + n <= j < a.Length ==> a[j] == old(a[j])
  {
    forall i | dst <= i < dst + n { a[i] := c; }
  }

  /** What `snprintf(a,size,"%s",line)` or `fgets` leaves at the start of the buffer. */
  method Store(a: array<char>, line: string)
    requires |line| < a.Length && NUL !in line
    modifies a
    ensures Holds(a, 0, line)
  {
    Memcpy(a, 0, line, |line|);
    a[|line|] := NUL;
  }

  /** Put a terminator at offset `i`; the text behind it starts at the next cell. */
  method EndAt(a: array<char>, p: nat, i: nat, ghost s: string)
    requires Holds(a, p, s) && i < |s|
    modifies a
    ensures Holds(a, p + i + 1, s[i + 1..])
  {
    a[p + i] := NUL;
    ghost var after := s[i + 1..];
    assert forall k {:trigger after[k]} :: 0 <= k < |after| ==> after[k] == s[i + 1 + k];
  }

  /** The string without its characters from `i` to `j`. */
  function Without(s: string, i: nat, j: nat): (r: string)
    requires i <= j <= |s|
    ensures |r| == |s| - (j - i)
  {
    s[..i] + s[j..]
  }

  /** memmove(p+i,p+j,strlen(p+j)+1): closes a gap; the cell of the old terminator is left as it was. */
  method CloseUp(a: array<char>, p: nat, i: nat, j: nat, ghost s: string)
    requires Holds(a, p, s) && i < j <= |s|
    modifies a
    ensures Holds(a, p, Without(s, i, j)) && a[p + |s|] == NUL
    ensures forall k :: 0 <= k < p ==> a[k] == old(a[k])
  {
    ghost var tail := s[j..];
    assert Holds(a, p + j, tail) by {
      assert forall k {:trigger tail[k]} :: 0 <= k < |tail| ==> tail[k] == s[j + k];
    }
    var n := StrLen(a, p + j, tail);
    Memmove(a, p + i, p + j, n + 1);
    ghost var r := Without(s, i, j);
    assert forall k {:trigger r[k]} :: 0 <= k < |r| ==> r[k] == s[if k < i then k else k + (j - i)];
  }
}
