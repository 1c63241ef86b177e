/** The doubly linked ring of payloads (lib/utlvec.c:44-139). A node carries a flag saying it was given back to the
    allocator; every load goes through `Next`, `Prev` and `Payload`, which a node given back does not allow. */
module RingList {

  /** A payload is a pointer, 0 the null one. */
  type Pointer = nat

  class Node {
    const payload: Pointer
    var nxt: Node
    var prv: Node
    ghost var freed: bool

    constructor (payload: Pointer)
      ensures this.payload == payload && nxt == this && prv == this && !freed
    {
      this.payload := payload;
      nxt := this;
      prv := this;
      freed := false;
    }

    method Next() returns (n: Node)
      requires !freed
      ensures n == nxt
    { n := nxt; }

    method Prev() returns (n: Node)
      requires !freed
      ensures n == prv
    { n := prv; }

    method Payload() returns (p: Pointer)
      requires !freed
      ensures p == payload
    { p := payload; }

    method Free()
      requires !freed
      modifies this`freed
      ensures freed
    { freed := true; }
  }

  function After(i: int, n: int): int { if i == n - 1 then 0 else i + 1 }
  function Before(i: int, n: int): int { if i == 0 then n - 1 else i - 1 }

  /** The nodes `s`, all live and distinct, form one cycle in which `prv` undoes `nxt`. */
  ghost predicate Cycle(s: seq<Node>)
    reads s
  {
    && (forall i, j :: 0 <= i < j < |s| ==> s[i] != s[j])
    && (forall i :: 0 <= i < |s| ==> !s[i].freed)
    && (forall i :: 0 <= i < |s| ==> Placed(s, i))
  }

  /** Node `i` leads to its neighbours. */
  ghost predicate Placed(s: seq<Node>, i: nat)
    requires i < |s|
    reads s
  {
    s[i].nxt == s[After(i, |s|)] && s[i].prv == s[Before(i, |s|)]
  }

  /** `k` steps forward from a node. */
  ghost function Walk(n: Node, k: nat): Node
    reads *
  {
    if k == 0 then n else Walk(n, k - 1).nxt
  }

  /** Walking visits the nodes in order and comes back after exactly `|s|` steps. */
  lemma {:induction false} WalkIsOrder(s: seq<Node>, k: nat)
    requires Cycle(s) && s != [] && k <= |s|
    ensures Walk(s[0], k) == if k == |s| then s[0] else s[k]
  {
    if k > 0 {
      WalkIsOrder(s, k - 1);
      assert Placed(s, k - 1);
      var n := s[k - 1];
      assert Walk(s[0], k) == n.nxt;
    }
  }

  /** Each step, either way, can be undone. */
  lemma StepsUndo(s: seq<Node>, i: nat)
    requires Cycle(s) && i < |s|
    ensures s[i].nxt in s && s[i].nxt.prv == s[i]
    ensures s[i].prv in s && s[i].prv.nxt == s[i]
  {
    assert Placed(s, i) && Placed(s, After(i, |s|)) && Placed(s, Before(i, |s|));
  }

  ghost function Payloads(s: seq<Node>): (r: seq<Pointer>)
    ensures |r| == |s| && forall i :: 0 <= i < |s| ==> r[i] == s[i].payload
  {
    seq(|s|, i requires 0 <= i < |s| => s[i].payload)
  }

  class Ring {
    var vcl: Node
    var numvec: nat
    ghost var nodes: seq<Node>

    ghost predicate Valid()
      reads this, nodes
    {
      numvec == |nodes| > 0 && Cycle(nodes) && vcl == nodes[0]
    }

    ghost function Contents(): seq<Pointer>
      reads this
    {
      Payloads(nodes)
    }

    constructor (node: Node)
      requires !node.freed && node.nxt == node && node.prv == node
      ensures Valid() && nodes == [node]
    {
      vcl := node;
      numvec := 1;
      nodes := [node];
    }

    /** Link a fresh node in before the head, that is behind the tail. */
    method Append(node: Node)
      requires Valid() && !node.freed && node !in nodes
      modifies this, nodes, node
      ensures Valid() && nodes == old(nodes) + [node]
    {
      ghost var was := nodes;
      assert Placed(nodes, 0);
      node.nxt := vcl;
      node.prv := vcl.prv;
      vcl.prv.nxt := node;
      vcl.prv := node;
      numvec := numvec + 1;
      nodes := nodes + [node];
      forall i | 0 <= i < |nodes|
        ensures Placed(nodes, i)
      {
        assert i < |was| ==> old(Placed(nodes, i));
        assert old(Placed(nodes, |nodes| - 1));
      }
    }

    /** Take node `k` out of the cycle. */
    method Unlink(cur: Node, ghost k: nat)
      requires numvec == |nodes| && Cycle(nodes) && k < |nodes| && cur == nodes[k]
      modifies this`numvec, this`nodes, nodes
      ensures nodes == old(nodes)[..k] + old(nodes)[k + 1..] && numvec == |nodes| && Cycle(nodes)
      ensures cur !in nodes && !cur.freed
    {
      numvec := numvec - 1;
      Bypass(cur, nodes, k);
      CycleWithout(nodes, k);
      nodes := nodes[..k] + nodes[k + 1..];
    }

    /** Unlink and release a node; hand back the one before it. */
    method Drop(cur: Node, ghost k: nat) returns (back: Node)
      requires numvec == |nodes| && Cycle(nodes) && k < |nodes| && cur == nodes[k]
      modifies this`numvec, this`nodes, nodes
      ensures nodes == old(nodes)[..k] + old(nodes)[k + 1..] && numvec == |nodes| && Cycle(nodes)
      ensures cur.freed && cur !in nodes
      ensures back == old(nodes)[Before(k, |old(nodes)|)]
    {
      assert Placed(nodes, k);
      back := cur.Prev();
      Unlink(cur, k);
      cur.Free();
    }

    /** One turn of the removal loop: look at the node, drop it if it carries the payload, step on. */
    method Visit(cur: Node, payload: Pointer, ghost k: nat) returns (next: Node, found: bool, ghost stale: bool)
      requires numvec == |nodes| && Cycle(nodes) && k < |nodes| && cur == nodes[k]
      modifies this`numvec, this`nodes, nodes
      ensures numvec == |nodes| && Cycle(nodes) && found == (cur.payload == payload)
      ensures nodes == if found then old(nodes)[..k] + old(nodes)[k + 1..] else old(nodes)
      ensures found ==> cur.freed && cur !in nodes
      ensures forall j :: 0 <= j < |nodes| ==> nodes[j] in old(nodes)
      ensures var j := if found then k else k + 1; j < |nodes| ==> next == nodes[j]
      ensures stale <==> nodes == []
    {
      ghost var was := nodes;
      var p := cur.Payload();
      var at := cur;
      found := p == payload;
      if found {
        at := Drop(cur, k);
        if |nodes| > 0 {
          BackOf(was, k);
          assert Placed(nodes, Before(k, |was|) - if k == 0 then 1 else 0);
        }
      } else {
        assert Placed(nodes, k);
      }
      stale := at.freed;
      next := at.nxt;
    }

    /** A turn with its book-keeping. */
    method Turn(cur: Node, payload: Pointer, i: nat, was: nat, ghost dropped: seq<Node>)
      returns (next: Node, done: nat, ghost gone: seq<Node>, ghost stale: bool)
      requires numvec == |nodes| && Cycle(nodes) && was == |dropped| <= i < |nodes| && cur == nodes[i - was]
      requires forall k :: 0 <= k < |dropped| ==> dropped[k].freed && dropped[k] !in nodes
      modifies this`numvec, this`nodes, nodes
      ensures numvec == |nodes| && Cycle(nodes) && done == |gone| <= i + 1
      ensures Scan(nodes, payload, i + 1 - done, i + 1, gone) == Scan(old(nodes), payload, i - was, i, dropped)
      ensures forall k :: 0 <= k < |gone| ==> gone[k].freed && gone[k] !in nodes
      ensures forall k :: 0 <= k < |nodes| ==> nodes[k] in old(nodes)
      ensures |nodes| <= |old(nodes)| && (i + 1 - done < |nodes| ==> next == nodes[i + 1 - done])
      ensures stale <==> |nodes| == 0
    {
      ghost var c := nodes;
      var found;
      next, found, stale := Visit(cur, payload, i - was);
      done := if found then was + 1 else was;
      gone := if found then dropped + [cur] else dropped;
      ScanTurn(c, payload, i - was, i, dropped, nodes, gone);
      StillOut(dropped, c, nodes);
    }

    /** The removal loop: `i` counts up while the bound `numvec` shrinks. Those dropped are given back. */
    method Sweep(payload: Pointer) returns (done: nat, ghost gone: seq<Node>, ghost stale: bool)
      requires Valid()
      modifies this`numvec, this`nodes, nodes
      ensures numvec == |nodes| && Cycle(nodes)
      ensures (nodes, gone) == Scan(old(nodes), payload, 0, 0, []) && done == |gone|
      ensures forall k :: 0 <= k < |gone| ==> gone[k].freed && gone[k] !in nodes
      ensures stale <==> |nodes| == 0
    {
      done, gone, stale := 0, [], false;
      ghost var was, all := nodes, Scan(nodes, payload, 0, 0, []);
      var cur, i := vcl, 0;
      while i < numvec
        invariant done == |gone| <= i && numvec == |nodes| && Cycle(nodes)
        invariant Scan(nodes, payload, i - done, i, gone) == all
        invariant forall k :: 0 <= k < |nodes| ==> nodes[k] in was
        invariant forall k :: 0 <= k < |gone| ==> gone[k].freed && gone[k] !in nodes
        invariant i - done < |nodes| ==> cur == nodes[i - done]
        invariant stale <==> |nodes| == 0
      {
        cur, done, gone, stale := Turn(cur, payload, i, done, gone);
        i := i + 1;
      }
    }
  }

  /** The removal loop on the list itself: position `k` is looked at as long as the count `i` is below the length;
      what is kept, and what was dropped. */
  function Scan(c: seq<Node>, p: Pointer, k: nat, i: nat, gone: seq<Node>): (seq<Node>, seq<Node>)
    requires k <= i
    decreases |c| - i
  {
    if i >= |c| then (c, gone)
    else if c[k].payload == p then Scan(c[..k] + c[k + 1..], p, k, i + 1, gone + [c[k]])
    else Scan(c, p, k + 1, i + 1, gone)
  }

  lemma StillOut(dropped: seq<Node>, c: seq<Node>, c': seq<Node>)
    requires forall k :: 0 <= k < |dropped| ==> dropped[k] !in c
    requires forall k :: 0 <= k < |c'| ==> c'[k] in c
    ensures forall k :: 0 <= k < |dropped| ==> dropped[k] !in c'
  {
  }

  lemma ScanTurn(c: seq<Node>, p: Pointer, k: nat, i: nat, gone: seq<Node>, c': seq<Node>, gone': seq<Node>)
    requires k <= i < |c|
    requires (c', gone') == if c[k].payload == p then (c[..k] + c[k + 1..], gone + [c[k]]) else (c, gone)
    ensures Scan(c, p, k, i, gone) == Scan(c', p, if c[k].payload == p then k else k + 1, i + 1, gone')
  {
  }

  lemma BackOf(was: seq<Node>, k: nat)
    requires k < |was| && |was| > 1
    ensures var s := was[..k] + was[k + 1..];
            s[Before(k, |was|) - if k == 0 then 1 else 0] == was[Before(k, |was|)]
  {
  }

  /** The two assignments that lead the neighbours of `cur` past it. */
  method Bypass(cur: Node, ghost s: seq<Node>, ghost k: nat)
    requires k < |s| && Cycle(s) && cur == s[k]
    modifies s
    ensures forall i :: 0 <= i < |s| ==> s[i].freed == old(s[i].freed)
    ensures forall i :: 0 <= i < |s| ==> Passing(s, k, i)
  {
    assert Placed(s, k);
    assert forall i :: 0 <= i < |s| ==> Placed(s, i);
    cur.prv.nxt := cur.nxt;
    cur.nxt.prv := cur.prv;
    forall i | 0 <= i < |s|
      ensures Passing(s, k, i)
    {
      assert old(Placed(s, i)) && old(Placed(s, k));
    }
  }

  /** Node `i` leads to its neighbours, but past node `k`. */
  ghost predicate Passing(s: seq<Node>, k: nat, i: nat)
    requires k < |s| && i < |s|
    reads s
  {
    && s[i].nxt == s[if i == Before(k, |s|) then After(k, |s|) else After(i, |s|)]
    && s[i].prv == s[if i == After(k, |s|) then Before(k, |s|) else Before(i, |s|)]
  }

  lemma CycleWithout(was: seq<Node>, k: nat)
    requires k < |was|
    requires forall i, j :: 0 <= i < j < |was| ==> was[i] != was[j]
    requires forall i :: 0 <= i < |was| ==> !was[i].freed
    requires forall i :: 0 <= i < |was| ==> Passing(was, k, i)
    ensures Cycle(was[..k] + was[k + 1..]) && was[k] !in was[..k] + was[k + 1..]
  {
    var s := was[..k] + was[k + 1..];
    forall i | 0 <= i < |s|
      ensures Placed(s, i)
    {
      assert Passing(was, k, if i < k then i else i + 1);
    }
  }

  // ----- growing

  /** vec_addveclst: the first payload makes the ring, any other goes behind the tail. */
  method AddVecList(vptr: Ring?, payload: Pointer) returns (r: Ring)
    requires vptr != null ==> vptr.Valid()
    modifies vptr, if vptr == null then [] else vptr.nodes
    ensures r.Valid() && (if vptr == null then fresh(r) && fresh(r.nodes) else r == vptr)
    ensures vptr != null ==> fresh(r.nodes[|r.nodes| - 1]) && r.nodes == old(vptr.nodes) + [r.nodes[|r.nodes| - 1]]
    ensures r.Contents() == (if vptr == null then [] else old(vptr.Contents())) + [payload]
  {
    var node := new Node(payload);
    if vptr == null {
      r := new Ring(node);
    } else {
      r := vptr;
      r.Append(node);
    }
  }

  /** Any sequence of adds from nothing: the ring holds the payloads in the order they were added. */
  method AddAll(payloads: seq<Pointer>) returns (r: Ring?)
    ensures r == null <==> payloads == []
    ensures r != null ==> fresh(r) && r.Valid() && r.Contents() == payloads && r.numvec == |payloads|
  {
    r := null;
    var i := 0;
    while i < |payloads|
      invariant 0 <= i <= |payloads|
      invariant r == null <==> i == 0
      invariant r != null ==> fresh(r) && fresh(r.nodes) && r.Valid() && r.Contents() == payloads[..i]
    {
      assert payloads[..i + 1] == payloads[..i] + [payloads[i]];
      r := AddVecList(r, payloads[i]);
      i := i + 1;
    }
    assert payloads[..i] == payloads;
  }

  // ----- release

  /** What is handed to the payload's own release function: from the tail to the head, the first `k` being still to
      do and `out` done. */
  function Released(s: seq<Pointer>, k: nat, out: seq<Pointer>): seq<Pointer>
    requires k <= |s|
  {
    if k == 0 then out else Released(s, k - 1, if s[k - 1] == 0 then out else out + [s[k - 1]])
  }

  /** Every node is given back exactly once and none is read afterwards: `Free` and the loads do not allow it. */
  method FreeVecList(vptr: Ring?, freepayload: bool) returns (r: Ring?, released: seq<Pointer>)
    requires vptr != null ==> vptr.Valid()
    modifies if vptr == null then [] else vptr.nodes
    ensures r == null
    ensures vptr != null ==> forall k :: 0 <= k < |vptr.nodes| ==> vptr.nodes[k].freed
    ensures released ==
            if vptr != null && freepayload then Released(old(vptr.Contents()), |old(vptr.nodes)|, []) else []
  {
    r, released := null, [];
    if vptr == null {
      return;
    }
    assert Placed(vptr.nodes, 0);
    var cur := vptr.vcl.Prev();
    released := ReleaseNodes(cur, vptr.numvec, freepayload, vptr.nodes);
  }

  /** The loop, from the tail on. */
  method ReleaseNodes(tail: Node, n: nat, freepayload: bool, ghost s: seq<Node>) returns (released: seq<Pointer>)
    requires n == |s| > 0 && Cycle(s) && tail == s[n - 1]
    modifies s
    ensures forall k :: 0 <= k < n ==> s[k].freed
    ensures released == if freepayload then Released(Payloads(s), n, []) else []
  {
    released := [];
    ghost var pay, out := Payloads(s), [];
    var cur, i := tail, 0;
    while i < n
      invariant 0 <= i <= n && Released(pay, n - i, out) == Released(pay, n, [])
      invariant i < n ==> cur == s[n - 1 - i]
      invariant LiveUpTo(s, n - i)
      invariant released == if freepayload then out else []
    {
      var payload;
      payload, cur := ReleaseNode(cur, s, n - 1 - i);
      out := if payload == 0 then out else out + [payload];
      if payload != 0 && freepayload {
        released := released + [payload];
      }
      i := i + 1;
    }
  }

  /** The first `m` nodes are live, the others given back; the links are as they were. */
  ghost predicate LiveUpTo(s: seq<Node>, m: int)
    reads s
  {
    && (forall i, j :: 0 <= i < j < |s| ==> s[i] != s[j])
    && (forall k :: 0 <= k < |s| ==> s[k].freed == (k >= m))
    && (forall k :: 0 <= k < |s| ==> Placed(s, k))
  }

  /** Read the payload and the way back, then give the node back. */
  method ReleaseNode(tofree: Node, ghost s: seq<Node>, ghost j: nat) returns (payload: Pointer, back: Node)
    requires j < |s| && tofree == s[j] && LiveUpTo(s, j + 1)
    modifies tofree`freed
    ensures LiveUpTo(s, j) && payload == tofree.payload && back == s[Before(j, |s|)]
  {
    assert Placed(s, j);
    payload := tofree.Payload();
    back := tofree.Prev();
    tofree.Free();
    forall k | 0 <= k < |s|
      ensures Placed(s, k)
    {
      assert old(Placed(s, k));
    }
  }

  /** The payloads that are not null, and a list from its end to its beginning. */
  function NonNull(s: seq<Pointer>): seq<Pointer> {
    if s == [] then [] else NonNull(s[..|s| - 1]) + if s[|s| - 1] == 0 then [] else [s[|s| - 1]]
  }

  function Backwards(s: seq<Pointer>): seq<Pointer> {
    if s == [] then [] else [s[|s| - 1]] + Backwards(s[..|s| - 1])
  }

  lemma OneBackwards(s: seq<Pointer>, p: Pointer)
    ensures Backwards(s + [p]) == [p] + Backwards(s)
  {
    assert (s + [p])[..|s|] == s;
  }

  lemma NonNullStep(s: seq<Pointer>, k: nat)
    requires 0 < k <= |s|
    ensures NonNull(s[..k]) == if s[k - 1] == 0 then NonNull(s[..k - 1]) else NonNull(s[..k - 1]) + [s[k - 1]]
  {
    assert s[..k][..k - 1] == s[..k - 1];
  }

  lemma OneMoreReleased(out: seq<Pointer>, p: Pointer, before: seq<Pointer>)
    ensures out + [p] + Backwards(before) == out + Backwards(before + [p])
  {
    OneBackwards(before, p);
  }

  /** The release goes through the payloads from the tail to the head, the null ones left out. */
  lemma {:induction false} ReleasedBackwards(s: seq<Pointer>, k: nat, out: seq<Pointer>)
    requires k <= |s|
    ensures Released(s, k, out) == out + Backwards(NonNull(s[..k]))
  {
    if k > 0 {
      NonNullStep(s, k);
      var p := s[k - 1];
      if p == 0 {
        ReleasedBackwards(s, k - 1, out);
      } else {
        ReleasedBackwards(s, k - 1, out + [p]);
        OneMoreReleased(out, p, NonNull(s[..k - 1]));
      }
    }
  }

  /** Each payload is released as often as it is listed, and the null one never. */
  lemma {:induction false} ReleasedOnce(s: seq<Pointer>, k: nat, out: seq<Pointer>, p: Pointer)
    requires k <= |s|
    ensures multiset(Released(s, k, out))[p] == multiset(out)[p] + if p == 0 then 0 else multiset(s[..k])[p]
  {
    if k > 0 {
      ReleasedOnce(s, k - 1, if s[k - 1] == 0 then out else out + [s[k - 1]], p);
      assert s[..k] == s[..k - 1] + [s[k - 1]];
    }
  }

  // ----- removal

  function Without(s: seq<Node>, p: Pointer): (r: seq<Node>)
    ensures |r| <= |s|
  {
    if s == [] then []
    else Without(s[..|s| - 1], p) + if s[|s| - 1].payload == p then [] else [s[|s| - 1]]
  }

  /** How many of the list's positions the removal loop looks at: its bound shrinks with every removal. */
  function Scanned(s: seq<Node>, p: Pointer, i: nat, removed: nat): (m: nat)
    requires i <= |s|
    ensures i <= m <= |s|
    decreases |s| - i
  {
    if i + removed < |s| then Scanned(s, p, i + 1, removed + if s[i].payload == p then 1 else 0) else i
  }

  /** The removal as the loop does it: complete over the positions looked at, nothing beyond. */
  function Swept(s: seq<Node>, p: Pointer): seq<Node> {
    var m := Scanned(s, p, 0, 0);
    Without(s[..m], p) + s[m..]
  }

  /** The nodes of `s` that carry the payload. */
  function Matching(s: seq<Node>, p: Pointer): seq<Node> {
    if s == [] then []
    else Matching(s[..|s| - 1], p) + if s[|s| - 1].payload == p then [s[|s| - 1]] else []
  }

  /** How many of the first `k` nodes carry the payload. */
  function Hits(s: seq<Node>, p: Pointer, k: nat): nat
    requires k <= |s|
  {
    if k == 0 then 0 else Hits(s, p, k - 1) + if s[k - 1].payload == p then 1 else 0
  }

  lemma PrefixStep(s: seq<Node>, p: Pointer, i: nat)
    requires i < |s|
    ensures Without(s[..i + 1], p) == if s[i].payload == p then Without(s[..i], p) else Without(s[..i], p) + [s[i]]
    ensures Matching(s[..i + 1], p) == if s[i].payload == p then Matching(s[..i], p) + [s[i]] else Matching(s[..i], p)
  {
    assert s[..i + 1][..i] == s[..i];
  }

  lemma {:induction false} HitsCount(s: seq<Node>, p: Pointer, i: nat)
    requires i <= |s|
    ensures Hits(s, p, i) == |Matching(s[..i], p)|
    ensures |Matching(s[..i], p)| + |Without(s[..i], p)| == i
  {
    if i == 0 {
      assert s[..0] == [];
    } else {
      HitsCount(s, p, i - 1);
      PrefixStep(s, p, i - 1);
    }
  }

  /** One turn, when the first `i` nodes have become `w`. */
  lemma ScanStep(w: seq<Node>, s: seq<Node>, p: Pointer, i: nat, g: seq<Node>)
    requires |w| <= i < |s| && i < |w| + |s| - i
    ensures Scan(w + s[i..], p, |w|, i, g) ==
            if s[i].payload == p then Scan(w + s[i + 1..], p, |w|, i + 1, g + [s[i]])
            else Scan(w + [s[i]] + s[i + 1..], p, |w| + 1, i + 1, g)
  {
    var c := w + s[i..];
    assert c[|w|] == s[i];
    assert c[..|w|] + c[|w| + 1..] == w + s[i + 1..];
    assert w + [s[i]] + s[i + 1..] == c;
  }

  /** The first `i` nodes are `w` without the matching ones, which are `g`. */
  ghost predicate Parted(s: seq<Node>, p: Pointer, i: nat, w: seq<Node>, g: seq<Node>) {
    i <= |s| && w == Without(s[..i], p) && g == Matching(s[..i], p) && |w| + |g| == i
  }

  lemma PartedStep(s: seq<Node>, p: Pointer, i: nat, w: seq<Node>, g: seq<Node>)
    requires Parted(s, p, i, w, g) && i < |s|
    ensures if s[i].payload == p then Parted(s, p, i + 1, w, g + [s[i]]) else Parted(s, p, i + 1, w + [s[i]], g)
  {
    PrefixStep(s, p, i);
  }

  /** From the state before position `i` the loop runs on to position `m`. */
  lemma {:induction false} ScanFrom(s: seq<Node>, p: Pointer, i: nat, w: seq<Node>, g: seq<Node>, parted: Parting)
    returns (m: nat, w': seq<Node>, g': seq<Node>)
    requires i <= |s| && |w| + |g| == i && parted(i, w, g)
    requires forall j: nat, v, f :: j < |s| && parted(j, v, f) ==>
               if s[j].payload == p then parted(j + 1, v, f + [s[j]]) else parted(j + 1, v + [s[j]], f)
    ensures m == Scanned(s, p, i, |g|) && m <= |s| && parted(m, w', g')
    ensures Scan(w + s[i..], p, |w|, i, g) == (w' + s[m..], g')
    decreases |s| - i
  {
    if i + |g| < |s| {
      ScanStep(w, s, p, i, g);
      if s[i].payload == p {
        m, w', g' := ScanFrom(s, p, i + 1, w, g + [s[i]], parted);
      } else {
        m, w', g' := ScanFrom(s, p, i + 1, w + [s[i]], g, parted);
      }
    } else {
      m, w', g' := i, w, g;
    }
  }

  type Parting = (nat, seq<Node>, seq<Node>) -> bool

  /** The loop removes every match among the positions it looks at, and leaves the rest. */
  lemma ScanIsSwept(s: seq<Node>, p: Pointer)
    ensures Scan(s, p, 0, 0, []) == (Swept(s, p), Matching(s[..Scanned(s, p, 0, 0)], p))
  {
    ghost var parted: Parting := (i: nat, w: seq<Node>, g: seq<Node>) => Parted(s, p, i, w, g);
    forall j: nat, v, f | j < |s| && parted(j, v, f)
      ensures if s[j].payload == p then parted(j + 1, v, f + [s[j]]) else parted(j + 1, v + [s[j]], f)
    {
      PartedStep(s, p, j, v, f);
    }
    assert s[..0] == [] && [] + s[0..] == s;
    var m, w, g := ScanFrom(s, p, 0, [], [], parted);
  }

  /** Position `k` is looked at exactly when it lies before the length less the matches in front of it. */
  lemma {:induction false} LookedAt(s: seq<Node>, p: Pointer, i: nat, k: nat)
    requires i <= k < |s|
    ensures k < Scanned(s, p, i, Hits(s, p, i)) <==> k + Hits(s, p, k) < |s|
    decreases k - i
  {
    HitsGrow(s, p, i, k);
    if i < k && i + Hits(s, p, i) < |s| {
      LookedAt(s, p, i + 1, k);
    }
  }

  lemma {:induction false} HitsGrow(s: seq<Node>, p: Pointer, i: nat, k: nat)
    requires i <= k <= |s|
    ensures Hits(s, p, i) <= Hits(s, p, k)
  {
    if i < k {
      HitsGrow(s, p, i, k - 1);
    }
  }

  /** The removal is complete exactly when every match at position `k` has fewer than `|s| - k` matches before it. */
  lemma RemovalComplete(s: seq<Node>, p: Pointer)
    ensures Swept(s, p) == Without(s, p) <==>
            forall k :: 0 <= k < |s| && s[k].payload == p ==> k + Hits(s, p, k) < |s|
  {
    var m := Scanned(s, p, 0, 0);
    forall k | 0 <= k < |s|
      ensures k < m <==> k + Hits(s, p, k) < |s|
    {
      LookedAt(s, p, 0, k);
    }
    Splits(s, p, m);
    if k :| m <= k < |s| && s[k].payload == p {
      Shorter(s, p, m, k);
    } else {
      NoneBeyond(s[m..], p);
    }
  }

  lemma {:induction false} Splits(s: seq<Node>, p: Pointer, m: nat)
    requires m <= |s|
    ensures Without(s, p) == Without(s[..m], p) + Without(s[m..], p)
  {
    if m < |s| {
      var front := s[..|s| - 1];
      Splits(front, p, m);
      assert front[..m] == s[..m] && front[m..] == s[m..][..|s| - m - 1];
    } else {
      assert s[..m] == s;
    }
  }

  lemma {:induction false} NoneBeyond(s: seq<Node>, p: Pointer)
    requires forall k :: 0 <= k < |s| ==> s[k].payload != p
    ensures Without(s, p) == s
  {
    if s != [] {
      NoneBeyond(s[..|s| - 1], p);
    }
  }

  lemma {:induction false} Shorter(s: seq<Node>, p: Pointer, m: nat, k: nat)
    requires m <= k < |s| && s[k].payload == p
    ensures |Without(s[m..], p)| < |s| - m
  {
    var t := s[m..];
    if k < |s| - 1 {
      var front := s[..|s| - 1];
      Shorter(front, p, m, k);
      assert front[m..] == t[..|t| - 1];
    }
  }

  /** A payload that occurs at most once is always removed. */
  lemma SingleMatch(s: seq<Node>, p: Pointer)
    requires forall i, j :: 0 <= i < j < |s| ==> s[i].payload != p || s[j].payload != p
    ensures Swept(s, p) == Without(s, p)
  {
    forall k | 0 <= k < |s| && s[k].payload == p
      ensures Hits(s, p, k) == 0
    {
      NoHits(s, p, k);
    }
    RemovalComplete(s, p);
  }

  lemma {:induction false} NoHits(s: seq<Node>, p: Pointer, k: nat)
    requires k <= |s| && forall i :: 0 <= i < k ==> s[i].payload != p
    ensures Hits(s, p, k) == 0
  {
    if k > 0 {
      NoHits(s, p, k - 1);
    }
  }

  /** Exactly the nodes with another payload are left when the removal is complete. */
  lemma {:induction false} WithoutKeeps(s: seq<Node>, p: Pointer)
    ensures forall x :: x in Without(s, p) <==> x in s && x.payload != p
  {
    if s != [] {
      var front, x := s[..|s| - 1], s[|s| - 1];
      WithoutKeeps(front, p);
      assert s == front + [x];
    }
  }

  /** The head pointer is never moved, so a removed head leaves it on a node that was given back; and when the only
      node goes, the step to the next one reads it after its release (`stale`). */
  method RemoveVecList(vptr: Ring?, payload: Pointer)
    returns (r: Ring?, done: nat, ghost gone: seq<Node>, ghost stale: bool)
    requires vptr != null ==> vptr.Valid()
    modifies vptr, if vptr == null then [] else vptr.nodes
    ensures vptr == null ==> r == null && done == 0 && gone == [] && !stale
    ensures vptr != null ==>
              var s := old(vptr.nodes);
              && vptr.nodes == Swept(s, payload) && gone == Matching(s[..Scanned(s, payload, 0, 0)], payload)
              && done == |gone| && (forall k :: 0 <= k < |gone| ==> gone[k].freed)
              && vptr.numvec == |vptr.nodes| && Cycle(vptr.nodes)
              && r == (if vptr.nodes == [] then null else vptr)
              && (r != null ==> (vptr.Valid() <==> s[0].payload != payload))
              && (stale <==> vptr.nodes == [])
  {
    r, done, gone, stale := vptr, 0, [], false;
    if vptr != null {
      ScanIsSwept(vptr.nodes, payload);
      HeadGoes(vptr.nodes, payload);
      done, gone, stale := vptr.Sweep(payload);
      if vptr.numvec == 0 {
        r := null;
      }
    }
  }

  /** The head is looked at first: it stays the head or is the first to be dropped. */
  lemma HeadGoes(s: seq<Node>, p: Pointer)
    requires s != []
    ensures if s[0].payload == p then var g := Matching(s[..Scanned(s, p, 0, 0)], p); g != [] && g[0] == s[0]
            else Swept(s, p) != [] && Swept(s, p)[0] == s[0]
  {
    var m := Scanned(s, p, 0, 0);
    assert s[..m][0] == s[0];
    FirstOf(s[..m], p);
  }

  lemma {:induction false} FirstOf(s: seq<Node>, p: Pointer)
    requires s != []
    ensures if s[0].payload == p then Matching(s, p) != [] && Matching(s, p)[0] == s[0]
            else Without(s, p) != [] && Without(s, p)[0] == s[0]
  {
    if |s| > 1 {
      FirstOf(s[..|s| - 1], p);
    }
  }
}
