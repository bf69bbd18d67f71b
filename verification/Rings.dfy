/** Assembling relation members into closed rings (backend/domain/models/osm.py). */
module Rings {
  import opened Wrappers

  type Line = seq<int>

  /** One member line in a chain, forwards or backwards. */
  datatype Piece = Piece(index: nat, reversed: bool)

  function Reversed(s: Line): (r: Line)
    ensures |r| == |s| && (s != [] ==> r[0] == s[|s| - 1] && r[|s| - 1] == s[0])
  {
    if s == [] then [] else Reversed(s[1..]) + [s[0]]
  }

  predicate Usable(lines: seq<Line>, i: nat) {
    i < |lines| && |lines[i]| >= 2
  }

  function Oriented(lines: seq<Line>, p: Piece): Line
    requires Usable(lines, p.index)
  {
    if p.reversed then Reversed(lines[p.index]) else lines[p.index]
  }

  function First(s: Line): int
    requires s != []
  {
    s[0]
  }

  function Last(s: Line): int
    requires s != []
  {
    s[|s| - 1]
  }

  /** Usable pieces, each starting where the one before ends. */
  ghost predicate Connected(lines: seq<Line>, ps: seq<Piece>) {
    && ps != [] && (forall k :: 0 <= k < |ps| ==> Usable(lines, ps[k].index))
    && forall j, k ::
        0 <= j < |ps| && k == j + 1 && k < |ps| ==> Last(Oriented(lines, ps[j])) == First(Oriented(lines, ps[k]))
  }

  /** All pieces without their first nodes, one after the other. */
  ghost function Tails(lines: seq<Line>, ps: seq<Piece>): Line
    requires forall k :: 0 <= k < |ps| ==> Usable(lines, ps[k].index)
  {
    if ps == [] then [] else Oriented(lines, ps[0])[1..] + Tails(lines, ps[1..])
  }

  /** The chain of node ids that the pieces make, shared ends written once. */
  ghost function Joined(lines: seq<Line>, ps: seq<Piece>): (r: Line)
    requires Connected(lines, ps)
  {
    [First(Oriented(lines, ps[0]))] + Tails(lines, ps)
  }

  lemma {:induction false} TailsAppend(lines: seq<Line>, ps: seq<Piece>, p: Piece)
    requires (forall k :: 0 <= k < |ps| ==> Usable(lines, ps[k].index)) && Usable(lines, p.index)
    ensures Tails(lines, ps + [p]) == Tails(lines, ps) + Oriented(lines, p)[1..]
  {
    if ps == [] {
      assert [] + [p] == [p] && [p][1..] == [];
    } else {
      TailsAppend(lines, ps[1..], p);
      assert (ps + [p])[1..] == ps[1..] + [p];
    }
  }

  lemma JoinedAppend(lines: seq<Line>, ps: seq<Piece>, p: Piece)
    requires Connected(lines, ps) && Usable(lines, p.index)
        && Last(Oriented(lines, ps[|ps| - 1])) == First(Oriented(lines, p))
    ensures Connected(lines, ps + [p]) && Joined(lines, ps + [p]) == Joined(lines, ps) + Oriented(lines, p)[1..]
  {
    TailsAppend(lines, ps, p);
    ConnectedAppend(lines, ps, p);
    hide Tails, Oriented, Connected;
  }

  lemma ConnectedAppend(lines: seq<Line>, ps: seq<Piece>, p: Piece)
    requires Connected(lines, ps) && Usable(lines, p.index)
        && Last(Oriented(lines, ps[|ps| - 1])) == First(Oriented(lines, p))
    ensures Connected(lines, ps + [p])
  {
    hide Oriented;
  }

  lemma JoinedPrepend(lines: seq<Line>, ps: seq<Piece>, p: Piece)
    requires Connected(lines, ps) && Usable(lines, p.index) && Last(Oriented(lines, p)) == First(Oriented(lines, ps[0]))
    ensures Connected(lines, [p] + ps)
    ensures Joined(lines, [p] + ps) == Oriented(lines, p)[..|Oriented(lines, p)| - 1] + Joined(lines, ps)
  {
    ConnectedPrepend(lines, ps, p);
    var o := Oriented(lines, p);
    assert ([p] + ps)[1..] == ps;
    assert Tails(lines, [p] + ps) == o[1..] + Tails(lines, ps);
    hide Tails, Oriented, Connected;
    assert [First(o)] + o[1..] == o == o[..|o| - 1] + [Last(o)];
  }

  lemma ConnectedPrepend(lines: seq<Line>, ps: seq<Piece>, p: Piece)
    requires Connected(lines, ps) && Usable(lines, p.index) && Last(Oriented(lines, p)) == First(Oriented(lines, ps[0]))
    ensures Connected(lines, [p] + ps)
  {
    hide Oriented;
  }

  /** A chain starts where its first piece starts and ends where its last one ends. */
  lemma {:induction false} JoinedEnds(lines: seq<Line>, ps: seq<Piece>)
    requires Connected(lines, ps)
    ensures var r := Joined(lines, ps);
            |r| >= 2 && First(r) == First(Oriented(lines, ps[0])) && Last(r) == Last(Oriented(lines, ps[|ps| - 1]))
    decreases |ps|
  {
    var last := ps[|ps| - 1];
    if |ps| == 1 {
      assert ps[1..] == [] && Tails(lines, ps) == Oriented(lines, last)[1..];
    } else {
      var front := ps[..|ps| - 1];
      assert ps == front + [last];
      ConnectedPrefix(lines, ps);
      JoinedAppend(lines, front, last);
    }
  }

  lemma ConnectedPrefix(lines: seq<Line>, ps: seq<Piece>)
    requires Connected(lines, ps) && |ps| > 1
    ensures Connected(lines, ps[..|ps| - 1])
  {
  }

  // ---- edges ----

  datatype Edge = Edge(low: int, high: int)

  function EdgeOf(a: int, b: int): Edge {
    if a <= b then Edge(a, b) else Edge(b, a)
  }

  /** How often the line runs along the undirected pair e. */
  function Uses(s: Line, e: Edge): nat {
    if |s| < 2 then 0 else (if EdgeOf(s[0], s[1]) == e then 1 else 0) + Uses(s[1..], e)
  }

  lemma {:induction false} UsesConcat(a: Line, b: Line, e: Edge)
    requires a != [] && b != []
    ensures Uses(a + b, e) == Uses(a, e) + (if EdgeOf(Last(a), First(b)) == e then 1 else 0) + Uses(b, e)
    decreases |a|
  {
    if |a| == 1 {
      assert (a + b)[1..] == b;
    } else {
      UsesConcat(a[1..], b, e);
      assert (a + b)[1..] == a[1..] + b;
    }
  }

  lemma UsesJoin(a: Line, b: Line, e: Edge)
    requires a != [] && |b| >= 2 && Last(a) == First(b)
    ensures Uses(a + b[1..], e) == Uses(a, e) + Uses(b, e)
  {
    UsesConcat(a, b[1..], e);
  }

  lemma {:induction false} UsesReversed(s: Line, e: Edge)
    ensures Uses(Reversed(s), e) == Uses(s, e)
    decreases |s|
  {
    if |s| >= 2 {
      var back := Reversed(s[1..]);
      UsesReversed(s[1..], e);
      UsesConcat(back, [s[0]], e);
      assert Last(back) == s[1];
      assert Reversed(s) == back + [s[0]];
      hide Reversed;
    }
  }

  /** How often the named lines run along e. */
  function TotalUses(lines: seq<Line>, ids: seq<nat>, e: Edge): nat
    decreases |ids|
  {
    if ids == [] then 0
    else TotalUses(lines, ids[..|ids| - 1], e) + if ids[|ids| - 1] < |lines| then Uses(lines[ids[|ids| - 1]], e) else 0
  }

  function Indexes(ps: seq<Piece>): (r: seq<nat>)
    ensures |r| == |ps| && forall k :: 0 <= k < |ps| ==> r[k] == ps[k].index
  {
    seq(|ps|, k requires 0 <= k < |ps| => ps[k].index)
  }

  /** A chain runs along e exactly as often as its lines do. */
  lemma {:induction false} JoinedUses(lines: seq<Line>, ps: seq<Piece>, e: Edge)
    requires Connected(lines, ps)
    ensures Uses(Joined(lines, ps), e) == TotalUses(lines, Indexes(ps), e)
    decreases |ps|
  {
    var last := ps[|ps| - 1];
    UsesReversed(lines[last.index], e);
    assert Uses(Oriented(lines, last), e) == Uses(lines[last.index], e);
    assert Indexes(ps)[..|ps| - 1] == Indexes(ps[..|ps| - 1]);
    if |ps| == 1 {
      assert ps[1..] == [] && ps == [last];
      assert Joined(lines, ps) == Oriented(lines, last);
    } else {
      var front := ps[..|ps| - 1];
      assert ps == front + [last];
      ConnectedPrefix(lines, ps);
      JoinedUses(lines, front, e);
      JoinedAppend(lines, front, last);
      JoinedEnds(lines, front);
      hide Uses, Joined, Tails;
      UsesJoin(Joined(lines, front), Oriented(lines, last), e);
    }
  }

  lemma {:induction false} TotalConcat(lines: seq<Line>, a: seq<nat>, b: seq<nat>, e: Edge)
    ensures TotalUses(lines, a + b, e) == TotalUses(lines, a, e) + TotalUses(lines, b, e)
    decreases |b|
  {
    if b == [] {
      assert a + b == a;
    } else {
      TotalConcat(lines, a, b[..|b| - 1], e);
      assert (a + b)[..|a + b| - 1] == a + b[..|b| - 1];
    }
  }

  lemma TotalOne(lines: seq<Line>, i: nat, e: Edge)
    ensures TotalUses(lines, [i], e) == if i < |lines| then Uses(lines[i], e) else 0
  {
  }

  /** b without one occurrence of x. */
  lemma Without(b: seq<nat>, x: nat) returns (front: seq<nat>, back: seq<nat>)
    requires x in b
    ensures b == front + [x] + back
  {
    var k :| 0 <= k < |b| && b[k] == x;
    front, back := b[..k], b[k + 1..];
  }

  lemma SameWithout(rest: seq<nat>, front: seq<nat>, back: seq<nat>, x: nat)
    requires multiset(rest + [x]) == multiset(front + [x] + back)
    ensures multiset(rest) == multiset(front + back)
  {
    assert multiset(rest + [x]) == multiset(rest) + multiset{x};
    assert multiset(front + [x] + back) == multiset(front + back) + multiset{x};
    forall y
      ensures multiset(rest)[y] == multiset(front + back)[y]
    {
      assert (multiset(rest) + multiset{x})[y] == (multiset(front + back) + multiset{x})[y];
    }
  }

  /** The order of the lines does not matter. */
  lemma {:induction false} TotalOrder(lines: seq<Line>, a: seq<nat>, b: seq<nat>, e: Edge)
    requires multiset(a) == multiset(b)
    ensures TotalUses(lines, a, e) == TotalUses(lines, b, e)
    decreases |a|
  {
    if a == [] {
      assert |multiset(b)| == 0;
    } else {
      var rest, last := a[..|a| - 1], a[|a| - 1];
      assert a == rest + [last];
      assert last in multiset(a);
      assert last in b;
      var front, back := Without(b, last);
      SameWithout(rest, front, back, last);
      hide TotalUses;
      TotalOrder(lines, rest, front + back, e);
      TotalConcat(lines, rest, [last], e);
      TotalConcat(lines, front + [last], back, e);
      TotalConcat(lines, front, [last], e);
      TotalConcat(lines, front, back, e);
    }
  }

  // ---- a set of chains ----

  /** A chain with the pieces it was made of. */
  datatype Chain = Chain(nodes: Line, pieces: seq<Piece>)

  ghost predicate Made(lines: seq<Line>, c: Chain) {
    Connected(lines, c.pieces) && c.nodes == Joined(lines, c.pieces)
  }

  function AllIndexes(chains: seq<Chain>): seq<nat>
    decreases |chains|
  {
    if chains == [] then [] else AllIndexes(chains[..|chains| - 1]) + Indexes(chains[|chains| - 1].pieces)
  }

  predicate IsRing(c: Chain) {
    |c.nodes| >= 4 && First(c.nodes) == Last(c.nodes)
  }

  /** The chains that become rings. */
  function RingsOf(chains: seq<Chain>): seq<Line>
    decreases |chains|
  {
    if chains == [] then []
    else RingsOf(chains[..|chains| - 1]) + if IsRing(chains[|chains| - 1]) then [chains[|chains| - 1].nodes] else []
  }

  /** The chains that are dropped. */
  function Dropped(chains: seq<Chain>): seq<Line>
    decreases |chains|
  {
    if chains == [] then []
    else Dropped(chains[..|chains| - 1]) + if IsRing(chains[|chains| - 1]) then [] else [chains[|chains| - 1].nodes]
  }

  function LinesUse(lines: seq<Line>, e: Edge): nat
    decreases |lines|
  {
    if lines == [] then 0 else LinesUse(lines[..|lines| - 1], e) + Uses(lines[|lines| - 1], e)
  }

  lemma LinesUseAppend(lines: seq<Line>, s: Line, e: Edge)
    ensures LinesUse(lines + [s], e) == LinesUse(lines, e) + Uses(s, e)
  {
    assert (lines + [s])[..|lines|] == lines;
  }

  lemma {:induction false} ChainsUse(lines: seq<Line>, chains: seq<Chain>, e: Edge)
    requires forall k :: 0 <= k < |chains| ==> Made(lines, chains[k])
    ensures LinesUse(RingsOf(chains), e) + LinesUse(Dropped(chains), e) == TotalUses(lines, AllIndexes(chains), e)
    decreases |chains|
  {
    if chains != [] {
      var front, last := chains[..|chains| - 1], chains[|chains| - 1];
      assert Made(lines, last);
      ChainsUse(lines, front, e);
      JoinedUses(lines, last.pieces, e);
      ShareStep(chains, e);
      hide Joined, Uses, TotalUses, LinesUse, Made, Indexes, Connected, RingsOf, Dropped;
      TotalConcat(lines, AllIndexes(front), Indexes(last.pieces), e);
    }
  }

  /** The last chain counts once, as a ring or as a dropped chain. */
  lemma ShareStep(chains: seq<Chain>, e: Edge)
    requires chains != []
    ensures var front, last := chains[..|chains| - 1], chains[|chains| - 1];
            LinesUse(RingsOf(chains), e) + LinesUse(Dropped(chains), e)
            == LinesUse(RingsOf(front), e) + LinesUse(Dropped(front), e) + Uses(last.nodes, e)
  {
    var front, last := chains[..|chains| - 1], chains[|chains| - 1];
    LinesUseAppend(RingsOf(front), last.nodes, e);
    LinesUseAppend(Dropped(front), last.nodes, e);
    hide Uses, LinesUse, IsRing;
    assert RingsOf(front) + [] == RingsOf(front) && Dropped(front) + [] == Dropped(front);
  }

  /** The lines of at least two nodes, by number. */
  function Eligible(lines: seq<Line>, n: nat): (r: seq<nat>)
    requires n <= |lines|
    ensures forall i: nat :: i in r <==> i < n && Usable(lines, i)
  {
    if n == 0 then [] else Eligible(lines, n - 1) + if |lines[n - 1]| >= 2 then [n - 1] else []
  }

  lemma {:induction false} EligibleUses(lines: seq<Line>, n: nat, e: Edge)
    requires n <= |lines|
    ensures TotalUses(lines, Eligible(lines, n), e) == LinesUse(lines[..n], e)
  {
    if n > 0 {
      EligibleUses(lines, n - 1, e);
      assert lines[..n] == lines[..n - 1] + [lines[n - 1]];
      LinesUseAppend(lines[..n - 1], lines[n - 1], e);
      TotalOne(lines, n - 1, e);
      assert |lines[n - 1]| < 2 ==> Uses(lines[n - 1], e) == 0 && Eligible(lines, n) == Eligible(lines, n - 1);
      hide TotalUses, Uses, LinesUse;
      TotalConcat(lines, Eligible(lines, n - 1), [n - 1], e);
    }
  }

  // ---- the assembly ----

  predicate Touches(ring: Line, candidate: Line)
    requires ring != [] && candidate != []
  {
    Last(ring) == First(candidate) || Last(ring) == Last(candidate) || First(ring) == Last(candidate)
        || First(ring) == First(candidate)
  }

  /** The remaining lines, by number and by content. */
  ghost predicate Holds(lines: seq<Line>, remaining: seq<Line>, ids: seq<nat>) {
    |remaining| == |ids| && forall k :: 0 <= k < |ids| ==> Usable(lines, ids[k]) && remaining[k] == lines[ids[k]]
  }

  /** An open chain was closed off only because no later line touches either of its ends. */
  ghost predicate Exhausted(lines: seq<Line>, c: Chain, later: seq<nat>) {
    c.nodes != []
        && (First(c.nodes) == Last(c.nodes)
            || forall i :: i in later ==>
                 Usable(lines, i)
                 && {First(c.nodes), Last(c.nodes)} !! {First(lines[i]), Last(lines[i])})
  }

  method UsableLines(lines: seq<Line>) returns (remaining: seq<Line>, ghost ids: seq<nat>)
    ensures Holds(lines, remaining, ids) && ids == Eligible(lines, |lines|)
  {
    remaining, ids := [], [];
    for i := 0 to |lines|
      invariant Holds(lines, remaining, ids) && ids == Eligible(lines, i)
    {
      if |lines[i]| >= 2 {
        remaining, ids := remaining + [lines[i]], ids + [i];
      }
    }
  }

  method FindTouching(ring: Line, remaining: seq<Line>) returns (found: Option<nat>)
    requires ring != [] && forall k :: 0 <= k < |remaining| ==> remaining[k] != []
    ensures found.Some? ==> found.value < |remaining| && Touches(ring, remaining[found.value])
    ensures found.None? ==> forall k :: 0 <= k < |remaining| ==> !Touches(ring, remaining[k])
  {
    for index := 0 to |remaining|
      invariant forall k :: 0 <= k < index ==> !Touches(ring, remaining[k])
    {
      if Touches(ring, remaining[index]) {
        return Some(index);
      }
    }
    found := None;
  }

  lemma ReversedEnds(s: Line)
    requires |s| >= 2
    ensures First(Reversed(s)) == Last(s) && Last(Reversed(s)) == First(s)
    ensures Reversed(s)[1..] == Reversed(s[..|s| - 1]) && Reversed(s)[..|s| - 1] == Reversed(s[1..])
  {
    ReversedTail(s);
    assert Reversed(s) == Reversed(s[1..]) + [s[0]];
    hide Reversed;
  }

  lemma {:induction false} ReversedTail(s: Line)
    requires s != []
    ensures Reversed(s)[1..] == Reversed(s[..|s| - 1])
    decreases |s|
  {
    if |s| > 1 {
      ReversedTail(s[1..]);
      assert s[..|s| - 1][1..] == s[1..][..|s[1..]| - 1];
      assert Reversed(s) == Reversed(s[1..]) + [s[0]];
    }
  }

  /** Join a touching line to either end of the ring, turned round where necessary. */
  method Join(lines: seq<Line>, ring: Line, candidate: Line, ghost pieces: seq<Piece>, ghost index: nat)
      returns (joined: Line, ghost more: seq<Piece>)
    requires Connected(lines, pieces) && ring == Joined(lines, pieces) && Usable(lines, index)
        && candidate == lines[index]
    requires Touches(ring, candidate)
    ensures Connected(lines, more) && joined == Joined(lines, more)
        && multiset(Indexes(more)) == multiset(Indexes(pieces)) + multiset{index}
  {
    JoinedEnds(lines, pieces);
    ReversedEnds(candidate);
    IndexesGrow(pieces, Piece(index, false));
    IndexesGrow(pieces, Piece(index, true));
    hide Joined, Indexes, Reversed;
    if Last(ring) == First(candidate) {
      JoinedAppend(lines, pieces, Piece(index, false));
      joined, more := ring + candidate[1..], pieces + [Piece(index, false)];
    } else if Last(ring) == Last(candidate) {
      JoinedAppend(lines, pieces, Piece(index, true));
      joined, more := ring + Reversed(candidate[..|candidate| - 1]), pieces + [Piece(index, true)];
    } else if First(ring) == Last(candidate) {
      JoinedPrepend(lines, pieces, Piece(index, false));
      joined, more := candidate[..|candidate| - 1] + ring, [Piece(index, false)] + pieces;
    } else {
      JoinedPrepend(lines, pieces, Piece(index, true));
      joined, more := Reversed(candidate[1..]) + ring, [Piece(index, true)] + pieces;
    }
  }

  lemma IndexesGrow(ps: seq<Piece>, p: Piece)
    ensures multiset(Indexes(ps + [p])) == multiset(Indexes(ps)) + multiset{p.index}
    ensures multiset(Indexes([p] + ps)) == multiset(Indexes(ps)) + multiset{p.index}
  {
    assert Indexes(ps + [p]) == Indexes(ps) + [p.index];
    assert Indexes([p] + ps) == [p.index] + Indexes(ps);
  }

  /** Take a line out of the remaining ones. */
  lemma RemoveOne(ids: seq<nat>, k: nat)
    requires k < |ids|
    ensures multiset(ids[..k] + ids[k + 1..]) + multiset{ids[k]} == multiset(ids)
    ensures forall i :: i in ids[..k] + ids[k + 1..] ==> i in ids
  {
    assert ids == ids[..k] + [ids[k]] + ids[k + 1..];
  }

  lemma SinglePiece(lines: seq<Line>, i: nat)
    requires Usable(lines, i)
    ensures Made(lines, Chain(lines[i], [Piece(i, false)]))
  {
    var ps := [Piece(i, false)];
    assert ps[1..] == [] && Tails(lines, ps) == lines[i][1..];
  }

  /** Grow one chain until it closes or nothing touches it any more. */
  method GrowRing(lines: seq<Line>, start: Line, remaining: seq<Line>, ghost first: nat, ghost ids: seq<nat>)
      returns (ring: Line, rest: seq<Line>, ghost pieces: seq<Piece>, ghost restIds: seq<nat>)
    requires Holds(lines, remaining, ids) && Usable(lines, first) && start == lines[first]
    ensures Holds(lines, rest, restIds) && |rest| <= |remaining|
    ensures Made(lines, Chain(ring, pieces)) && Exhausted(lines, Chain(ring, pieces), restIds)
    ensures multiset(Indexes(pieces)) + multiset(restIds) == multiset{first} + multiset(ids)
    ensures forall i :: i in restIds ==> i in ids
  {
    ring, rest, pieces, restIds := start, remaining, [Piece(first, false)], ids;
    SinglePiece(lines, first);
    assert Indexes(pieces) == [first];
    hide Joined, Indexes, Touches;
    while First(ring) != Last(ring)
      invariant Holds(lines, rest, restIds) && |rest| <= |remaining| && ring != []
      invariant Made(lines, Chain(ring, pieces))
      invariant multiset(Indexes(pieces)) + multiset(restIds) == multiset{first} + multiset(ids)
      invariant forall i :: i in restIds ==> i in ids
      decreases |rest|
    {
      var found := FindTouching(ring, rest);
      if found.None? {
        assert forall i :: i in restIds ==> Usable(lines, i) && !Touches(ring, lines[i]);
        return;
      }
      var k := found.value;
      RemoveOne(restIds, k);
      ring, pieces := Join(lines, ring, rest[k], pieces, restIds[k]);
      JoinedEnds(lines, pieces);
      rest, restIds := rest[..k] + rest[k + 1..], restIds[..k] + restIds[k + 1..];
    }
  }

  lemma AllIndexesAppend(chains: seq<Chain>, c: Chain)
    ensures AllIndexes(chains + [c]) == AllIndexes(chains) + Indexes(c.pieces)
  {
    assert (chains + [c])[..|chains|] == chains;
  }

  /** A finished chain turns remaining lines into its own. */
  lemma ChainAdded(lines: seq<Line>, chains: seq<Chain>, c: Chain, ids: seq<nat>, rest: seq<nat>)
    requires multiset(Indexes(c.pieces)) + multiset(rest) == multiset(ids) && Exhausted(lines, c, rest)
    requires forall k :: 0 <= k < |chains| ==> Exhausted(lines, chains[k], AllIndexes(chains[k + 1..]) + ids)
    ensures multiset(AllIndexes(chains + [c])) + multiset(rest) == multiset(AllIndexes(chains)) + multiset(ids)
    ensures forall k ::
        0 <= k <= |chains| ==> Exhausted(lines, (chains + [c])[k], AllIndexes((chains + [c])[k + 1..]) + rest)
  {
    AllIndexesAppend(chains, c);
    hide Indexes, AllIndexes, Touches;
    var all := chains + [c];
    forall k | 0 <= k <= |chains|
      ensures Exhausted(lines, all[k], AllIndexes(all[k + 1..]) + rest)
    {
      if k < |chains| {
        assert all[k + 1..] == chains[k + 1..] + [c];
        AllIndexesAppend(chains[k + 1..], c);
        SameMembers(Indexes(c.pieces), rest, ids);
        assert all[k] == chains[k];
      } else {
        assert all[k + 1..] == [];
        NoIndexes();
        assert [] + rest == rest;
      }
    }
  }

  lemma NoIndexes()
    ensures AllIndexes([]) == []
  {
  }

  lemma SameMembers(a: seq<nat>, b: seq<nat>, c: seq<nat>)
    requires multiset(a) + multiset(b) == multiset(c)
    ensures forall i :: i in a || i in b ==> i in c
  {
    forall i | i in a || i in b
      ensures i in c
    {
      assert i in multiset(a) + multiset(b);
      assert i in multiset(c);
    }
  }

  lemma RingsOfAppend(chains: seq<Chain>, c: Chain)
    ensures RingsOf(chains + [c]) == RingsOf(chains) + if IsRing(c) then [c.nodes] else []
    ensures c.nodes != [] ==> (IsRing(c) <==> First(c.nodes) == Last(c.nodes) && |c.nodes| >= 4)
  {
    assert (chains + [c])[..|chains|] == chains;
  }

  lemma MadeNonEmpty(lines: seq<Line>, c: Chain)
    requires Made(lines, c)
    ensures c.nodes != []
  {
  }

  lemma HoldsFirst(lines: seq<Line>, remaining: seq<Line>, ids: seq<nat>)
    requires Holds(lines, remaining, ids) && remaining != []
    ensures Usable(lines, ids[0]) && remaining[0] == lines[ids[0]] && Holds(lines, remaining[1..], ids[1..])
    ensures multiset{ids[0]} + multiset(ids[1..]) == multiset(ids)
  {
    assert ids == [ids[0]] + ids[1..];
  }

  /** Every pair is used by the rings and the dropped chains as often as by the lines. */
  lemma Conserved(lines: seq<Line>, chains: seq<Chain>, e: Edge)
    requires (forall k :: 0 <= k < |chains| ==> Made(lines, chains[k]))
        && multiset(AllIndexes(chains)) == multiset(Eligible(lines, |lines|))
    ensures LinesUse(RingsOf(chains), e) + LinesUse(Dropped(chains), e) == LinesUse(lines, e)
  {
    ChainsUse(lines, chains, e);
    TotalOrder(lines, AllIndexes(chains), Eligible(lines, |lines|), e);
    EligibleUses(lines, |lines|, e);
    assert lines[..|lines|] == lines;
  }

  lemma {:induction false} RingsAreClosed(chains: seq<Chain>)
    ensures forall ring :: ring in RingsOf(chains) ==> |ring| >= 4 && First(ring) == Last(ring)
    decreases |chains|
  {
    if chains != [] {
      RingsAreClosed(chains[..|chains| - 1]);
    }
  }

  /** All chains: rings are the closed ones of at least four nodes. Every usable line is in
      exactly one chain, every chain runs exactly along its lines, and an open chain had no
      line left to continue it. */
  method AssembleNodeRings(lines: seq<Line>) returns (rings: seq<Line>, ghost chains: seq<Chain>)
    ensures forall ring :: ring in rings ==> |ring| >= 4 && First(ring) == Last(ring)
    ensures forall e :: LinesUse(rings, e) <= LinesUse(lines, e)
    ensures rings == RingsOf(chains)
    ensures forall k ::
        0 <= k < |chains| ==> Made(lines, chains[k]) && Exhausted(lines, chains[k], AllIndexes(chains[k + 1..]))
    ensures multiset(AllIndexes(chains)) == multiset(Eligible(lines, |lines|))
    ensures forall e :: LinesUse(rings, e) + LinesUse(Dropped(chains), e) == LinesUse(lines, e)
  {
    hide Made, Exhausted, IsRing, Indexes, LinesUse, Usable;
    rings, chains := [], [];
    NoIndexes();
    var remaining: seq<Line>;
    ghost var ids: seq<nat>;
    remaining, ids := UsableLines(lines);
    while remaining != []
      invariant Holds(lines, remaining, ids) && rings == RingsOf(chains)
      invariant forall k :: 0 <= k < |chains| ==> Made(lines, chains[k])
      invariant forall k :: 0 <= k < |chains| ==> Exhausted(lines, chains[k], AllIndexes(chains[k + 1..]) + ids)
      invariant multiset(AllIndexes(chains)) + multiset(ids) == multiset(Eligible(lines, |lines|))
      decreases |remaining|
    {
      var ring, rest: seq<Line>;
      ghost var pieces: seq<Piece>;
      ghost var restIds: seq<nat>;
      HoldsFirst(lines, remaining, ids);
      ring, rest, pieces, restIds := GrowRing(lines, remaining[0], remaining[1..], ids[0], ids[1..]);
      ghost var c := Chain(ring, pieces);
      ChainAdded(lines, chains, c, ids, restIds);
      RingsOfAppend(chains, c);
      MadeNonEmpty(lines, c);
      if First(ring) == Last(ring) && |ring| >= 4 {
        rings := rings + [ring];
      }
      chains, remaining, ids := chains + [c], rest, restIds;
    }
    forall k | 0 <= k < |chains|
      ensures Exhausted(lines, chains[k], AllIndexes(chains[k + 1..]))
    {
      assert AllIndexes(chains[k + 1..]) + [] == AllIndexes(chains[k + 1..]);
    }
    forall e
      ensures LinesUse(rings, e) + LinesUse(Dropped(chains), e) == LinesUse(lines, e)
    {
      Conserved(lines, chains, e);
    }
    RingsAreClosed(chains);
  }

  // ---- coordinates ----

  type Position = (real, real)

  /** A linear ring in the sense of section 3.1.6 of RFC 7946. */
  ghost predicate LinearRing(r: seq<Position>) {
    |r| >= 4 && r[0] == r[|r| - 1]
  }

  predicate AllKnown(refs: Line, nodes: map<int, Position>) {
    forall k :: 0 <= k < |refs| ==> refs[k] in nodes
  }

  /** The positions of the refs, closed when necessary. */
  function Closed(refs: Line, nodes: map<int, Position>): seq<Position>
    requires |refs| >= 1 && AllKnown(refs, nodes)
  {
    var points := seq(|refs|, k requires 0 <= k < |refs| => nodes[refs[k]]);
    if points[0] == points[|points| - 1] then points else points + [points[0]]
  }

  method ClosedRingFromRefs(refs: Line, nodes: map<int, Position>) returns (r: Option<seq<Position>>)
    ensures r.Some? <==> |refs| >= 3 && AllKnown(refs, nodes) && |Closed(refs, nodes)| >= 4
    ensures r.Some? ==> LinearRing(r.value) && r.value == Closed(refs, nodes)
  {
    if |refs| < 3 {
      return None;
    }
    var coordinates: seq<Position> := [];
    for i := 0 to |refs|
      invariant |coordinates| == i
      invariant forall k :: 0 <= k < i ==> refs[k] in nodes && coordinates[k] == nodes[refs[k]]
    {
      if refs[i] !in nodes {
        return None;
      }
      coordinates := coordinates + [nodes[refs[i]]];
    }
    if coordinates[0] != coordinates[|coordinates| - 1] {
      coordinates := coordinates + [coordinates[0]];
    }
    assert coordinates == Closed(refs, nodes);
    if |coordinates| < 4 {
      return None;
    }
    r := Some(coordinates);
  }

  /** Only three refs whose first and last positions coincide are too short. */
  lemma TooShortIff(refs: Line, nodes: map<int, Position>)
    requires |refs| >= 3 && AllKnown(refs, nodes)
    ensures |Closed(refs, nodes)| < 4 <==> |refs| == 3 && nodes[refs[0]] == nodes[refs[2]]
  {
  }

  /** An assembled ring whose nodes are known is a linear ring, node for node. */
  lemma {:induction false} RingsAreLinear(chains: seq<Chain>, ring: Line, nodes: map<int, Position>)
    requires ring in RingsOf(chains) && AllKnown(ring, nodes)
    ensures |ring| >= 4 && LinearRing(Closed(ring, nodes)) && |Closed(ring, nodes)| == |ring|
    decreases |chains|
  {
    if ring in RingsOf(chains[..|chains| - 1]) {
      RingsAreLinear(chains[..|chains| - 1], ring, nodes);
    }
  }
}
