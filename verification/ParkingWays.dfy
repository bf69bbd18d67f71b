/** Which ways belong to a parking area (backend/domain/models/parking_capacity.py). Road
    classes and inside lengths are given. */
module ParkingWays {

  /** The indexed document: node refs of ways, ways of nodes in iteration order, and for each
      way whether it is a vehicle service way, inside enough to be internal, and inside enough
      to be accepted without a connection. */
  datatype Roads = Roads(ways: map<string, seq<string>>, order: seq<string>, waysOf: map<string, seq<string>>,
                         parking: string, parkingNodes: seq<string>,
                         service: string -> bool, inside: string -> bool, spatial: string -> bool)

  function WaysAt(r: Roads, n: string): seq<string> {
    if n in r.waysOf then r.waysOf[n] else []
  }

  /** A service way through a node of the parking outline. */
  predicate IsGate(r: Roads, w: string) {
    w != r.parking && r.service(w) && exists n :: n in r.parkingNodes && w in WaysAt(r, n)
  }

  predicate Qualifies(r: Roads, w: string) {
    w != r.parking && r.service(w) && r.inside(w)
  }

  predicate Adjacent(r: Roads, c: string, w: string) {
    c in r.ways && exists n :: n in r.ways[c] && w in WaysAt(r, n)
  }

  /** Reachable from a gate in n steps through qualifying ways. */
  ghost predicate Within(r: Roads, w: string, n: nat)
    decreases n
  {
    if n == 0 then IsGate(r, w) else Qualifies(r, w) && exists c :: Within(r, c, n - 1) && Adjacent(r, c, w)
  }

  ghost predicate Reachable(r: Roads, w: string) {
    exists n: nat :: Within(r, w, n)
  }

  lemma GateReachable(r: Roads, w: string)
    requires IsGate(r, w)
    ensures Reachable(r, w)
  {
    assert Within(r, w, 0);
  }

  lemma NextReachable(r: Roads, c: string, w: string)
    requires Reachable(r, c) && Adjacent(r, c, w) && Qualifies(r, w)
    ensures Reachable(r, w)
  {
    var n: nat :| Within(r, c, n);
    assert Within(r, w, n + 1);
  }

  /** s holds every vehicle service way through a node of the outline, and every vehicle service
      way, inside enough, that shares a node with a way of its own; the outline itself is no such
      way. */
  ghost predicate Closed(r: Roads, s: set<string>) {
    && (forall n, w ::
          n in r.parkingNodes && n in r.waysOf && w in r.waysOf[n] && w != r.parking && r.service(w) ==> w in s)
    && (forall c, n, w :: c in s && c in r.ways && n in r.ways[c] && n in r.waysOf && w in r.waysOf[n] ==>
          w != r.parking && r.service(w) && r.inside(w) ==> w in s)
  }

  lemma ClosedIff(r: Roads, s: set<string>)
    ensures Closed(r, s) <==>
            (forall g :: IsGate(r, g) ==> g in s)
            && forall c, v :: c in s && Adjacent(r, c, v) && Qualifies(r, v) ==> v in s
  {
    if Closed(r, s) {
      forall c, v | c in s && Adjacent(r, c, v) && Qualifies(r, v)
        ensures v in s
      {
        var n :| n in r.ways[c] && v in WaysAt(r, n);
        assert n in r.waysOf && v in r.waysOf[n];
      }
      forall g | IsGate(r, g)
        ensures g in s
      {
        var n :| n in r.parkingNodes && g in WaysAt(r, n);
        assert n in r.waysOf && g in r.waysOf[n];
      }
    } else if forall g :: IsGate(r, g) ==> g in s {
      forall n, w | n in r.parkingNodes && n in r.waysOf && w in r.waysOf[n] && w != r.parking && r.service(w)
        ensures IsGate(r, w)
      {
        assert w in WaysAt(r, n);
      }
      var c, n, w :| c in s && c in r.ways && n in r.ways[c] && n in r.waysOf && w in r.waysOf[n]
                     && w != r.parking && r.service(w) && r.inside(w) && w !in s;
      assert w in WaysAt(r, n) && Adjacent(r, c, w);
    } else {
      var g :| IsGate(r, g) && g !in s;
    }
  }

  /** The reachable ways are the least closed set. */
  lemma ReachableIsLeast(r: Roads, s: set<string>)
    requires Closed(r, s)
    ensures forall w :: Reachable(r, w) ==> w in s
    ensures Closed(r, set w | w in Known(r) && Reachable(r, w))
  {
    ClosedIff(r, s);
    ClosedIff(r, set w | w in Known(r) && Reachable(r, w));
    hide Closed, Qualifies;
    forall w | Reachable(r, w)
      ensures w in s
    {
      var n: nat :| Within(r, w, n);
      WithinClosed(r, s, w, n);
    }
    forall g | IsGate(r, g)
      ensures Reachable(r, g) && g in Known(r)
    {
      GateReachable(r, g);
    }
    forall c, v | Reachable(r, c) && Adjacent(r, c, v) && Qualifies(r, v)
      ensures Reachable(r, v) && v in Known(r)
    {
      NextReachable(r, c, v);
    }
  }

  lemma {:induction false} WithinClosed(r: Roads, s: set<string>, w: string, n: nat)
    requires forall g :: IsGate(r, g) ==> g in s
    requires forall c, v :: c in s && Adjacent(r, c, v) && Qualifies(r, v) ==> v in s
    requires Within(r, w, n)
    ensures w in s
    decreases n
  {
    if n > 0 {
      var c :| Within(r, c, n - 1) && Adjacent(r, c, w);
      WithinClosed(r, s, c, n - 1);
    }
  }

  /** Every way that some node names. */
  function Known(r: Roads): set<string> {
    set n, w | n in r.waysOf && w in r.waysOf[n] :: w
  }

  function SetOf(s: seq<string>): set<string> {
    set x | x in s
  }

  method FindGates(r: Roads) returns (gates: seq<string>)
    ensures forall w :: w in gates <==> IsGate(r, w)
    ensures forall j, k :: 0 <= j < k < |gates| ==> gates[j] != gates[k]
  {
    gates := [];
    for i := 0 to |r.parkingNodes|
      invariant forall w :: w in gates <==>
                  w != r.parking && r.service(w) && exists n :: n in r.parkingNodes[..i] && w in WaysAt(r, n)
      invariant forall j, k :: 0 <= j < k < |gates| ==> gates[j] != gates[k]
    {
      var node := r.parkingNodes[i];
      assert r.parkingNodes[..i + 1] == r.parkingNodes[..i] + [node];
      gates := AddGates(r, WaysAt(r, node), gates);
    }
    assert r.parkingNodes[..|r.parkingNodes|] == r.parkingNodes;
  }

  method AddGates(r: Roads, parents: seq<string>, gates0: seq<string>) returns (gates: seq<string>)
    requires forall j, k :: 0 <= j < k < |gates0| ==> gates0[j] != gates0[k]
    ensures forall w :: w in gates <==> w in gates0 || (w in parents && w != r.parking && r.service(w))
    ensures forall j, k :: 0 <= j < k < |gates| ==> gates[j] != gates[k]
  {
    gates := gates0;
    for i := 0 to |parents|
      invariant forall w :: w in gates <==> w in gates0 || (w in parents[..i] && w != r.parking && r.service(w))
      invariant forall j, k :: 0 <= j < k < |gates| ==> gates[j] != gates[k]
    {
      var w := parents[i];
      assert parents[..i + 1] == parents[..i] + [w];
      if w != r.parking && r.service(w) && w !in gates {
        gates := gates + [w];
      }
    }
    assert parents[..|parents|] == parents;
  }

  /** An internal way and the way it was reached from. */
  datatype Detail = Detail(way: string, from: string)

  datatype Search = Search(accepted: set<string>, details: seq<Detail>, queue: seq<string>)

  function DetailWays(details: seq<Detail>): set<string> {
    set x | x in details :: x.way
  }

  /** Accepted ways are reachable; all but the gates have a detail, each its own, and each
      comes from an accepted neighbour. */
  ghost predicate Sound(r: Roads, gates: set<string>, s: Search) {
    && s.accepted <= Known(r)
    && (forall w :: w in s.accepted ==> Reachable(r, w))
    && s.accepted == gates + DetailWays(s.details) && gates !! DetailWays(s.details)
    && (forall j, k :: 0 <= j < k < |s.details| ==> s.details[j].way != s.details[k].way)
    && (forall x :: x in s.details ==> x.from in s.accepted && Adjacent(r, x.from, x.way) && Qualifies(r, x.way))
    && (forall w :: w in s.queue ==> w in s.accepted)
  }

  ghost predicate Explored(r: Roads, s: Search, c: string) {
    forall w :: Adjacent(r, c, w) && Qualifies(r, w) ==> w in s.accepted
  }

  lemma DetailAdded(details: seq<Detail>, x: Detail)
    ensures DetailWays(details + [x]) == DetailWays(details) + {x.way}
    ensures forall k :: 0 <= k < |details| ==> details[k].way in DetailWays(details)
  {
  }

  method Accept(r: Roads, gates: set<string>, c: string, w: string, s: Search) returns (t: Search)
    requires Sound(r, gates, s) && c in s.accepted && Adjacent(r, c, w) && Qualifies(r, w) && w !in s.accepted
    ensures Sound(r, gates, t) && t.accepted == s.accepted + {w} && t.queue == s.queue + [w]
  {
    NextReachable(r, c, w);
    assert w in Known(r);
    DetailAdded(s.details, Detail(w, c));
    hide Reachable, Adjacent, Qualifies, DetailWays, Known;
    t := Search(s.accepted + {w}, s.details + [Detail(w, c)], s.queue + [w]);
    assert w !in DetailWays(s.details);
  }

  /** All ways at one node of the current way. */
  method ExploreNode(r: Roads, gates: set<string>, c: string, n: string, s0: Search) returns (s: Search)
    requires Sound(r, gates, s0) && c in s0.accepted && c in r.ways && n in r.ways[c]
    ensures Sound(r, gates, s) && s0.accepted <= s.accepted
    ensures s == s0 || s0.accepted < s.accepted
    ensures s0.queue <= s.queue && forall w :: w in s.accepted && w !in s0.accepted ==> w in s.queue
    ensures forall w :: w in WaysAt(r, n) && Qualifies(r, w) ==> w in s.accepted
  {
    hide Sound;
    s := s0;
    var parents := WaysAt(r, n);
    for i := 0 to |parents|
      invariant Sound(r, gates, s) && s0.accepted <= s.accepted
      invariant s == s0 || s0.accepted < s.accepted
      invariant s0.queue <= s.queue && forall w :: w in s.accepted && w !in s0.accepted ==> w in s.queue
      invariant forall w :: w in parents[..i] && Qualifies(r, w) ==> w in s.accepted
    {
      var w := parents[i];
      assert parents[..i + 1] == parents[..i] + [w];
      if w in s.accepted || w == r.parking || !r.service(w) || !r.inside(w) {
        continue;
      }
      s := Accept(r, gates, c, w, s);
    }
    assert parents[..|parents|] == parents;
  }

  method ExploreWay(r: Roads, gates: set<string>, c: string, s0: Search) returns (s: Search)
    requires Sound(r, gates, s0) && c in s0.accepted
    ensures Sound(r, gates, s) && s0.accepted <= s.accepted && Explored(r, s, c)
    ensures s == s0 || s0.accepted < s.accepted
    ensures s0.queue <= s.queue && forall w :: w in s.accepted && w !in s0.accepted ==> w in s.queue
  {
    hide Sound, Qualifies;
    s := s0;
    if c !in r.ways {
      return;
    }
    var refs := r.ways[c];
    for i := 0 to |refs|
      invariant Sound(r, gates, s) && s0.accepted <= s.accepted
      invariant s == s0 || s0.accepted < s.accepted
      invariant s0.queue <= s.queue && forall w :: w in s.accepted && w !in s0.accepted ==> w in s.queue
      invariant forall n, w :: n in refs[..i] && w in WaysAt(r, n) && Qualifies(r, w) ==> w in s.accepted
    {
      assert refs[..i + 1] == refs[..i] + [refs[i]];
      s := ExploreNode(r, gates, c, refs[i], s);
    }
    assert refs[..|refs|] == refs;
  }

  /** Every way that is not a gate was accepted exactly when it is reachable. */
  lemma ExploredIsReachable(r: Roads, gates: set<string>, s: Search)
    requires Sound(r, gates, s) && (forall w :: w in gates <==> IsGate(r, w))
        && forall c :: c in s.accepted ==> Explored(r, s, c)
    ensures forall w :: w in s.accepted <==> Reachable(r, w)
  {
    hide IsGate, Qualifies, Adjacent;
    forall w | Reachable(r, w)
      ensures w in s.accepted
    {
      var n: nat :| Within(r, w, n);
      forall c, v | c in s.accepted && Adjacent(r, c, v) && Qualifies(r, v)
        ensures v in s.accepted
      {
        assert Explored(r, s, c);
      }
      WithinClosed(r, s.accepted, w, n);
    }
  }

  lemma StartIsSound(r: Roads, gates: seq<string>)
    requires forall w :: w in gates <==> IsGate(r, w)
    ensures Sound(r, SetOf(gates), Search(SetOf(gates), [], gates))
  {
    forall w | w in gates
      ensures Reachable(r, w) && w in Known(r)
    {
      GateReachable(r, w);
    }
  }

  /** The breadth-first search from the gates. */
  method FindInternal(r: Roads, gates: seq<string>) returns (s: Search)
    requires forall w :: w in gates <==> IsGate(r, w)
    ensures Sound(r, SetOf(gates), s) && forall w :: w in s.accepted <==> Reachable(r, w)
  {
    StartIsSound(r, gates);
    s := Search(SetOf(gates), [], gates);
    while s.queue != []
      invariant Sound(r, SetOf(gates), s)
      invariant forall c :: c in s.accepted && c !in s.queue ==> Explored(r, s, c)
      decreases Known(r) - s.accepted, |s.queue|
    {
      hide Reachable, Adjacent, Qualifies, IsGate;
      var c := s.queue[0];
      var popped := s.(queue := s.queue[1..]);
      assert s.queue == [c] + popped.queue;
      var t := ExploreWay(r, SetOf(gates), c, popped);
      forall x | x in t.accepted && x !in t.queue
        ensures Explored(r, t, x)
      {
        if x != c {
          assert x in s.accepted && x !in s.queue;
          assert Explored(r, s, x);
        }
      }
      s := t;
    }
    ExploredIsReachable(r, SetOf(gates), s);
  }

  /** Ways accepted for lying inside, without a connection. */
  predicate IsSpatial(r: Roads, accepted: set<string>, w: string) {
    w in r.ways && w != r.parking && w !in accepted && r.spatial(w)
  }

  /** The three classes: gates, internal ways, and spatial ways. They are pairwise disjoint;
      a way is internal exactly when it is reachable from the gates and no gate, and each
      internal way is detailed once, with the accepted neighbour it came from. */
  method FindRelatedParkingWays(r: Roads) returns (gates: seq<string>, internal: seq<Detail>, spatial: seq<string>)
    requires forall w :: w in r.ways <==> w in r.order
    ensures forall w :: w in gates <==> IsGate(r, w)
    ensures forall w :: w in gates <==> w != r.parking && r.service(w)
                                        && exists n :: n in r.parkingNodes && n in r.waysOf && w in r.waysOf[n]
    ensures forall w :: w in DetailWays(internal) <==> Reachable(r, w) && !IsGate(r, w)
    ensures forall j, k :: 0 <= j < k < |internal| ==> internal[j].way != internal[k].way
    ensures forall x :: x in internal ==> Reachable(r, x.from) && Adjacent(r, x.from, x.way) && Qualifies(r, x.way)
    ensures forall w :: w in spatial <==> w in r.ways && w != r.parking && !Reachable(r, w) && r.spatial(w)
    ensures SetOf(gates) !! DetailWays(internal) && SetOf(gates) !! SetOf(spatial)
        && DetailWays(internal) !! SetOf(spatial)
  {
    gates := FindGates(r);
    var s := FindInternal(r, gates);
    internal, spatial := s.details, [];
    for i := 0 to |r.order|
      invariant forall w :: w in spatial <==> w in r.order[..i] && IsSpatial(r, s.accepted, w)
    {
      hide Reachable, Adjacent, Qualifies, IsGate, Sound;
      var w := r.order[i];
      assert r.order[..i + 1] == r.order[..i] + [w];
      assert w in r.ways;
      if w == r.parking || w in s.accepted || !r.spatial(w) {
        continue;
      }
      spatial := spatial + [w];
    }
    assert r.order[..|r.order|] == r.order;
    GatesAre(r);
    hide Reachable, Adjacent, Qualifies, IsGate;
  }

  lemma GatesAre(r: Roads)
    ensures forall w :: IsGate(r, w) <==> w != r.parking && r.service(w)
                                          && exists n :: n in r.parkingNodes && n in r.waysOf && w in r.waysOf[n]
  {
    forall w
      ensures IsGate(r, w) <==> w != r.parking && r.service(w)
                                && exists n :: n in r.parkingNodes && n in r.waysOf && w in r.waysOf[n]
    {
      if n :| n in r.parkingNodes && w in WaysAt(r, n) {
        assert n in r.waysOf && w in r.waysOf[n];
      }
    }
  }
}
