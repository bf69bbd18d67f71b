/** Filtering an OSM response to a polygon (backend/domain/models/overpass.py). Whether a way
    crosses the polygon, a node lies inside it, or an element is relevant, is given. */
module PolygonFilter {

  datatype Kind = Node | Way | Relation | Bounds | Other
  datatype Ref = Ref(kind: Kind, id: string)

  /** The parsed document: elements in order, way node refs, relation members, and the answers
      of the geometric tests. */
  datatype Document = Document(
    elements: seq<Ref>, nodes: set<string>, ways: map<string, seq<string>>, relations: map<string, seq<Ref>>,
    crosses: string -> bool, relevantWay: string -> bool, inside: string -> bool, relevantRelation: string -> bool)

  function Crossing(d: Document): set<string> {
    set w | w in d.ways && d.crosses(w)
  }

  function InsideNodes(d: Document): set<string> {
    set n | n in d.nodes && d.inside(n)
  }

  predicate TouchesPolygon(d: Document, m: Ref) {
    (m.kind == Node && m.id in InsideNodes(d)) || (m.kind == Way && m.id in Crossing(d))
  }

  /** Relevant relations with a member in the polygon. */
  function Seeds(d: Document): set<string> {
    set r | r in d.relations && d.relevantRelation(r) && exists m :: m in d.relations[r] && TouchesPolygon(d, m)
  }

  /** The relations within n steps of membership from the seeds. */
  ghost function Within(d: Document, n: nat): set<string> {
    if n == 0 then Seeds(d)
    else Within(d, n - 1) + set r,
        c | c in Within(d, n - 1) && c in d.relations && r in d.relations && Ref(Relation, r) in d.relations[c] :: r
  }

  ghost predicate Reachable(d: Document, r: string) {
    exists n: nat :: r in Within(d, n)
  }

  /** The member is a node inside the polygon or a way that crosses it. */
  ghost predicate InPolygon(d: Document, m: Ref) {
    (m.kind == Node && m.id in d.nodes && d.inside(m.id)) || (m.kind == Way && m.id in d.ways && d.crosses(m.id))
  }

  /** A relevant relation with a member in the polygon. */
  ghost predicate Starts(d: Document, r: string) {
    r in d.relations && d.relevantRelation(r) && exists m :: m in d.relations[r] && InPolygon(d, m)
  }

  /** s holds the relations to start from, and every relation that is a member of one of its own. */
  ghost predicate Closed(d: Document, s: set<string>) {
    && (forall r :: Starts(d, r) ==> r in s)
    && forall c, r ::
         c in s && c in d.relations && r in d.relations && Ref(Relation, r) in d.relations[c] ==> r in s
  }

  lemma SeedsStart(d: Document)
    ensures forall r :: r in Seeds(d) <==> Starts(d, r)
  {
    forall r
      ensures r in Seeds(d) <==> Starts(d, r)
    {
      if m :| r in d.relations && m in d.relations[r] && InPolygon(d, m) {
        assert TouchesPolygon(d, m);
      }
      if m :| r in d.relations && m in d.relations[r] && TouchesPolygon(d, m) {
        assert InPolygon(d, m);
      }
    }
  }

  /** Reachability is the least closed set, cycles or not. */
  lemma {:induction false} ReachableIsLeast(d: Document, s: set<string>, n: nat)
    requires Closed(d, s)
    ensures Within(d, n) <= s
  {
    SeedsStart(d);
    hide Seeds, Starts;
    if n > 0 {
      ReachableIsLeast(d, s, n - 1);
    }
  }

  /** The reachable relations are themselves closed. */
  lemma ReachableIsClosed(d: Document)
    ensures Closed(d, set r | r in d.relations && Reachable(d, r))
  {
    SeedsStart(d);
    SeedReachable(d);
    hide Seeds, Reachable;
    forall c, r | Reachable(d, c) && c in d.relations && r in d.relations && Ref(Relation, r) in d.relations[c]
      ensures Reachable(d, r)
    {
      MemberReachable(d, c, r);
    }
    assert forall r :: Starts(d, r) ==> r in d.relations && Reachable(d, r);
    hide Starts;
  }

  lemma MemberReachable(d: Document, c: string, r: string)
    requires Reachable(d, c) && c in d.relations && r in d.relations && Ref(Relation, r) in d.relations[c]
    ensures Reachable(d, r)
  {
    var n: nat :| c in Within(d, n);
    assert r in Within(d, n + 1);
  }

  lemma SeedReachable(d: Document)
    ensures forall r :: r in Seeds(d) ==> Reachable(d, r)
  {
    assert forall r :: r in Seeds(d) ==> r in Within(d, 0);
  }

  // ---- the selection ----

  datatype Selection = Selection(nodes: set<string>, ways: set<string>, relations: set<string>)

  /** The members of c that exist in the document are selected. */
  ghost predicate Followed(d: Document, s: Selection, c: string) {
    c in d.relations && forall m :: m in d.relations[c] ==> Taken(d, s, m)
  }

  ghost predicate Taken(d: Document, s: Selection, m: Ref) {
    && (m.kind == Way && m.id in d.ways ==> m.id in s.ways)
    && (m.kind == Node && m.id in d.nodes ==> m.id in s.nodes)
    && (m.kind == Relation && m.id in d.relations ==> m.id in s.relations)
  }

  /** Nothing is selected without a reason. */
  ghost predicate Grounded(d: Document, s: Selection) {
    && (forall r :: r in s.relations ==> r in d.relations && Reachable(d, r))
    && (forall w :: w in s.ways ==> w in d.ways && (RelevantCrossing(d, w) || MemberOfReachable(d, Ref(Way, w))))
    && (forall n :: n in s.nodes ==> MemberOfReachable(d, Ref(Node, n)))
  }

  ghost predicate RelevantCrossing(d: Document, w: string) {
    w in d.ways && d.crosses(w) && d.relevantWay(w)
  }

  ghost predicate MemberOfReachable(d: Document, m: Ref) {
    exists c :: c in d.relations && Reachable(d, c) && m in d.relations[c]
  }

  /** Taking a member of a reachable relation is a reason. */
  lemma StaysGrounded(d: Document, c: string, m: Ref, s: Selection)
    requires c in d.relations && Reachable(d, c) && m in d.relations[c] && Grounded(d, s)
    ensures m.kind == Way && m.id in d.ways ==> Grounded(d, s.(ways := s.ways + {m.id}))
    ensures m.kind == Node ==> Grounded(d, s.(nodes := s.nodes + {m.id}))
    ensures m.kind == Relation && m.id in d.relations ==> Grounded(d, s.(relations := s.relations + {m.id}))
  {
    if m.kind == Relation && m.id in d.relations {
      assert m == Ref(Relation, m.id);
      MemberReachable(d, c, m.id);
    }
    assert MemberOfReachable(d, m) && (m.kind == Way ==> m == Ref(Way, m.id))
        && (m.kind == Node ==> m == Ref(Node, m.id));
    hide Seeds, Within, Crossing, InsideNodes, Reachable, MemberOfReachable;
  }

  /** One relation's members, in order; newly selected relations are returned. */
  method Follow(d: Document, c: string, s0: Selection) returns (s: Selection, found: seq<string>)
    requires c in d.relations && Reachable(d, c) && Grounded(d, s0)
    ensures Grounded(d, s) && Followed(d, s, c)
    ensures s0.ways <= s.ways && s0.nodes <= s.nodes && s.relations == s0.relations + set r | r in found
    ensures found != [] ==> s0.relations < s.relations
  {
    s, found := s0, [];
    var members := d.relations[c];
    for i := 0 to |members|
      invariant Grounded(d, s) && forall m :: m in members[..i] ==> Taken(d, s, m)
      invariant s0.ways <= s.ways && s0.nodes <= s.nodes && s.relations == s0.relations + set r | r in found
      invariant found != [] ==> s0.relations < s.relations
    {
      hide Seeds, Within, Crossing, InsideNodes, Reachable, Grounded, MemberOfReachable;
      var m := members[i];
      assert m in d.relations[c];
      assert members[..i + 1] == members[..i] + [m];
      StaysGrounded(d, c, m, s);
      if m.kind == Way && m.id in d.ways {
        s := s.(ways := s.ways + {m.id});
      } else if m.kind == Node && m.id in d.nodes {
        s := s.(nodes := s.nodes + {m.id});
      } else if m.kind == Relation && m.id in d.relations && m.id !in s.relations {
        s := s.(relations := s.relations + {m.id});
        found := found + [m.id];
      }
    }
    assert members[..|members|] == members;
  }

  /** The worklist. It selects exactly the reachable relations. */
  method FollowAll(d: Document, s0: Selection, pending0: seq<string>) returns (s: Selection)
    requires Grounded(d, s0) && s0.relations == Seeds(d) == set r | r in pending0
    ensures Grounded(d, s) && s0.ways <= s.ways
    ensures forall r :: r in s.relations <==> Reachable(d, r)
    ensures forall r :: r in s.relations ==> Followed(d, s, r)
  {
    s := s0;
    var pending := pending0;
    while pending != []
      invariant Grounded(d, s) && s0.ways <= s.ways && Seeds(d) <= s.relations
      invariant forall r :: r in pending ==> r in s.relations
      invariant forall r :: r in s.relations && r !in pending ==> Followed(d, s, r)
      decreases d.relations.Keys - s.relations, |pending|
    {
      hide Seeds, Within, Crossing, InsideNodes, Reachable;
      var c := pending[|pending| - 1];
      var rest := pending[..|pending| - 1];
      assert pending == rest + [c];
      var s', found := Follow(d, c, s);
      FollowedStays(d, s, s');
      pending := rest + found;
      s := s';
    }
    AllReached(d, s);
  }

  lemma FollowedStays(d: Document, s: Selection, t: Selection)
    requires s.ways <= t.ways && s.nodes <= t.nodes && s.relations <= t.relations
    ensures forall c :: Followed(d, s, c) ==> Followed(d, t, c)
  {
  }

  lemma AllReached(d: Document, s: Selection)
    requires Grounded(d, s) && Seeds(d) <= s.relations && forall r :: r in s.relations ==> Followed(d, s, r)
    ensures forall r :: r in s.relations <==> Reachable(d, r)
  {
    assert Closed(d, s.relations) by {
      SeedsStart(d);
      hide Seeds, Reachable, Within, Starts;
    }
    forall r | Reachable(d, r)
      ensures r in s.relations
    {
      var n: nat :| r in Within(d, n);
      ReachableIsLeast(d, s.relations, n);
    }
  }

  // ---- the output ----

  predicate Keeps(s: Selection, e: Ref) {
    || e.kind == Bounds
    || (e.kind == Node && e.id in s.nodes) || (e.kind == Way && e.id in s.ways)
    || (e.kind == Relation && e.id in s.relations)
  }

  function Filtered(elements: seq<Ref>, s: Selection): (r: seq<Ref>)
    ensures forall e :: e in r <==> e in elements && Keeps(s, e)
    decreases |elements|
  {
    if elements == [] then []
    else
      var front, last := elements[..|elements| - 1], elements[|elements| - 1];
      assert elements == front + [last];
      if Keeps(s, last) then Filtered(front, s) + [last] else Filtered(front, s)
  }

  /** The document's index agrees with its elements. */
  ghost predicate Indexed(d: Document) {
    && (forall n :: n in d.nodes <==> Ref(Node, n) in d.elements)
    && (forall w :: w in d.ways <==> Ref(Way, w) in d.elements)
    && (forall r :: r in d.relations <==> Ref(Relation, r) in d.elements)
  }

  /** Nodes of the selected ways. */
  function WayNodes(d: Document, ways: set<string>): set<string> {
    set w, n | w in ways && w in d.ways && n in d.ways[w] :: n
  }

  ghost predicate OnKeptWay(d: Document, output: seq<Ref>, n: string) {
    exists w :: w in d.ways && Ref(Way, w) in output && n in d.ways[w]
  }

  /** The whole filter. The kept relations are exactly the reachable ones; a kept way is
      relevant and crossing, or a member of one; every element that a kept element refers to
      is kept when it exists; of the other elements exactly the bounds are kept. */
  method FilterToPolygon(d: Document, pending: seq<string>) returns (output: seq<Ref>, ghost s: Selection)
    requires Indexed(d) && Seeds(d) == set r | r in pending
    ensures output == Filtered(d.elements, s)
    ensures forall e ::
        e in output && e.kind != Node && e.kind != Way && e.kind != Relation <==> e in d.elements && e.kind == Bounds
    ensures forall r :: Ref(Relation, r) in output <==> Reachable(d, r)
    ensures forall w ::
        Ref(Way, w) in output <==> w in d.ways && (RelevantCrossing(d, w) || MemberOfReachable(d, Ref(Way, w)))
    ensures forall n ::
        Ref(Node, n) in output <==> n in d.nodes && (MemberOfReachable(d, Ref(Node, n)) || OnKeptWay(d, output, n))
    ensures forall r, m ::
        Ref(Relation, r) in output && m in d.relations[r] && m in d.elements && m.kind != Other ==> m in output
    ensures forall w, n ::
        Ref(Way, w) in output && n in d.ways[w] && Ref(Node, n) in d.elements ==> Ref(Node, n) in output
  {
    SeedReachable(d);
    var ways := set w | w in Crossing(d) && d.relevantWay(w);
    var t := FollowAll(d, Selection({}, ways, Seeds(d)), pending);
    var kept := t.(nodes := t.nodes + WayNodes(d, t.ways));
    s := kept;
    output := [];
    for i := 0 to |d.elements|
      invariant output == Filtered(d.elements[..i], kept)
    {
      assert d.elements[..i + 1][..i] == d.elements[..i];
      if Keeps(kept, d.elements[i]) {
        output := output + [d.elements[i]];
      }
    }
    assert d.elements[..|d.elements|] == d.elements;
    KeptIsExact(d, t);
  }

  lemma KeptIsExact(d: Document, t: Selection)
    requires Indexed(d) && Grounded(d, t) && forall r :: r in t.relations <==> Reachable(d, r)
    requires forall r :: r in t.relations ==> Followed(d, t, r)
    requires forall w :: RelevantCrossing(d, w) ==> w in t.ways
    ensures var output := Filtered(d.elements, t.(nodes := t.nodes + WayNodes(d, t.ways)));
            && (forall r :: Ref(Relation, r) in output <==> Reachable(d, r))
            && (forall w ::
                Ref(Way, w) in output <==> w in d.ways && (RelevantCrossing(d, w) || MemberOfReachable(d, Ref(Way, w))))
            && (forall n ::
                Ref(Node, n) in output
                <==> n in d.nodes && (MemberOfReachable(d, Ref(Node, n)) || OnKeptWay(d, output, n)))
            && (forall r, m ::
                Ref(Relation, r) in output && m in d.relations[r] && m in d.elements && m.kind != Other ==>
                    m in output)
            && (forall w, n ::
                Ref(Way, w) in output && n in d.ways[w] && Ref(Node, n) in d.elements ==> Ref(Node, n) in output)
  {
    hide Seeds, Within, Reachable, Crossing, InsideNodes;
    var s := t.(nodes := t.nodes + WayNodes(d, t.ways));
    forall w | w in d.ways && MemberOfReachable(d, Ref(Way, w))
      ensures w in t.ways
    {
      var c :| c in d.relations && Reachable(d, c) && Ref(Way, w) in d.relations[c];
      assert Followed(d, t, c) && Taken(d, t, Ref(Way, w));
    }
    forall n | n in d.nodes && MemberOfReachable(d, Ref(Node, n))
      ensures n in t.nodes
    {
      var c :| c in d.relations && Reachable(d, c) && Ref(Node, n) in d.relations[c];
      assert Followed(d, t, c) && Taken(d, t, Ref(Node, n));
    }
    forall r, m | r in t.relations && m in d.relations[r] && m in d.elements && m.kind != Other
      ensures Keeps(s, m)
    {
      assert Followed(d, t, r) && Taken(d, t, m);
    }
  }
}
