/** Construction of the Sankey diagram's nodes and links from the resolved
    events of a scenario (event title -> category -> location), up to the
    point where the layout library takes over. */
module Sankey {
  import opened PathwayData

  /** A link between two nodes, given by their indices in the node list. */
  datatype Link = Link(source: int, target: int, value: int)

  predicate NoDuplicates<T(==)>(s: seq<T>) {
    forall i, j :: 0 <= i < j < |s| ==> s[i] != s[j]
  }

  /** `findIndex` by equality: the first index holding `x`, or -1. */
  function IndexOf<T(==)>(s: seq<T>, x: T): (k: int)
    ensures -1 <= k < |s|
    ensures k == -1 <==> x !in s
    ensures 0 <= k ==> s[k] == x && forall j :: 0 <= j < k ==> s[j] != x
  {
    if s == [] then -1
    else if s[0] == x then 0
    else
      var k := IndexOf(s[1..], x);
      assert forall j :: 1 <= j < |s| ==> s[j] == s[1..][j - 1];
      if k < 0 then -1 else k + 1
  }

  /** `[...new Set(s)]`: the distinct elements of `s` in first-encounter order. */
  function Dedup(s: seq<string>): (r: seq<string>)
    ensures NoDuplicates(r)
    ensures forall x :: x in r <==> x in s
    ensures |r| <= |s|
  {
    if s == [] then []
    else
      var r0 := Dedup(s[..|s| - 1]);
      var x := s[|s| - 1];
      assert forall y :: y in s <==> y in s[..|s| - 1] || y == x;
      if x in r0 then r0 else r0 + [x]
  }

  /** The labels collected for the nodes: title, category and location of
      each event, in list order. */
  function Labels(events: seq<Event>): (s: seq<string>)
    ensures |s| == 3 * |events|
  {
    if events == [] then []
    else
      var n := |events| - 1;
      var e := events[n];
      Labels(events[..n]) + [e.title, e.category, e.location]
  }

  /** Labels 3i, 3i+1 and 3i+2 are the title, category and location of event i. */
  lemma {:induction false} LabelsAt(events: seq<Event>, i: nat)
    requires i < |events|
    ensures Labels(events)[3 * i] == events[i].title
    ensures Labels(events)[3 * i + 1] == events[i].category
    ensures Labels(events)[3 * i + 2] == events[i].location
  {
    var n := |events| - 1;
    if i < n {
      LabelsAt(events[..n], i);
    }
  }

  /** The node list of the diagram: every collected label once. */
  function Nodes(events: seq<Event>): (r: seq<string>)
    ensures NoDuplicates(r)
    ensures forall x :: x in r <==> x in Labels(events)
    ensures |r| <= 3 * |events|
  {
    Dedup(Labels(events))
  }

  /** The two links each event contributes, looked up by name in `nodes`:
      title -> category, then category -> location. */
  function EventLinks(e: Event, nodes: seq<string>): (r: seq<Link>)
    ensures |r| == 2 && r[0].value == 1 && r[1].value == 1
    ensures r[0].target == r[1].source
    ensures e.title in nodes ==> 0 <= r[0].source < |nodes| && nodes[r[0].source] == e.title
    ensures e.category in nodes ==> 0 <= r[0].target < |nodes| && nodes[r[0].target] == e.category
    ensures e.location in nodes ==> 0 <= r[1].target < |nodes| && nodes[r[1].target] == e.location
  {
    [Link(IndexOf(nodes, e.title), IndexOf(nodes, e.category), 1),
     Link(IndexOf(nodes, e.category), IndexOf(nodes, e.location), 1)]
  }

  /** The link list: two links per event, in list order, never merged. */
  function Links(events: seq<Event>, nodes: seq<string>): (ls: seq<Link>)
    ensures |ls| == 2 * |events|
  {
    if events == [] then []
    else
      var n := |events| - 1;
      Links(events[..n], nodes) + EventLinks(events[n], nodes)
  }

  /** Links 2i and 2i+1 are the two links of event i. */
  lemma {:induction false} LinksAt(events: seq<Event>, nodes: seq<string>, i: nat)
    requires i < |events|
    ensures Links(events, nodes)[2 * i] == EventLinks(events[i], nodes)[0]
    ensures Links(events, nodes)[2 * i + 1] == EventLinks(events[i], nodes)[1]
  {
    var n := |events| - 1;
    if i < n {
      LinksAt(events[..n], nodes, i);
    }
  }

  /** Looking up an element of a prefix ignores what follows it. */
  lemma IndexOfPrefix(a: seq<string>, b: seq<string>, x: string)
    requires x in a
    ensures IndexOf(a + b, x) == IndexOf(a, x)
  {
    var k := IndexOf(a, x);
    assert (a + b)[k] == x;
    assert forall j :: 0 <= j < k ==> (a + b)[j] == a[j];
  }

  /** The distinct labels keep first-encounter order: a node comes before
      another exactly when its label was met first. */
  lemma {:induction false} DedupFirstEncounter(s: seq<string>)
    ensures forall j, k :: 0 <= j < k < |Dedup(s)| ==> IndexOf(s, Dedup(s)[j]) < IndexOf(s, Dedup(s)[k])
  {
    if s != [] {
      var s0 := s[..|s| - 1];
      var x := s[|s| - 1];
      assert s == s0 + [x];
      var r0 := Dedup(s0);
      DedupFirstEncounter(s0);
      forall y | y in s0
        ensures IndexOf(s, y) == IndexOf(s0, y)
      {
        IndexOfPrefix(s0, [x], y);
      }
      if x !in r0 {
        assert IndexOf(s, x) == |s0|;
      }
    }
  }

  /** No label is lost to deduplication exactly when no label repeats. */
  lemma {:induction false} DedupLengthExact(s: seq<string>)
    ensures |Dedup(s)| == |s| <==> NoDuplicates(s)
  {
    if s != [] {
      var s0 := s[..|s| - 1];
      var x := s[|s| - 1];
      DedupLengthExact(s0);
      if NoDuplicates(s) {
        assert NoDuplicates(s0) by {
          forall i, j | 0 <= i < j < |s0| ensures s0[i] != s0[j] {
            assert s0[i] == s[i] && s0[j] == s[j];
          }
        }
        assert x !in s0 by {
          forall i | 0 <= i < |s0| ensures s0[i] != x {
            assert s0[i] == s[i];
          }
        }
      }
      if |Dedup(s)| == |s| {
        assert x !in Dedup(s0);
        forall i, j | 0 <= i < j < |s| ensures s[i] != s[j] {
          if j < |s0| {
            assert s0[i] == s[i] && s0[j] == s[j];
          } else {
            assert s[i] == s0[i];
          }
        }
      }
    }
  }

  /** There are exactly three nodes per event exactly when the events'
      titles, categories and locations are pairwise distinct labels. */
  lemma NodeCountExact(events: seq<Event>)
    ensures |Nodes(events)| <= 3 * |events|
    ensures |Nodes(events)| == 3 * |events| <==> NoDuplicates(Labels(events))
  {
    DedupLengthExact(Labels(events));
  }

  /** Every link joins two existing nodes (no lookup yields -1) and carries
      value 1. */
  lemma LinksValid(events: seq<Event>)
    ensures forall k :: 0 <= k < |Links(events, Nodes(events))| ==>
      var l := Links(events, Nodes(events))[k];
      0 <= l.source < |Nodes(events)| && 0 <= l.target < |Nodes(events)| && l.value == 1
  {
    var nodes := Nodes(events);
    var links := Links(events, nodes);
    forall k | 0 <= k < |links|
      ensures 0 <= links[k].source < |nodes| && 0 <= links[k].target < |nodes| && links[k].value == 1
    {
      var i := k / 2;
      LinksAt(events, nodes, i);
      LabelsAt(events, i);
      var labels := Labels(events);
      assert labels[3 * i] in labels && labels[3 * i + 1] in labels && labels[3 * i + 2] in labels;
      assert k == 2 * i || k == 2 * i + 1;
    }
  }

  /** Event i's links join, by name, its title to its category (link 2i) and
      its category to its location (link 2i+1). */
  lemma LinkEndpoints(events: seq<Event>, i: nat)
    requires i < |events|
    ensures var nodes := Nodes(events);
      var links := Links(events, nodes);
      && 0 <= links[2 * i].source < |nodes| && nodes[links[2 * i].source] == events[i].title
      && 0 <= links[2 * i].target < |nodes| && nodes[links[2 * i].target] == events[i].category
      && 0 <= links[2 * i + 1].source < |nodes| && nodes[links[2 * i + 1].source] == events[i].category
      && 0 <= links[2 * i + 1].target < |nodes| && nodes[links[2 * i + 1].target] == events[i].location
  {
    var nodes := Nodes(events);
    LinksAt(events, nodes, i);
    LabelsAt(events, i);
    var labels := Labels(events);
    assert labels[3 * i] in labels && labels[3 * i + 1] in labels && labels[3 * i + 2] in labels;
  }

  /** Links are never merged: the links of a concatenation are the links of
      the parts, one after the other. */
  lemma {:induction false} LinksAppend(a: seq<Event>, b: seq<Event>, nodes: seq<string>)
    ensures Links(a + b, nodes) == Links(a, nodes) + Links(b, nodes)
  {
    if b == [] {
      assert a + b == a;
    } else {
      var n := |b| - 1;
      assert (a + b)[..|a + b| - 1] == a + b[..n];
      assert (a + b)[|a + b| - 1] == b[n];
      LinksAppend(a, b[..n], nodes);
    }
  }

  /** Two events with the same title and category each keep their own,
      identical title -> category link: parallel links stay separate. */
  lemma ParallelLinksKept(events: seq<Event>, i: nat, j: nat)
    requires i < j < |events|
    requires events[i].title == events[j].title && events[i].category == events[j].category
    ensures var links := Links(events, Nodes(events));
      links[2 * i] == links[2 * j] && links[2 * i].value == 1
  {
    LinksAt(events, Nodes(events), i);
    LinksAt(events, Nodes(events), j);
  }

  /** `findIndex` over the node names: a left-to-right scan. */
  method FindIndex(nodes: seq<string>, name: string) returns (k: int)
    ensures -1 <= k < |nodes|
    ensures k == -1 <==> name !in nodes
    ensures 0 <= k ==> nodes[k] == name && forall j :: 0 <= j < k ==> nodes[j] != name
    ensures k == IndexOf(nodes, name)
  {
    k := 0;
    while k < |nodes|
      invariant 0 <= k <= |nodes|
      invariant forall j :: 0 <= j < k ==> nodes[j] != name
    {
      if nodes[k] == name {
        return;
      }
      k := k + 1;
    }
    k := -1;
  }

  /** Spreading a `Set` filled from `names`: a membership set plus the
      elements in insertion order. */
  method UniqueInOrder(names: seq<string>) returns (unique: seq<string>)
    ensures unique == Dedup(names)
  {
    unique := [];
    var seen: set<string> := {};
    for i := 0 to |names|
      invariant unique == Dedup(names[..i])
      invariant forall x :: x in seen <==> x in unique
    {
      assert names[..i + 1][..i] == names[..i];
      if names[i] !in seen {
        seen := seen + {names[i]};
        unique := unique + [names[i]];
      }
    }
    assert names[..|names|] == names;
  }

  /** The graph handed to the layout: the deduplicated node names and the
      links between them. An empty event list builds nothing. */
  method BuildGraph(events: seq<Event>) returns (nodes: seq<string>, links: seq<Link>)
    ensures nodes == Nodes(events)
    ensures links == Links(events, nodes)
    ensures |events| == 0 ==> nodes == [] && links == []
    ensures NoDuplicates(nodes) && |links| == 2 * |events|
    ensures forall k :: 0 <= k < |links| ==>
      0 <= links[k].source < |nodes| && 0 <= links[k].target < |nodes| && links[k].value == 1
  {
    if |events| == 0 {
      return [], [];
    }

    var nodeNames: seq<string> := [];
    for i := 0 to |events|
      invariant nodeNames == Labels(events[..i])
    {
      var e := events[i];
      assert events[..i + 1][..i] == events[..i];
      ghost var before := nodeNames;
      nodeNames := nodeNames + [e.title];
      nodeNames := nodeNames + [e.category];
      nodeNames := nodeNames + [e.location];
      assert nodeNames == before + [e.title, e.category, e.location];
    }
    assert events[..|events|] == events;

    nodes := UniqueInOrder(nodeNames);

    links := [];
    for i := 0 to |events|
      invariant links == Links(events[..i], nodes)
    {
      var e := events[i];
      assert events[..i + 1][..i] == events[..i];
      ghost var before := links;
      var titleIx := FindIndex(nodes, e.title);
      var categoryIx := FindIndex(nodes, e.category);
      links := links + [Link(titleIx, categoryIx, 1)];
      var categoryIx2 := FindIndex(nodes, e.category);
      var locationIx := FindIndex(nodes, e.location);
      links := links + [Link(categoryIx2, locationIx, 1)];
      assert links == before + EventLinks(e, nodes);
    }
    assert events[..|events|] == events;
    LinksValid(events);
  }
}
