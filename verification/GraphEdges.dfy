/** Graph edges of an entity: merging without duplicates. */
module GraphEdges {
  import opened Options

  /** An edge; fields that are missing from its JSON object are None. */
  datatype Edge = Edge(target: Option<string>, relation: Option<string>, weight: Option<real>)

  datatype Key = Key(target: string, relation: string)

  function Or<T>(o: Option<T>, default: T): T {
    if o.Some? then o.value else default
  }

  function KeyOf(e: Edge): Key {
    Key(Or(e.target, ""), Or(e.relation, "related"))
  }

  function Weight(e: Edge): real {
    Or(e.weight, 1.0)
  }

  /** A dictionary that remembers in which order its keys were inserted. */
  datatype Edges = Edges(order: seq<Key>, entries: map<Key, Edge>)

  ghost predicate Distinct(keys: seq<Key>) {
    forall i, j :: 0 <= i < j < |keys| ==> keys[i] != keys[j]
  }

  ghost predicate Tidy(d: Edges) {
    && Distinct(d.order)
    && (forall k :: k in d.entries <==> k in d.order)
    && (forall k :: k in d.entries ==> KeyOf(d.entries[k]) == k)
  }

  const NoEdges := Edges([], map[])

  function Put(d: Edges, e: Edge): Edges {
    var k := KeyOf(e);
    if k !in d.entries then Edges(d.order + [k], d.entries[k := e])
    else if Weight(e) > Weight(d.entries[k]) then d.(entries := d.entries[k := e])
    else d
  }

  function PutAll(d: Edges, edges: seq<Edge>): Edges {
    if edges == [] then d else Put(PutAll(d, edges[..|edges| - 1]), edges[|edges| - 1])
  }

  function Values(d: Edges): (edges: seq<Edge>)
    requires forall k :: k in d.order ==> k in d.entries
    ensures |edges| == |d.order|
    ensures forall i :: 0 <= i < |edges| ==> edges[i] == d.entries[d.order[i]]
  {
    seq(|d.order|, i requires 0 <= i < |d.order| => d.entries[d.order[i]])
  }

  lemma {:induction false} PutAllIsTidy(d: Edges, edges: seq<Edge>)
    requires Tidy(d)
    ensures Tidy(PutAll(d, edges))
  {
    if edges != [] {
      PutAllIsTidy(d, edges[..|edges| - 1]);
    }
  }

  /** The merged edges. */
  function Merge(existing: seq<Edge>, added: seq<Edge>): seq<Edge> {
    PutAllIsTidy(NoEdges, existing + added);
    Values(PutAll(NoEdges, existing + added))
  }

  lemma PutAllMore(d: Edges, edges: seq<Edge>, e: Edge)
    ensures PutAll(d, edges + [e]) == Put(PutAll(d, edges), e)
  {
    assert (edges + [e])[..|edges|] == edges;
  }

  lemma {:induction false} PutAllSplits(d: Edges, a: seq<Edge>, b: seq<Edge>)
    ensures PutAll(d, a + b) == PutAll(PutAll(d, a), b)
  {
    if b == [] {
      assert a + b == a;
    } else {
      assert (a + b)[..|a + b| - 1] == a + b[..|b| - 1];
      PutAllSplits(d, a, b[..|b| - 1]);
    }
  }

  /** `merge_graph_edges`. */
  method MergeGraphEdges(existing: seq<Edge>, added: seq<Edge>) returns (merged: seq<Edge>)
    ensures merged == Merge(existing, added)
  {
    var d := NoEdges;
    for n := 0 to |existing|
      invariant d == PutAll(NoEdges, existing[..n]) && Tidy(d)
    {
      var e := existing[n];
      var key := KeyOf(e);
      assert existing[..n + 1] == existing[..n] + [e];
      PutAllMore(NoEdges, existing[..n], e);
      PutAllIsTidy(NoEdges, existing[..n + 1]);
      if key !in d.entries {
        d := Edges(d.order + [key], d.entries[key := e]);
      } else if Weight(e) > Weight(d.entries[key]) {
        d := d.(entries := d.entries[key := e]);
      }
    }
    assert existing[..|existing|] == existing;
    for n := 0 to |added|
      invariant d == PutAll(PutAll(NoEdges, existing), added[..n]) && Tidy(d)
    {
      var e := added[n];
      var key := KeyOf(e);
      assert added[..n + 1] == added[..n] + [e];
      PutAllMore(PutAll(NoEdges, existing), added[..n], e);
      PutAllIsTidy(NoEdges, existing);
      PutAllIsTidy(PutAll(NoEdges, existing), added[..n + 1]);
      if key !in d.entries {
        d := Edges(d.order + [key], d.entries[key := e]);
      } else if Weight(e) > Weight(d.entries[key]) {
        d := d.(entries := d.entries[key := e]);
      }
    }
    assert added[..|added|] == added;
    PutAllSplits(NoEdges, existing, added);
    merged := Values(d);
  }

  // ----- What merging means

  function Keys(edges: seq<Edge>): (keys: seq<Key>)
    ensures |keys| == |edges|
    ensures forall i :: 0 <= i < |keys| ==> keys[i] == KeyOf(edges[i])
  {
    seq(|edges|, i requires 0 <= i < |edges| => KeyOf(edges[i]))
  }

  /** Each key once, where it occurs first. */
  function FirstOccurrences<T(==)>(s: seq<T>): seq<T> {
    if s == [] then []
    else
      var init, last := FirstOccurrences(s[..|s| - 1]), s[|s| - 1];
      if last in s[..|s| - 1] then init else init + [last]
  }

  /** The edge is the first of the heaviest ones with its key. */
  ghost predicate FirstHeaviest(edges: seq<Edge>, e: Edge) {
    exists i :: 0 <= i < |edges| && edges[i] == e
      && forall j :: 0 <= j < |edges| && KeyOf(edges[j]) == KeyOf(e) ==>
           Weight(edges[j]) <= Weight(e) && (j < i ==> Weight(edges[j]) < Weight(e))
  }

  lemma HeaviestMore(edges: seq<Edge>, last: Edge, e: Edge)
    requires FirstHeaviest(edges, e)
    requires KeyOf(last) != KeyOf(e) || Weight(last) <= Weight(e)
    ensures FirstHeaviest(edges + [last], e)
  {
    var i :| 0 <= i < |edges| && edges[i] == e
      && forall j :: 0 <= j < |edges| && KeyOf(edges[j]) == KeyOf(e) ==>
           Weight(edges[j]) <= Weight(e) && (j < i ==> Weight(edges[j]) < Weight(e));
    assert (edges + [last])[i] == e;
  }

  lemma HeaviestLast(edges: seq<Edge>, last: Edge)
    requires forall j :: 0 <= j < |edges| && KeyOf(edges[j]) == KeyOf(last) ==> Weight(edges[j]) < Weight(last)
    ensures FirstHeaviest(edges + [last], last)
  {
    assert (edges + [last])[|edges|] == last;
  }

  lemma {:induction false} OrderIsFirstOccurrences(edges: seq<Edge>)
    ensures PutAll(NoEdges, edges).order == FirstOccurrences(Keys(edges))
    ensures forall k :: k in PutAll(NoEdges, edges).entries <==> k in Keys(edges)
  {
    if edges != [] {
      var init, last := edges[..|edges| - 1], edges[|edges| - 1];
      OrderIsFirstOccurrences(init);
      assert Keys(edges) == Keys(init) + [KeyOf(last)];
      assert Keys(edges)[..|edges| - 1] == Keys(init);
    }
  }

  lemma {:induction false} EntryIsHeaviest(edges: seq<Edge>, k: Key)
    requires k in PutAll(NoEdges, edges).entries
    ensures FirstHeaviest(edges, PutAll(NoEdges, edges).entries[k])
    ensures KeyOf(PutAll(NoEdges, edges).entries[k]) == k
  {
    var init, last := edges[..|edges| - 1], edges[|edges| - 1];
    assert edges == init + [last];
    var before := PutAll(NoEdges, init);
    OrderIsFirstOccurrences(init);
    if k in before.entries {
      EntryIsHeaviest(init, k);
      if KeyOf(last) != k || Weight(last) <= Weight(before.entries[k]) {
        HeaviestMore(init, last, before.entries[k]);
      } else {
        HeaviestLast(init, last);
      }
    } else {
      assert forall j :: 0 <= j < |init| ==> Keys(init)[j] == KeyOf(init[j]);
      HeaviestLast(init, last);
    }
  }

  /** Merging keeps exactly one edge for each target and relation, the first of the
      heaviest, in the order in which these pairs first occur. */
  lemma MergeKeepsFirstHeaviest(a: seq<Edge>, b: seq<Edge>)
    ensures Keys(Merge(a, b)) == FirstOccurrences(Keys(a + b))
    ensures forall e :: e in Merge(a, b) ==> FirstHeaviest(a + b, e)
    ensures Distinct(Keys(Merge(a, b)))
  {
    OrderIsFirstOccurrences(a + b);
    PutAllIsTidy(NoEdges, a + b);
    forall e | e in Merge(a, b) ensures FirstHeaviest(a + b, e) {
      EntryIsHeaviest(a + b, KeyOf(e));
    }
  }

  /** The dictionary of the first keys only. */
  function First(d: Edges, n: nat): Edges
    requires n <= |d.order|
  {
    Edges(d.order[..n], map k | k in d.order[..n] && k in d.entries :: d.entries[k])
  }

  lemma PutNext(d: Edges, n: nat)
    requires Tidy(d) && n < |d.order|
    ensures Put(First(d, n), d.entries[d.order[n]]) == First(d, n + 1)
  {
    assert d.order[..n + 1] == d.order[..n] + [d.order[n]];
    assert d.order[n] !in d.order[..n];
  }

  /** Putting the merged edges again rebuilds the dictionary. */
  lemma {:induction false} PutValues(d: Edges, vs: seq<Edge>)
    requires Tidy(d) && |vs| <= |d.order|
    requires forall i :: 0 <= i < |vs| ==> vs[i] == d.entries[d.order[i]]
    ensures PutAll(NoEdges, vs) == First(d, |vs|)
  {
    if vs == [] {
      assert First(d, 0) == NoEdges;
    } else {
      var init, last := vs[..|vs| - 1], vs[|vs| - 1];
      PutValues(d, init);
      PutNext(d, |init|);
      assert PutAll(NoEdges, vs) == Put(PutAll(NoEdges, init), last);
    }
  }

  lemma PutValuesAgain(d: Edges)
    requires Tidy(d)
    ensures PutAll(NoEdges, Values(d)) == d
  {
    PutValues(d, Values(d));
    assert d.order[..|d.order|] == d.order;
    assert First(d, |d.order|).entries == d.entries;
  }

  lemma MergedPutAgain(a: seq<Edge>, b: seq<Edge>)
    ensures PutAll(NoEdges, Merge(a, b)) == PutAll(NoEdges, a + b)
  {
    PutAllIsTidy(NoEdges, a + b);
    PutValuesAgain(PutAll(NoEdges, a + b));
  }

  /** Merging in two steps is merging at once. */
  lemma MergeInSteps(a: seq<Edge>, b: seq<Edge>, c: seq<Edge>)
    ensures Merge(Merge(a, b), c) == Merge(a, b + c)
  {
    assert PutAll(NoEdges, Merge(a, b) + c) == PutAll(NoEdges, a + b + c) by {
      MergedPutAgain(a, b);
      PutAllSplits(NoEdges, Merge(a, b), c);
      PutAllSplits(NoEdges, a + b, c);
    }
    assert a + (b + c) == a + b + c;
  }
}
