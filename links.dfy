/**
 * `__load_key_type_links__`: the `{user,item}.links` social graph turned
 * into a row-normalised sparse adjacency. The code is the same in both data
 * modules; only the shape of the returned value differs.
 */
module Links {
  import opened OrderedDict
  import opened Bisect
  import opened SparseAdjacency

  /** One parsed line `neighbor1,neighbor2,reverse_connection` of a `.links` file. */
  datatype LinkLine = LinkLine(neighbor1: int, neighbor2: int, reverseConnection: int)

  /** The sorted insertions the lines perform, in file order. */
  function LinkInsertions(lines: seq<LinkLine>): seq<Insertion>
  {
    if lines == [] then []
    else
      var l := lines[|lines| - 1];
      LinkInsertions(lines[..|lines| - 1]) + [Insertion(l.neighbor1, l.neighbor2)]
      + (if l.reverseConnection != 0 then [Insertion(l.neighbor2, l.neighbor1)] else [])
  }

  /** The second node of every line whose first node is `k`. */
  function Outgoing(lines: seq<LinkLine>, k: int): multiset<int>
  {
    if lines == [] then multiset{}
    else
      var l := lines[|lines| - 1];
      Outgoing(lines[..|lines| - 1], k) + (if l.neighbor1 == k then multiset{l.neighbor2} else multiset{})
  }

  /** The first node of every line with a nonzero reverse flag whose second node is `k`. */
  function Incoming(lines: seq<LinkLine>, k: int): multiset<int>
  {
    if lines == [] then multiset{}
    else
      var l := lines[|lines| - 1];
      Incoming(lines[..|lines| - 1], k)
      + (if l.reverseConnection != 0 && l.neighbor2 == k then multiset{l.neighbor1} else multiset{})
  }

  /** The number of lines with a nonzero reverse flag. */
  function CountReverse(lines: seq<LinkLine>): nat
  {
    if lines == [] then 0
    else CountReverse(lines[..|lines| - 1]) + (if lines[|lines| - 1].reverseConnection != 0 then 1 else 0)
  }

  /** A line performs one insertion, and a second one when its reverse flag is set. */
  lemma {:induction false} LinkInsertionsCount(lines: seq<LinkLine>)
    ensures |LinkInsertions(lines)| == |lines| + CountReverse(lines)
  {
    if lines != [] {
      LinkInsertionsCount(lines[..|lines| - 1]);
    }
  }

  /**
   * The list of node `k` receives `b` for every line `(k, b, _)` and `c` for
   * every line `(c, k, r)` with `r != 0`, and nothing else.
   */
  lemma {:induction false} LinkNeighbours(lines: seq<LinkLine>, k: int)
    ensures Inserted(LinkInsertions(lines), k) == Outgoing(lines, k) + Incoming(lines, k)
  {
    if lines != [] {
      var n := |lines| - 1;
      var l := lines[n];
      var pre := LinkInsertions(lines[..n]);
      var fwd := pre + [Insertion(l.neighbor1, l.neighbor2)];
      LinkNeighbours(lines[..n], k);
      assert fwd[..|fwd| - 1] == pre;
      if l.reverseConnection != 0 {
        var both := fwd + [Insertion(l.neighbor2, l.neighbor1)];
        assert LinkInsertions(lines) == both;
        assert both[..|both| - 1] == fwd;
      } else {
        assert LinkInsertions(lines) == fwd;
      }
    }
  }

  /**
   * `adj` holds one entry per link and one more per reverse link; node
   * `k`'s entries are its neighbours, sorted, and its weights sum to 1
   * when it has any; the rows come in the order the nodes were first
   * used, each entry weighted `1 / len(row)`.
   */
  ghost predicate LinksLoaded(adj: Adjacency, lines: seq<LinkLine>) {
    && |adj.indices| == |adj.values| == |lines| + CountReverse(lines)
    && RowsInOrder(adj, FirstAccessOrder(LinkInsertions(lines)), PerDegree)
    && (forall k ::
          && Sorted(RowEntries(adj.indices, k))
          && multiset(RowEntries(adj.indices, k)) == Outgoing(lines, k) + Incoming(lines, k))
    && (forall k ::
          RowSum(adj.indices, adj.values, k)
          == if Outgoing(lines, k) + Incoming(lines, k) != multiset{} then 1.0 else 0.0)
  }

  /**
   * Reads the link lines into a `defaultdict(list)` of sorted neighbour
   * lists, then flattens it with weight `1.0 / len(neighbors)`.
   */
  method LoadKeyTypeLinks(lines: seq<LinkLine>) returns (adj: Adjacency, ghost links: Dict<seq<int>>)
    ensures SortedGroups(links, LinkInsertions(lines)) && FlattenedFrom(adj, links, PerDegree)
    ensures LinksLoaded(adj, lines)
  {
    var rows := GroupLinks(lines);
    adj := Flatten(rows, PerDegree);
    links := rows;
    LinkedRows(adj, rows, lines);
  }

  /** The `defaultdict(list)` of neighbour lists, each kept sorted by `insort_left`. */
  method GroupLinks(lines: seq<LinkLine>) returns (rows: Dict<seq<int>>)
    ensures SortedGroups(rows, LinkInsertions(lines))
  {
    rows := Empty();
    EmptyGroups();
    var i := 0;
    while i < |lines|
      invariant 0 <= i <= |lines|
      invariant SortedGroups(rows, LinkInsertions(lines[..i]))
    {
      rows := GroupLine(rows, lines, i);
      i := i + 1;
    }
    assert lines[..i] == lines;
  }

  /** One line of the links file: the forward insertion, then the reverse one when asked for. */
  method GroupLine(rows: Dict<seq<int>>, lines: seq<LinkLine>, i: nat) returns (rows': Dict<seq<int>>)
    requires i < |lines| && SortedGroups(rows, LinkInsertions(lines[..i]))
    ensures SortedGroups(rows', LinkInsertions(lines[..i + 1]))
  {
    var l := lines[i];
    ghost var done := LinkInsertions(lines[..i]);
    ghost var fwd := done + [Insertion(l.neighbor1, l.neighbor2)];
    assert lines[..i + 1][..i] == lines[..i];
    rows' := InsortInto(rows, l.neighbor1, l.neighbor2, done);
    if l.reverseConnection != 0 {
      rows' := InsortInto(rows', l.neighbor2, l.neighbor1, fwd);
      assert LinkInsertions(lines[..i + 1]) == fwd + [Insertion(l.neighbor2, l.neighbor1)];
    } else {
      assert LinkInsertions(lines[..i + 1]) == fwd;
    }
  }

  /** The sorted neighbour lists of `lines`, flattened, are what `LinksLoaded` says. */
  lemma LinkedRows(adj: Adjacency, rows: Dict<seq<int>>, lines: seq<LinkLine>)
    requires SortedGroups(rows, LinkInsertions(lines)) && FlattenedFrom(adj, rows, PerDegree)
    ensures LinksLoaded(adj, lines)
  {
    LinkInsertionsCount(lines);
    forall k
      ensures Sorted(RowEntries(adj.indices, k))
      ensures multiset(RowEntries(adj.indices, k)) == Outgoing(lines, k) + Incoming(lines, k)
      ensures RowSum(adj.indices, adj.values, k)
              == if Outgoing(lines, k) + Incoming(lines, k) != multiset{} then 1.0 else 0.0
    {
      LinkRow(adj, rows, lines, k);
    }
    GroupedAdjacency(adj, rows, LinkInsertions(lines), 0);
    FlattenedInOrder(adj, rows, PerDegree);
  }

  /** Every entry of a loaded link adjacency weighs `1.0 / len(neighbors)` of its own row. */
  lemma LinkWeights(adj: Adjacency, lines: seq<LinkLine>)
    requires LinksLoaded(adj, lines)
    ensures forall t :: 0 <= t < |adj.indices| ==>
              && |RowEntries(adj.indices, adj.indices[t].0)| > 0
              && adj.values[t] == 1.0 / |RowEntries(adj.indices, adj.indices[t].0)| as real
  {
    PerDegreeEntryWeights(adj, FirstAccessOrder(LinkInsertions(lines)));
  }

  lemma LinkRow(adj: Adjacency, rows: Dict<seq<int>>, lines: seq<LinkLine>, k: int)
    requires SortedGroups(rows, LinkInsertions(lines)) && FlattenedFrom(adj, rows, PerDegree)
    ensures Sorted(RowEntries(adj.indices, k))
    ensures multiset(RowEntries(adj.indices, k)) == Outgoing(lines, k) + Incoming(lines, k)
    ensures |adj.indices| == |adj.values|
    ensures RowSum(adj.indices, adj.values, k)
            == if Outgoing(lines, k) + Incoming(lines, k) != multiset{} then 1.0 else 0.0
  {
    GroupedAdjacency(adj, rows, LinkInsertions(lines), k);
    LinkNeighbours(lines, k);
  }

  /** Rows follow first use, not node order: `1,0,0` then `0,5,0` puts row 1 before row 0. */
  lemma RowsInFirstUseOrder(adj: Adjacency, lines: seq<LinkLine>)
    requires lines == [LinkLine(1, 0, 0), LinkLine(0, 5, 0)]
    requires LinksLoaded(adj, lines)
    ensures adj == Adjacency([(1, 0), (0, 5)], [1.0, 1.0])
  {
    FirstUseInsertions();
    LinkNeighbours(lines, 1);
    LinkNeighbours(lines, 0);
    SortedPermutationUnique(RowEntries(adj.indices, 1), [0]);
    SortedPermutationUnique(RowEntries(adj.indices, 0), [5]);
    TwoRowLayout(adj, 1, 0, [0], [5], PerDegree);
    FirstUseLayout();
  }

  lemma FirstUseLayout()
    ensures RowIndices(1, [0]) + RowIndices(0, [5]) == [(1, 0), (0, 5)]
    ensures RowValues(PerDegree, 1, 1) + RowValues(PerDegree, 1, 1) == [1.0, 1.0]
  {
    assert Weight(PerDegree, 1) == 1.0;
  }

  lemma FirstUseInsertions()
    ensures FirstAccessOrder(LinkInsertions([LinkLine(1, 0, 0), LinkLine(0, 5, 0)])) == [1, 0]
    ensures Inserted(LinkInsertions([LinkLine(1, 0, 0), LinkLine(0, 5, 0)]), 1) == multiset{0}
    ensures Inserted(LinkInsertions([LinkLine(1, 0, 0), LinkLine(0, 5, 0)]), 0) == multiset{5}
  {
    var lines := [LinkLine(1, 0, 0), LinkLine(0, 5, 0)];
    assert lines[..1] == [LinkLine(1, 0, 0)] && lines[..1][..0] == [];
    assert LinkInsertions(lines) == [Insertion(1, 0), Insertion(0, 5)];
    var ev := [Insertion(1, 0), Insertion(0, 5)];
    assert ev[..1] == [Insertion(1, 0)] && ev[..1][..0] == [];
  }

  /** Lines `0,1,0` and `0,2,0`: node 0 links to 1 and 2 with weight 0.5 each, and nodes 1 and 2 get no row. */
  lemma TwoOutgoingLinks(adj: Adjacency, lines: seq<LinkLine>)
    requires lines == [LinkLine(0, 1, 0), LinkLine(0, 2, 0)]
    requires LinksLoaded(adj, lines)
    ensures adj == Adjacency([(0, 1), (0, 2)], [0.5, 0.5])
  {
    TwoOutgoingInsertions();
    LinkNeighbours(lines, 0);
    SortedPermutationUnique(RowEntries(adj.indices, 0), [1, 2]);
    OneRowLayout(adj, 0, [1, 2], PerDegree);
    TwoOutgoingLayout();
  }

  lemma TwoOutgoingLayout()
    ensures RowIndices(0, [1, 2]) == [(0, 1), (0, 2)]
    ensures RowValues(PerDegree, 2, 2) == [0.5, 0.5]
  {
    assert Weight(PerDegree, 2) == 0.5;
  }

  lemma TwoOutgoingInsertions()
    ensures FirstAccessOrder(LinkInsertions([LinkLine(0, 1, 0), LinkLine(0, 2, 0)])) == [0]
    ensures Inserted(LinkInsertions([LinkLine(0, 1, 0), LinkLine(0, 2, 0)]), 0) == multiset{1, 2}
  {
    var lines := [LinkLine(0, 1, 0), LinkLine(0, 2, 0)];
    assert lines[..1] == [LinkLine(0, 1, 0)] && lines[..1][..0] == [];
    var ev := [Insertion(0, 1), Insertion(0, 2)];
    assert LinkInsertions(lines) == ev;
    assert ev[..1] == [Insertion(0, 1)] && ev[..1][..0] == [];
  }
}
