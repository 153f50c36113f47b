/** The parent-pointer table that the Postgres backend keeps beside its events. */
module PgTrees {
  import opened Wrappers
  import opened Paths
  import opened EventIds
  import opened Attestations
  import opened Nodes

  datatype Row = Row(parent: Option<Path>, kind: Option<NodeKind>)

  type Tree = map<Path, Row>

  const LIMIT: nat := 100

  /** `INSERT ... ON CONFLICT DO NOTHING` of one row. */
  function PutRow(t: Tree, p: Path, parent: Option<Path>): Tree {
    if p in t then t else t[p := Row(parent, None)]
  }

  /** The path and everything above it, nearest first. */
  function Chain(p: Path): (chain: seq<Path>)
    ensures chain != [] && chain[0] == p
    ensures forall i | 0 <= i < |chain| - 1 :: Parent(chain[i]) == Some(chain[i + 1])
    ensures Parent(chain[|chain| - 1]) == None
    decreases |p|
  {
    match Parent(p)
    case None => [p]
    case Some(parent) =>
      [p] + Chain(parent)
  }

  /** Rows for the first `n` paths of a chain, each pointing at its parent. */
  function PutRows(t: Tree, chain: seq<Path>, n: nat): Tree
    requires n <= |chain|
  {
    if n == 0 then t else PutRow(PutRows(t, chain, n - 1), chain[n - 1], Parent(chain[n - 1]))
  }

  function WithParents(t: Tree, p: Path): Tree {
    PutRows(t, Chain(p), |Chain(p)|)
  }

  function WithNode(t: Tree, node: Node): Tree {
    WithParentsHas(t, node.path);
    var t' := WithParents(t, node.path);
    t'[node.path := t'[node.path].(kind := Some(node.kind))]
  }

  /** Names of the children of `path` in the table. */
  function RowName(path: Path, id: Path): string {
    match First(StripPrefix(id, path))
    case None => ""
    case Some(name) => name
  }

  function RowChild(t: Tree, path: Path, id: Path): Child
    requires id in t
  {
    Child(RowName(path, id), match t[id].kind case Some(kind) => kind case None => InferNodeKind(id))
  }

  function RowsUnder(t: Tree, path: Path): set<Path> {
    set id | id in t && t[id].parent == Some(path)
  }

  lemma {:induction false} PutRowsHas(t: Tree, chain: seq<Path>, n: nat)
    requires n <= |chain|
    ensures forall p :: p in PutRows(t, chain, n) <==> p in t || p in chain[..n]
    ensures forall p | p in t :: PutRows(t, chain, n)[p] == t[p]
    ensures forall p | p in PutRows(t, chain, n) && p !in t :: PutRows(t, chain, n)[p] == Row(Parent(p), None)
  {
    if n > 0 {
      PutRowsHas(t, chain, n - 1);
      assert chain[..n] == chain[..n - 1] + [chain[n - 1]];
    }
  }

  lemma WithParentsHas(t: Tree, path: Path)
    ensures var t' := WithParents(t, path);
            path in t' && (forall p :: p in t' <==> p in t || p in Chain(path)) &&
            (forall p | p in t :: t'[p] == t[p]) && (forall p | p in t' && p !in t :: t'[p] == Row(Parent(p), None))
  {
    hide Chain;
    var chain := Chain(path);
    PutRowsHas(t, chain, |chain|);
    assert chain[..|chain|] == chain;
    assert chain[0] in chain;
  }

  lemma ParentIsShorter(p: Path)
    ensures Parent(p).Some? ==> |Parent(p).value| < |p|
  {
  }

  class PgTables {
    var tree: Tree
    var events: map<EventId, Option<Attestation>>

    constructor ()
      ensures tree == map[] && events == map[]
    {
      tree, events := map[], map[];
    }

    /** `std::iter::successors`: the node, then every parent. */
    static method Successors(node: Path) returns (children: seq<Path>)
      ensures children == Chain(node)
    {
      hide Parent;
      children := [node];
      var next := Parent(node);
      while next.Some?
        invariant children != [] && next == Parent(children[|children| - 1])
        invariant children + (if next.Some? then Chain(next.value) else []) == Chain(node)
        decreases if next.Some? then |next.value| + 1 else 0
      {
        ParentIsShorter(next.value);
        children := children + [next.value];
        next := Parent(next.value);
      }
    }

    /** Walks up from the node, pairs every path with the next one, and inserts the pairs. */
    method SetNodeParents(node: Path)
      modifies this`tree
      ensures tree == WithParents(old(tree), node)
    {
      hide Parent, Chain;
      var children := Successors(node);
      for i := 0 to |children|
        invariant tree == PutRows(old(tree), children, i)
      {
        var parent := if i + 1 < |children| then Some(children[i + 1]) else None;
        tree := PutRow(tree, children[i], parent);
      }
    }

    /** A second insertion of an id is rolled back whole; an attestation that comes along is written too. */
    method InsertEvent(id: EventId, attestation: Option<Attestation>) returns (ok: bool)
      requires StripEvent(id.text).Some?
      modifies this
      ensures ok <==> id !in old(events)
      ensures events == if ok then old(events)[id := attestation] else old(events)
      ensures tree == if ok then WithParents(old(tree), PathOf(id)) else old(tree)
    {
      var before := tree;
      SetNodeParents(PathOf(id));
      if id in events {
        tree := before;
        return false;
      }
      events := events[id := None];
      if attestation.Some? {
        UpdateAttestation(id, attestation.value);
      }
      ok := true;
    }

    /** The update does not look whether the event is attested to already: the last attestation stays. */
    method UpdateAttestation(id: EventId, a: Attestation)
      modifies this`events
      ensures events == if id in old(events) then old(events)[id := Some(a)] else old(events)
    {
      if id in events {
        events := events[id := Some(a)];
      }
    }

    method SetNode(node: Node)
      modifies this`tree
      ensures tree == WithNode(old(tree), node)
    {
      SetNodeParents(node.path);
      WithParentsHas(old(tree), node.path);
      tree := tree[node.path := tree[node.path].(kind := Some(node.kind))];
    }

    /** The children of a list node: all of them, or the first hundred that come. */
    method ListChildren(path: Path) returns (list: seq<Child>)
      ensures |list| == if |RowsUnder(tree, path)| <= 100 then |RowsUnder(tree, path)| else 100
      ensures forall c | c in list :: exists id | id in RowsUnder(tree, path) :: c == RowChild(tree, path, id)
      ensures |RowsUnder(tree, path)| <= 100 ==>
                forall id | id in RowsUnder(tree, path) :: RowChild(tree, path, id) in list
    {
      hide RowChild, RowName;
      list := [];
      var todo := RowsUnder(tree, path);
      while todo != {} && |list| < LIMIT
        invariant todo <= RowsUnder(tree, path) && |list| <= LIMIT
        invariant |todo| + |list| == |RowsUnder(tree, path)|
        invariant forall c | c in list :: exists id | id in RowsUnder(tree, path) :: c == RowChild(tree, path, id)
        invariant forall id | id in RowsUnder(tree, path) - todo :: RowChild(tree, path, id) in list
        decreases todo
      {
        var id :| id in todo;
        list := list + [RowChild(tree, path, id)];
        todo := todo - {id};
      }
    }

    /** The ends of a range node: the least and the greatest id, popped off the two-row result. */
    method RangeEnds(path: Path) returns (start: Option<string>, end: Option<string>)
      ensures RowsUnder(tree, path) == {} ==> start == None && end == None
      ensures RowsUnder(tree, path) != {} ==>
                exists least, greatest |
                  IsLeast(least, RowsUnder(tree, path)) && IsGreatest(greatest, RowsUnder(tree, path)) ::
                  start == Some(RowName(path, least)) && end == Some(RowName(path, greatest))
    {
      var rows: seq<Path> := [];
      var todo := RowsUnder(tree, path);
      if todo != {} {
        var first :| first in todo;
        var least, greatest := first, first;
        todo := todo - {first};
        while todo != {}
          invariant todo <= RowsUnder(tree, path)
          invariant IsLeast(least, RowsUnder(tree, path) - todo) && IsGreatest(greatest, RowsUnder(tree, path) - todo)
          decreases todo
        {
          var id :| id in todo;
          ghost var done := RowsUnder(tree, path) - todo;
          EndsStep(done, id, least, greatest);
          if Less(id, least) {
            least := id;
          }
          if Less(greatest, id) {
            greatest := id;
          }
          todo := todo - {id};
          assert RowsUnder(tree, path) - todo == done + {id};
        }
        assert RowsUnder(tree, path) - {} == RowsUnder(tree, path);
        rows := [least, greatest];
      }
      var names := seq(|rows|, i requires 0 <= i < |rows| => RowName(path, rows[i]));
      if names == [] {
        start, end := None, None;
      } else {
        end, names := Some(names[|names| - 1]), names[..|names| - 1];
        start := Some(names[|names| - 1]);
      }
    }
  }

  ghost predicate IsLeast(p: Path, paths: set<Path>) {
    p in paths && forall q | q in paths :: AtMost(p, q)
  }

  ghost predicate IsGreatest(p: Path, paths: set<Path>) {
    p in paths && forall q | q in paths :: AtMost(q, p)
  }

  lemma EndsStep(done: set<Path>, id: Path, least: Path, greatest: Path)
    requires IsLeast(least, done) && IsGreatest(greatest, done)
    ensures IsLeast(if Less(id, least) then id else least, done + {id})
    ensures IsGreatest(if Less(greatest, id) then id else greatest, done + {id})
  {
    hide Less;
    LessTrichotomy(id, least);
    LessTrichotomy(greatest, id);
    forall q | q in done
      ensures Less(id, least) ==> AtMost(id, q)
      ensures Less(greatest, id) ==> AtMost(q, id)
    {
      if Less(id, least) && least != q {
        LessTransitive(id, least, q);
      }
      if Less(greatest, id) && greatest != q {
        LessTransitive(q, greatest, id);
      }
    }
  }
}
