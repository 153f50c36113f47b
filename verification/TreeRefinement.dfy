/** The parent-pointer table gives every node the children that a scan of all events gives it. */
module TreeRefinement {
  import opened Wrappers
  import opened Strings
  import opened Paths
  import opened EventKinds
  import opened EventIds
  import opened IdParser
  import opened Nodes
  import opened Stores
  import opened PgTrees

  /** What both backends are told: an event is stored, or a node is given a kind. */
  datatype TreeOp = PutEvent(id: EventId) | PutNode(node: Node)

  predicate OpOk(op: TreeOp) {
    match op
    case PutEvent(id) => Kinded(id) && StartsWith(PathOf(id), "/")
    case PutNode(node) => StartsWith(node.path, "/")
  }

  ghost predicate AllOk(ops: seq<TreeOp>) {
    forall op | op in ops :: OpOk(op)
  }

  /** The ids and node kinds the in-memory store holds, and the table. */
  datatype Both = Both(ids: set<EventId>, kinds: map<Path, NodeKind>, tree: Tree)

  ghost function Step(s: Both, op: TreeOp): Both
    requires OpOk(op)
  {
    match op
    case PutEvent(id) => Both(s.ids + {id}, s.kinds, if id in s.ids then s.tree else WithParents(s.tree, PathOf(id)))
    case PutNode(node) => Both(s.ids, s.kinds[node.path := node.kind], WithNode(s.tree, node))
  }

  // ---------------------------------------------------------------- the table

  /** A path that an event or a node was stored at. */
  ghost predicate IsBase(s: Both, p: Path)
    requires AllKinded(s.ids)
  {
    p in s.kinds || exists id | id in s.ids :: PathOf(id) == p
  }

  ghost predicate AtOrAboveBase(s: Both, p: Path)
    requires AllKinded(s.ids)
  {
    exists base | IsBase(s, base) :: p in Chain(base)
  }

  ghost predicate Good(s: Both) {
    && AllKinded(s.ids)
    && (forall id | id in s.ids :: StartsWith(PathOf(id), "/"))
    && (forall p | p in s.kinds :: StartsWith(p, "/"))
    // the table holds exactly the stored paths and what is above them
    && (forall p :: p in s.tree <==> AtOrAboveBase(s, p))
    // and is closed under its parent column
    && (forall p | p in s.tree :: s.tree[p].parent == Parent(p) && (Parent(p).Some? ==> Parent(p).value in s.tree))
    && (forall p | p in s.tree :: s.tree[p].kind == if p in s.kinds then Some(s.kinds[p]) else None)
  }

  lemma {:induction false} ChainIsParents(p: Path, path: Path)
    ensures p in Chain(path) <==> IsParentOf(p, path)
    decreases |path|
  {
    if Parent(path).Some? {
      ChainIsParents(p, Parent(path).value);
      assert Chain(path) == [path] + Chain(Parent(path).value);
    }
  }

  lemma ChainClosed(p: Path, path: Path)
    requires p in Chain(path) && Parent(p).Some?
    ensures Parent(p).value in Chain(path)
  {
    var i :| 0 <= i < |Chain(path)| && Chain(path)[i] == p;
    assert Chain(path)[i + 1] == Parent(p).value;
  }

  /** One base more. */
  ghost predicate NewBase(s: Both, s': Both, base: Path)
    requires AllKinded(s.ids) && AllKinded(s'.ids)
  {
    forall p :: IsBase(s', p) <==> IsBase(s, p) || p == base
  }

  lemma NewBaseAbove(s: Both, s': Both, base: Path, p: Path)
    requires AllKinded(s.ids) && AllKinded(s'.ids) && NewBase(s, s', base)
    ensures AtOrAboveBase(s', p) <==> AtOrAboveBase(s, p) || p in Chain(base)
  {
    hide Chain, Kinded, IsBase;
    if AtOrAboveBase(s, p) {
      var b :| IsBase(s, b) && p in Chain(b);
      assert IsBase(s', b);
    }
    if p in Chain(base) {
      assert IsBase(s', base);
    }
    if AtOrAboveBase(s', p) {
      var b :| IsBase(s', b) && p in Chain(b);
      assert b == base || IsBase(s, b);
    }
  }

  /** Rows for a new path and everything above it. */
  lemma NewBaseKeeps(s: Both, s': Both, base: Path)
    requires Good(s) && AllKinded(s'.ids) && NewBase(s, s', base)
    requires forall id | id in s'.ids :: StartsWith(PathOf(id), "/")
    requires forall p | p in s'.kinds :: StartsWith(p, "/")
    requires forall p :: p in s'.tree <==> p in s.tree || p in Chain(base)
    requires forall p | p in s'.tree :: s'.tree[p].parent == Parent(p)
    requires forall p | p in s'.tree :: s'.tree[p].kind == if p in s'.kinds then Some(s'.kinds[p]) else None
    ensures Good(s')
  {
    hide Chain, Kinded, Parent, AtOrAboveBase, NewBase;
    forall p
      ensures p in s'.tree <==> AtOrAboveBase(s', p)
    {
      NewBaseAbove(s, s', base, p);
    }
    forall p | p in s'.tree && Parent(p).Some?
      ensures Parent(p).value in s'.tree
    {
      if p in Chain(base) {
        ChainClosed(p, base);
      }
    }
  }

  lemma KindsAreInTree(s: Both, p: Path)
    requires Good(s) && p in s.kinds
    ensures p in s.tree
  {
    hide Kinded;
    assert Chain(p)[0] in Chain(p);
    assert IsBase(s, p);
  }

  lemma PutEventKeeps(s: Both, id: EventId)
    requires Good(s) && OpOk(PutEvent(id))
    ensures Good(Step(s, PutEvent(id)))
  {
    hide Chain, ParseKind, Parent, WithParents, Good, AtOrAboveBase;
    var s' := Step(s, PutEvent(id));
    var base := PathOf(id);
    if id in s.ids {
      assert s' == s;
    } else {
      GoodParts(s);
      WithParentsHas(s.tree, base);
      forall p | p in s.kinds
        ensures p in s.tree
      {
        KindsAreInTree(s, p);
      }
      NewEventIsBase(s, s', id);
      NewBaseKeeps(s, s', base);
    }
  }

  lemma GoodParts(s: Both)
    requires Good(s)
    ensures AllKinded(s.ids)
    ensures forall id | id in s.ids :: StartsWith(PathOf(id), "/")
    ensures forall p | p in s.kinds :: StartsWith(p, "/")
    ensures forall p | p in s.tree :: s.tree[p].parent == Parent(p)
    ensures forall p | p in s.tree :: s.tree[p].kind == if p in s.kinds then Some(s.kinds[p]) else None
  {
    hide Chain, Kinded, Parent, AtOrAboveBase;
  }

  lemma NewEventIsBase(s: Both, s': Both, id: EventId)
    requires AllKinded(s.ids) && Kinded(id) && s'.ids == s.ids + {id} && s'.kinds == s.kinds
    ensures AllKinded(s'.ids) && NewBase(s, s', PathOf(id))
  {
    hide ParseKind;
    forall p
      ensures IsBase(s', p) <==> IsBase(s, p) || p == PathOf(id)
    {
      if IsBase(s, p) && p !in s.kinds {
        var i :| i in s.ids && PathOf(i) == p;
        assert i in s'.ids;
      }
      assert id in s'.ids;
    }
  }

  lemma PutNodeKeeps(s: Both, node: Node)
    requires Good(s) && OpOk(PutNode(node))
    ensures Good(Step(s, PutNode(node)))
  {
    hide Chain, Kinded, Parent, WithParents, Good, AtOrAboveBase;
    var s' := Step(s, PutNode(node));
    GoodParts(s);
    WithParentsHas(s.tree, node.path);
    forall p | p in s.kinds
      ensures p in s.tree
    {
      KindsAreInTree(s, p);
    }
    assert NewBase(s, s', node.path);
    NewBaseKeeps(s, s', node.path);
  }

  lemma StepKeeps(s: Both, op: TreeOp)
    requires Good(s) && OpOk(op)
    ensures Good(Step(s, op))
  {
    hide Good, OpOk, Step;
    match op
    case PutEvent(id) => PutEventKeeps(s, id);
    case PutNode(node) => PutNodeKeeps(s, node);
  }

  /** In every state that a run reaches the table is good. */
  ghost function Run(ops: seq<TreeOp>): (s: Both)
    requires AllOk(ops)
    ensures Good(s)
  {
    if ops == [] then EmptyIsGood(); Both({}, map[], map[])
    else
      StepKeeps(Run(ops[..|ops| - 1]), ops[|ops| - 1]);
      Step(Run(ops[..|ops| - 1]), ops[|ops| - 1])
  }

  lemma EmptyIsGood()
    ensures Good(Both({}, map[], map[]))
  {
  }

  /** Every node kind was given to a path at or above a stored event. */
  ghost predicate NodesAboveEvents(s: Both)
    requires AllKinded(s.ids)
  {
    forall p | p in s.kinds :: exists id | id in s.ids :: IsParentOf(p, PathOf(id))
  }

  /** The table holds exactly the paths at or above stored events. */
  lemma TreeIsAncestors(ops: seq<TreeOp>, p: Path)
    requires AllOk(ops) && NodesAboveEvents(Run(ops))
    requires StartsWith(p, "/")
    ensures p in Run(ops).tree <==> exists id | id in Run(ops).ids :: IsParentOf(p, PathOf(id))
  {
    hide Chain, ParseKind, IsParentOf, Run, OpOk;
    var s := Run(ops);
    if p in s.tree {
      var base :| IsBase(s, base) && p in Chain(base);
      ChainIsParents(p, base);
      if base in s.kinds {
        var id :| id in s.ids && IsParentOf(base, PathOf(id));
        IsParentOfPartialOrder(p, base, PathOf(id));
      }
    }
    forall id | id in s.ids && IsParentOf(p, PathOf(id))
      ensures p in s.tree
    {
      ChainIsParents(p, PathOf(id));
      assert IsBase(s, PathOf(id));
    }
  }

  // ---------------------------------------------------------------- segments

  lemma FirstOf(p: Path)
    requires StartsWith(p, "/")
    ensures First(p) == Some(match IndexFrom(p, '/', 1) case None => p[1..] case Some(i) => p[1..i])
  {
    assert p[0] == '/';
    assert IndexFrom(p, '/', 0) == Some(0);
    assert SplitFrom(p, '/', 0) == [p[0..0]] + SplitFrom(p, '/', 1);
    assert Segments(p) == SplitFrom(p, '/', 1);
  }

  /** What follows the path and a slash, up to the next slash. */
  predicate IsNextSegment(path: Path, below: Path, name: string) {
    var head := Base(path) + "/" + name;
    '/' !in name && StartsWith(below, head) && (|below| == |head| || below[|head|] == '/')
  }

  /** The path of a child, as the scan puts it together: a name that is empty names the path itself. */
  lemma ChildPath(path: Path, name: string)
    ensures Prefix(ChildOf(ROOT, name), path) == if name == "" then path else Base(path) + "/" + name
  {
    var tail := "/" + name;
    if name == "" {
      assert tail == ROOT;
    } else {
      assert |tail| != |ROOT|;
      assert Base(path) + "/" + name == Base(path) + tail;
    }
  }

  lemma {:induction false} ChainStartsWithSlash(p: Path, path: Path)
    requires StartsWith(path, "/") && p in Chain(path)
    ensures StartsWith(p, "/")
    decreases |path|
  {
    if p != path {
      assert Chain(path) == [path] + Chain(Parent(path).value);
      assert path != ROOT;
      ParentOf(path);
      ChainStartsWithSlash(p, Parent(path).value);
    }
  }

  predicate Below(path: Path, below: Path) {
    StartsWith(below, Base(path) + "/")
  }

  lemma BelowIff(path: Path, e: Path)
    requires StartsWith(path, "/") && StartsWith(e, "/")
    ensures Below(path, e) <==> AtOrBelow(path, e) && (path == ROOT || path != e)
  {
    assert "" + "/" == "/";
    if path == e {
      assert |e + "/"| > |e|;
    }
  }

  lemma StrippedBelow(path: Path, e: Path)
    requires StartsWith(path, "/") && Below(path, e)
    ensures StripPrefix(e, path) == e[|Base(path)|..]
    ensures e[|Base(path)|] == '/' && e[..|Base(path)|] == Base(path)
  {
    var b := |Base(path)|;
    assert e[b] == (Base(path) + "/")[b];
    assert e[..b] == (Base(path) + "/")[..b] == Base(path);
  }

  lemma FirstBelow(path: Path, e: Path)
    requires StartsWith(path, "/") && Below(path, e)
    ensures First(StripPrefix(e, path)).Some?
    ensures IsNextSegment(path, e, First(StripPrefix(e, path)).value)
  {
    hide StripPrefix, First;
    StrippedBelow(path, e);
    var b := |Base(path)|;
    var tail := e[b..];
    FirstOf(tail);
    var name := First(tail).value;
    assert '/' !in name by {
      assert forall k | 0 <= k < |name| :: name[k] == tail[k + 1];
    }
    PutBack(e, Base(path), name);
  }

  lemma PutBack(e: Path, base: Path, name: string)
    requires StartsWith(e, base) && |base| < |e| && e[|base|] == '/' && StartsWith(e[|base|..][1..], name)
    ensures StartsWith(e, base + "/" + name)
  {
    assert e[|base|..][1..] == e[|base| + 1..];
    assert e[..|base| + 1 + |name|] == base + "/" + name;
  }

  /** Where a slash-free piece of `e` stops. */
  lemma StopsAt(e: string, n: nat, a: string)
    requires n + |a| <= |e| && '/' !in a && e[n..n + |a|] == a && (n + |a| == |e| || e[n + |a|] == '/')
    ensures IndexFrom(e, '/', n) == if n + |a| == |e| then None else Some(n + |a|)
  {
    assert forall k | n <= k < n + |a| :: e[k] == a[k - n];
  }

  /** The next segment is unique. */
  lemma NextSegmentUnique(path: Path, e: Path, a: string, b: string)
    requires IsNextSegment(path, e, a) && IsNextSegment(path, e, b)
    ensures a == b
  {
    var n := |Base(path)| + 1;
    assert a == (Base(path) + "/" + a)[n..] == e[n..n + |a|];
    assert b == (Base(path) + "/" + b)[n..] == e[n..n + |b|];
    StopsAt(e, n, a);
    StopsAt(e, n, b);
  }

  /** The scan names the child by the next segment of the event path, which can be empty. */
  lemma ChildNameIff(path: Path, e: Path, name: string)
    requires StartsWith(path, "/") && StartsWith(e, "/")
    ensures ChildName(path, e) == Some(name) <==> IsNextSegment(path, e, name)
  {
    hide IsNextSegment, First;
    IsParentOfIff(path, e);
    BelowIff(path, e);
    if Below(path, e) {
      FirstBelow(path, e);
      if IsNextSegment(path, e, name) {
        NextSegmentUnique(path, e, name, First(StripPrefix(e, path)).value);
      }
    } else {
      if path == e {
        assert StripPrefix(e, path) == "";
        EmptyHasNoFirst();
      }
      NextSegmentIsBelow(path, e, name);
    }
  }

  lemma EmptyHasNoFirst()
    ensures First("") == None
  {
    assert Split("", '/') == [""];
  }

  lemma NextSegmentIsBelow(path: Path, e: Path, name: string)
    ensures IsNextSegment(path, e, name) ==> Below(path, e)
  {
    if IsNextSegment(path, e, name) {
      var head := Base(path) + "/" + name;
      var n := |Base(path)| + 1;
      assert e[..n] == head[..n] == Base(path) + "/";
    }
  }

  /** What is below a path below `path` has the same next segment. */
  lemma NextSegmentBelow(path: Path, p: Path, e: Path, name: string)
    requires IsNextSegment(path, p, name) && AtOrBelow(p, e) && p != ROOT
    ensures IsNextSegment(path, e, name)
  {
    var head := Base(path) + "/" + name;
    if p != e {
      assert e[..|p|] == (p + "/")[..|p|] == p && e[|p|] == (p + "/")[|p|];
      assert e[..|head|] == p[..|head|];
    }
  }

  lemma ParentIsAbove(path: Path, id: Path)
    requires StartsWith(id, "/") && Parent(id) == Some(path)
    ensures StartsWith(path, "/") && Below(path, id) && id != ROOT
  {
    ParentOf(id);
    ParentIsShorter(id);
    BelowIff(path, id);
  }

  /** A row is named by the next segment, and is that segment put behind `path` unless its name is empty. */
  lemma RowIsNextSegment(path: Path, id: Path)
    requires StartsWith(id, "/") && Parent(id) == Some(path)
    ensures StartsWith(path, "/") && IsNextSegment(path, id, RowName(path, id))
    ensures RowName(path, id) != "" ==> id == Base(path) + "/" + RowName(path, id)
  {
    hide StripPrefix, First, Parent, LastIndexOf;
    ParentIsAbove(path, id);
    FirstBelow(path, id);
    if RowName(path, id) != "" {
      OneSegmentLonger(path, id, RowName(path, id));
    }
  }

  lemma OneSegmentLonger(path: Path, id: Path, name: string)
    requires StartsWith(id, "/") && Parent(id) == Some(path) && IsNextSegment(path, id, name) && name != ""
    ensures id == Base(path) + "/" + name
  {
    var head := Base(path) + "/" + name;
    assert LastIndexOf(id, '/').value < |head|;
    assert |id| == |head| ==> id == head;
  }

  lemma HeadIsAbove(head: Path, e: Path)
    requires StartsWith(e, head) && (|e| == |head| || e[|head|] == '/')
    ensures AtOrBelow(head, e)
  {
    if |head| < |e| {
      assert e[..|head| + 1] == head + "/";
    }
  }

  /** For every next segment there is a path at or above `e` with parent `path` and that name: but for the root alone.
      */
  lemma NextSegmentIsRow(path: Path, e: Path, name: string) returns (id: Path)
    requires StartsWith(path, "/") && StartsWith(e, "/") && IsNextSegment(path, e, name) && e != ROOT
    ensures AtOrBelow(id, e) && Parent(id) == Some(path) && StartsWith(id, "/") && RowName(path, id) == name
  {
    id := Base(path) + "/" + name;
    if path == ROOT && name == "" {
      id := DoubleSlash(e);
      FirstOf(id);
    } else {
      HeadIsAbove(id, e);
      HeadHasParent(path, name);
      FirstBelow(path, id);
      NextSegmentUnique(path, id, name, First(StripPrefix(id, path)).value);
    }
  }

  lemma HeadHasParent(path: Path, name: string)
    requires StartsWith(path, "/") && '/' !in name && !(path == ROOT && name == "")
    ensures var id := Base(path) + "/" + name;
            Parent(id) == Some(path) && StartsWith(id, "/") && Below(path, id) && IsNextSegment(path, id, name)
  {
    var id := Base(path) + "/" + name;
    assert id == Base(path) + ['/'] + name;
    LastIndexOfAt(Base(path), '/', name);
    assert id[0] == '/';
    assert id[..|Base(path)|] == Base(path);
    assert id[..|Base(path)| + 1] == Base(path) + "/";
    assert |id| != |ROOT| || name == "";
  }

  /** Below the root an empty segment comes first: the path goes on to the end of the segment after it. */
  lemma DoubleSlash(e: Path) returns (id: Path)
    requires StartsWith(e, "/") && e != ROOT && IsNextSegment(ROOT, e, "")
    ensures AtOrBelow(id, e) && Parent(id) == Some(ROOT) && StartsWith(id, "/") && |id| >= 2 && id[1] == '/'
  {
    assert "" + "/" + "" == "/";
    assert |e| >= 2 && e[0] == '/' && e[1] == '/';
    var end := match IndexFrom(e, '/', 2) case None => |e| case Some(i) => i;
    id := e[..end];
    HeadIsAbove(id, e);
    assert forall k | 2 <= k < end :: e[k] != '/';
    LastIndexOfIs(id, '/', 1);
    assert id[..1] == "/";
    assert id[0] == '/';
  }

  // ---------------------------------------------------------------- agreement

  /** A row under `path` lies at or above some stored path. */
  lemma RowBase(ops: seq<TreeOp>, path: Path, id: Path) returns (base: Path)
    requires AllOk(ops) && id in RowsUnder(Run(ops).tree, path)
    ensures IsBase(Run(ops), base) && base != ROOT && StartsWith(base, "/")
    ensures StartsWith(id, "/") && Parent(id) == Some(path) && AtOrBelow(id, base)
  {
    hide Chain, ParseKind, IsParentOf, Run, OpOk, IsBase, Parent;
    var s := Run(ops);
    base :| IsBase(s, base) && id in Chain(base);
    BaseStartsWithSlash(s, base);
    ChainStartsWithSlash(id, base);
    ChainIsParents(id, base);
    IsParentOfIff(id, base);
    ParentIsAbove(path, id);
    RootIsAlone(id, base);
  }

  lemma RootIsAlone(id: Path, base: Path)
    requires AtOrBelow(id, base) && id != ROOT && StartsWith(id, "/")
    ensures base != ROOT
  {
    assert |id + "/"| >= 2;
  }

  lemma BaseStartsWithSlash(s: Both, base: Path)
    requires Good(s) && IsBase(s, base)
    ensures StartsWith(base, "/")
  {
    hide Chain, ParseKind, Parent, AtOrAboveBase;
  }

  /** What the scan would find if it looked at the paths of nodes as well as at those of events. */
  ghost predicate IsBaseChild(s: Both, path: Path, c: Child)
    requires AllKinded(s.ids)
  {
    c == ChildAt(s.kinds, path, c.name) && BaseShows(s, path, c.name)
  }

  /** A stored path other than the root shows under that name. */
  ghost predicate BaseShows(s: Both, path: Path, name: string)
    requires AllKinded(s.ids)
  {
    exists p | IsBase(s, p) && p != ROOT :: ChildName(path, p) == Some(name)
  }

  /** The kind of a row is the one that the scan finds, unless its name is empty. */
  lemma RowKind(ops: seq<TreeOp>, path: Path, id: Path)
    requires AllOk(ops) && id in RowsUnder(Run(ops).tree, path)
    ensures var name := RowName(path, id);
            RowChild(Run(ops).tree, path, id) ==
              if name == "" then Child("", KindAt(Run(ops).kinds, id)) else ChildAt(Run(ops).kinds, path, name)
  {
    var base := RowBase(ops, path, id);
    hide Chain, ParseKind, Parent, Run, OpOk, First, StripPrefix, InferNodeKind, AtOrAboveBase, IsBase;
    RowIsNextSegment(path, id);
    ChildPath(path, RowName(path, id));
  }

  /** The rows under a path are named as the scan would name what it finds among the events and the nodes. */
  lemma RowNamesIff(ops: seq<TreeOp>, path: Path, name: string)
    requires AllOk(ops) && StartsWith(path, "/")
    ensures (exists id | id in RowsUnder(Run(ops).tree, path) :: RowName(path, id) == name) <==>
            BaseShows(Run(ops), path, name)
  {
    hide Chain, ParseKind, Parent, IsParentOf, Run, OpOk, IsNextSegment, RowName, ChildName, AtOrAboveBase, IsBase,
         AtOrBelow;
    var s := Run(ops);
    forall id | id in RowsUnder(s.tree, path) && RowName(path, id) == name
      ensures BaseShows(s, path, name)
    {
      var base := RowBase(ops, path, id);
      RowIsNextSegment(path, id);
      ParentIsAbove(path, id);
      NextSegmentBelow(path, id, base, name);
      ChildNameIff(path, base, name);
    }
    if BaseShows(s, path, name) {
      var base :| IsBase(s, base) && base != ROOT && ChildName(path, base) == Some(name);
      BaseStartsWithSlash(s, base);
      ChildNameIff(path, base, name);
      var id := NextSegmentIsRow(path, base, name);
      IsParentOfIff(id, base);
      ChainIsParents(id, base);
      AboveIsRow(s, id, base);
      assert id in RowsUnder(s.tree, path);
    }
  }

  lemma AboveIsRow(s: Both, id: Path, base: Path)
    requires Good(s) && IsBase(s, base) && id in Chain(base)
    ensures id in s.tree && s.tree[id].parent == Parent(id)
  {
    hide Chain, ParseKind, Parent, IsBase;
    assert AtOrAboveBase(s, id);
  }

  ghost predicate HasRow(s: Both, path: Path, c: Child) {
    exists id | id in RowsUnder(s.tree, path) :: c == RowChild(s.tree, path, id)
  }

  /** After any run, the rows under a path with a name are the children that the scan would find there under a name,
      kind by kind, among the events and the nodes. */
  lemma IndexIsScanOfBases(ops: seq<TreeOp>, path: Path, c: Child)
    requires AllOk(ops) && StartsWith(path, "/") && c.name != ""
    ensures HasRow(Run(ops), path, c) <==> IsBaseChild(Run(ops), path, c)
  {
    hide Run, OpOk, BaseShows, AtOrAboveBase, Chain, Parent, IsBase, RowName, KindAt, ParseKind;
    RowNamesIff(ops, path, c.name);
    forall id | id in RowsUnder(Run(ops).tree, path)
      ensures var name := RowName(path, id);
              RowChild(Run(ops).tree, path, id) ==
                if name == "" then Child("", KindAt(Run(ops).kinds, id)) else ChildAt(Run(ops).kinds, path, name)
    {
      RowKind(ops, path, id);
    }
  }

  /** Every child that a node gives `path` an event gives it too. */
  ghost predicate NodesShow(s: Both, path: Path)
    requires AllKinded(s.ids)
  {
    forall p | p in s.kinds && p != ROOT && ChildName(path, p).Some? ::
      exists id | id in s.ids :: ChildName(path, PathOf(id)) == ChildName(path, p)
  }

  ghost predicate HasEmptyRow(s: Both, path: Path) {
    exists id | id in RowsUnder(s.tree, path) :: RowName(path, id) == ""
  }

  ghost predicate HasRootEvent(s: Both)
    requires AllKinded(s.ids)
  {
    exists id | id in s.ids :: PathOf(id) == ROOT
  }

  /** The rows without a name are of the kind of the path itself, and when an event at the root shows below the root
      there is such a row. */
  ghost predicate EmptyNamesFit(s: Both, path: Path)
    requires AllKinded(s.ids)
  {
    && (forall id | id in RowsUnder(s.tree, path) && RowName(path, id) == "" ::
          KindAt(s.kinds, id) == KindAt(s.kinds, path))
    && (path == ROOT && HasRootEvent(s) ==> HasEmptyRow(s, path))
  }

  ghost predicate SameChildren(s: Both, path: Path)
    requires AllKinded(s.ids)
  {
    forall c :: HasRow(s, path, c) <==> IsChild(s.ids, s.kinds, path, c)
  }

  /** The rows under a path are exactly what the scan of all events finds, with the same kinds, exactly when no node
      gives the path a child that no event gives it, and children without a name fit. */
  lemma IndexRefinesScanIff(ops: seq<TreeOp>, path: Path)
    requires AllOk(ops) && StartsWith(path, "/")
    ensures SameChildren(Run(ops), path) <==> NodesShow(Run(ops), path) && EmptyNamesFit(Run(ops), path)
  {
    hide Run, OpOk, NodesShow, EmptyNamesFit, HasRow, Good, AllKinded;
    GoodParts(Run(ops));
    if SameChildren(Run(ops), path) {
      AgreeingShow(ops, path);
      AgreeingFit(ops, path);
    }
    if NodesShow(Run(ops), path) && EmptyNamesFit(Run(ops), path) {
      forall c
        ensures HasRow(Run(ops), path, c) <==> IsChild(Run(ops).ids, Run(ops).kinds, path, c)
      {
        if HasRow(Run(ops), path, c) {
          RowsAreChildren(ops, path, c);
        }
        if IsChild(Run(ops).ids, Run(ops).kinds, path, c) {
          ChildrenAreRows(ops, path, c);
        }
      }
    }
  }

  lemma AgreeingShow(ops: seq<TreeOp>, path: Path)
    requires AllOk(ops) && StartsWith(path, "/") && SameChildren(Run(ops), path)
    ensures NodesShow(Run(ops), path)
  {
    hide Run, OpOk, Chain, Parent, AtOrAboveBase, ParseKind, ChildName, RowName, KindAt;
    var s := Run(ops);
    forall p | p in s.kinds && p != ROOT && ChildName(path, p).Some?
      ensures exists id | id in s.ids :: ChildName(path, PathOf(id)) == ChildName(path, p)
    {
      assert IsBase(s, p);
      RowNamesIff(ops, path, ChildName(path, p).value);
      var id :| id in RowsUnder(s.tree, path) && RowName(path, id) == ChildName(path, p).value;
      assert HasRow(s, path, RowChild(s.tree, path, id));
    }
  }

  lemma AgreeingFit(ops: seq<TreeOp>, path: Path)
    requires AllOk(ops) && StartsWith(path, "/") && SameChildren(Run(ops), path)
    ensures EmptyNamesFit(Run(ops), path)
  {
    hide Run, OpOk, Chain, Parent, AtOrAboveBase, ParseKind, ChildName, RowName, KindAt;
    var s := Run(ops);
    ChildPath(path, "");
    forall id | id in RowsUnder(s.tree, path) && RowName(path, id) == ""
      ensures KindAt(s.kinds, id) == KindAt(s.kinds, path)
    {
      RowKind(ops, path, id);
      assert HasRow(s, path, RowChild(s.tree, path, id));
    }
    if path == ROOT && HasRootEvent(s) {
      RootShowsItself();
      assert IsChild(s.ids, s.kinds, path, ChildAt(s.kinds, path, ""));
      var id :| id in RowsUnder(s.tree, path) && ChildAt(s.kinds, path, "") == RowChild(s.tree, path, id);
    }
  }

  lemma RootShowsItself()
    ensures ChildName(ROOT, ROOT) == Some("")
  {
    assert ROOT[0] == '/' && ROOT[1..] == "";
    FirstOf(ROOT);
  }

  lemma RowsAreChildren(ops: seq<TreeOp>, path: Path, c: Child)
    requires AllOk(ops) && StartsWith(path, "/") && NodesShow(Run(ops), path) && EmptyNamesFit(Run(ops), path)
    requires HasRow(Run(ops), path, c)
    ensures IsChild(Run(ops).ids, Run(ops).kinds, path, c)
  {
    hide Run, OpOk, Chain, Parent, AtOrAboveBase, ParseKind, ChildName, RowName, KindAt;
    var s := Run(ops);
    var id :| id in RowsUnder(s.tree, path) && c == RowChild(s.tree, path, id);
    RowKind(ops, path, id);
    RowNamesIff(ops, path, c.name);
    ChildPath(path, "");
    var p :| IsBase(s, p) && p != ROOT && ChildName(path, p) == Some(c.name);
  }

  lemma ChildrenAreRows(ops: seq<TreeOp>, path: Path, c: Child)
    requires AllOk(ops) && StartsWith(path, "/") && EmptyNamesFit(Run(ops), path)
    requires IsChild(Run(ops).ids, Run(ops).kinds, path, c)
    ensures HasRow(Run(ops), path, c)
  {
    hide Run, OpOk, ParseKind, ChildName, RowName, KindAt, Good, IsNextSegment, RowsUnder, Prefix, StripEvent;
    var s := Run(ops);
    GoodParts(s);
    var event :| event in s.ids && ChildName(path, PathOf(event)) == Some(c.name);
    var id := RowOfEvent(ops, path, event, c.name);
    RowKind(ops, path, id);
    ChildPath(path, "");
  }

  /** The name that the scan gives an event is that of a row, also for an event at the root when such names fit. */
  lemma RowOfEvent(ops: seq<TreeOp>, path: Path, event: EventId, name: string) returns (id: Path)
    requires AllOk(ops) && StartsWith(path, "/") && EmptyNamesFit(Run(ops), path)
    requires event in Run(ops).ids && ChildName(path, PathOf(event)) == Some(name)
    ensures id in RowsUnder(Run(ops).tree, path) && RowName(path, id) == name
  {
    hide Run, OpOk, ParseKind, ChildName, RowName, KindAt, Good, IsNextSegment, RowsUnder, StripEvent;
    var s := Run(ops);
    GoodParts(s);
    if PathOf(event) == ROOT {
      ChildNameIff(path, ROOT, name);
      RootAloneIsBelow(path, name);
      assert HasRootEvent(s);
    } else {
      assert IsBase(s, PathOf(event));
      assert BaseShows(s, path, name);
      RowNamesIff(ops, path, name);
    }
    id :| id in RowsUnder(s.tree, path) && RowName(path, id) == name;
  }

  lemma RootAloneIsBelow(path: Path, name: string)
    requires StartsWith(path, "/") && IsNextSegment(path, ROOT, name)
    ensures path == ROOT && name == ""
  {
    assert |Base(path) + "/" + name| <= |ROOT|;
    assert Base(path) == "" && name == "";
  }

  /** Giving kinds to paths at or above events only is enough for nodes to show. */
  lemma NodesAboveEventsShow(s: Both, path: Path)
    requires Good(s) && NodesAboveEvents(s) && StartsWith(path, "/")
    ensures NodesShow(s, path)
  {
    hide ParseKind, IsParentOf, Chain, Parent, AtOrAboveBase, ChildName, IsNextSegment;
    forall p | p in s.kinds && p != ROOT && ChildName(path, p).Some?
      ensures exists id | id in s.ids :: ChildName(path, PathOf(id)) == ChildName(path, p)
    {
      var id :| id in s.ids && IsParentOf(p, PathOf(id));
      var name := ChildName(path, p).value;
      ChildNameIff(path, p, name);
      IsParentOfIff(p, PathOf(id));
      NextSegmentBelow(path, p, PathOf(id), name);
      ChildNameIff(path, PathOf(id), name);
    }
  }

  // ---------------------------------------------------------------- the ends of a range

  /** Rows with a name are ordered by it, and below a path other than the root all rows are. */
  lemma RowOrder(path: Path, a: Path, b: Path)
    requires StartsWith(a, "/") && Parent(a) == Some(path) && StartsWith(b, "/") && Parent(b) == Some(path)
    requires path != ROOT || (RowName(path, a) != "" && RowName(path, b) != "")
    ensures AtMost(a, b) <==> AtMost(RowName(path, a), RowName(path, b))
  {
    hide IsNextSegment, First, StripPrefix, Less, Parent;
    RowIsName(path, a);
    RowIsName(path, b);
    LessUnderPrefix(Base(path) + "/", RowName(path, a), RowName(path, b));
  }

  lemma RowIsName(path: Path, id: Path)
    requires StartsWith(id, "/") && Parent(id) == Some(path) && (path != ROOT || RowName(path, id) != "")
    ensures id == Base(path) + "/" + RowName(path, id) && id[|Base(path) + "/"|..] == RowName(path, id)
  {
    hide First, StripPrefix;
    RowIsNextSegment(path, id);
    if RowName(path, id) == "" {
      var head := path + "/" + "";
      assert head == path + "/";
      LastSlashBehind(path, id);
      assert |id| == |head| ==> id == head;
    }
  }

  lemma LastSlashBehind(path: Path, id: Path)
    requires Parent(id) == Some(path) && path != ROOT
    ensures forall k | |path| < k < |id| :: id[k] != '/'
  {
    assert LastIndexOf(id, '/').value == |path|;
  }

  /** Below the root, rows without a name are those that go on with a second slash. */
  lemma EmptyNameIff(id: Path)
    requires StartsWith(id, "/") && Parent(id) == Some(ROOT)
    ensures |id| >= 2 && (RowName(ROOT, id) == "" <==> id[1] == '/')
    ensures RowName(ROOT, id) != "" ==> id == "/" + RowName(ROOT, id)
  {
    hide IsNextSegment;
    RowIsNextSegment(ROOT, id);
    FirstOf(id);
    ParentIsAbove(ROOT, id);
    assert |id| == 1 ==> id == ROOT;
    assert "" + "/" + RowName(ROOT, id) == "/" + RowName(ROOT, id);
  }

  /** Where the root has a row without a name, all its other rows come behind that one. */
  ghost predicate NamesComeLast(s: Both, path: Path) {
    path == ROOT && HasEmptyRow(s, path) ==>
      forall id | id in RowsUnder(s.tree, path) && RowName(path, id) != "" :: |id| >= 2 && id[1] > '/'
  }

  /** A range node with the same children in both has the same ends in both, the names of the least and the greatest
      row, exactly when, at the root, no name begins with a character before the slash where some name is empty. */
  lemma RangeEndsAgreeIff(ops: seq<TreeOp>, path: Path, list: seq<Child>, least: Path, greatest: Path)
    requires AllOk(ops) && StartsWith(path, "/") && SameChildren(Run(ops), path)
    requires IsChildList(Run(ops).ids, Run(ops).kinds, path, list)
    requires IsLeast(least, RowsUnder(Run(ops).tree, path)) && IsGreatest(greatest, RowsUnder(Run(ops).tree, path))
    ensures list != []
    ensures list[0].name == RowName(path, least) && list[|list| - 1].name == RowName(path, greatest) <==>
            NamesComeLast(Run(ops), path)
  {
    hide Run, OpOk, IsChild, Less, RowName, ParseKind, Parent, Good, IsGreatest, NamesComeLast,
         SameChildren, HasEmptyRow, IsChildList, Kinded, RowsUnder, AtMost;
    GoodParts(Run(ops));
    var c := NameInList(ops, path, list, least);
    if path == ROOT && HasEmptyRow(Run(ops), path) {
      if NamesComeLast(Run(ops), path) {
        EmptyFirstAgrees(ops, list, least, greatest);
      } else {
        NameBeforeEmpty(ops, list, least);
      }
    } else {
      NamedEndsAgree(ops, path, list, least, greatest);
      NamesComeLastElsewhere(Run(ops), path);
    }
  }

  lemma NamesComeLastElsewhere(s: Both, path: Path)
    requires !(path == ROOT && HasEmptyRow(s, path))
    ensures NamesComeLast(s, path)
  {
    hide HasEmptyRow;
  }

  /** The name of a row is in the list. */
  lemma NameInList(ops: seq<TreeOp>, path: Path, list: seq<Child>, id: Path) returns (c: Child)
    requires AllOk(ops) && SameChildren(Run(ops), path) && IsChildList(Run(ops).ids, Run(ops).kinds, path, list)
    requires id in RowsUnder(Run(ops).tree, path)
    ensures c in list && c.name == RowName(path, id) && StrictlySorted(list)
    ensures StartsWith(id, "/") && Parent(id) == Some(path)
  {
    hide Run, OpOk, IsChild, Less, RowName, ParseKind, Parent, Good;
    c := RowChild(Run(ops).tree, path, id);
    assert HasRow(Run(ops), path, c);
    var base := RowBase(ops, path, id);
  }

  /** And every name in the list is that of a row. */
  lemma RowOfName(ops: seq<TreeOp>, path: Path, list: seq<Child>, c: Child) returns (id: Path)
    requires AllOk(ops) && SameChildren(Run(ops), path) && IsChildList(Run(ops).ids, Run(ops).kinds, path, list)
    requires c in list
    ensures id in RowsUnder(Run(ops).tree, path) && c.name == RowName(path, id)
    ensures StartsWith(id, "/") && Parent(id) == Some(path)
  {
    hide Run, OpOk, IsChild, Less, RowName, ParseKind, Parent, Good;
    assert HasRow(Run(ops), path, c);
    id :| id in RowsUnder(Run(ops).tree, path) && c == RowChild(Run(ops).tree, path, id);
    var base := RowBase(ops, path, id);
  }

  lemma NamedEndsAgree(ops: seq<TreeOp>, path: Path, list: seq<Child>, least: Path, greatest: Path)
    requires AllOk(ops) && SameChildren(Run(ops), path) && IsChildList(Run(ops).ids, Run(ops).kinds, path, list)
    requires IsLeast(least, RowsUnder(Run(ops).tree, path)) && IsGreatest(greatest, RowsUnder(Run(ops).tree, path))
    requires !(path == ROOT && HasEmptyRow(Run(ops), path))
    ensures list != []
    ensures list[0].name == RowName(path, least) && list[|list| - 1].name == RowName(path, greatest)
  {
    hide Run, OpOk, IsChild, Less, RowName, ParseKind, Parent, Good, SameChildren, IsChildList, Kinded, RowsUnder,
         StrictlySorted;
    GoodParts(Run(ops));
    var first := NameInList(ops, path, list, least);
    var last := NameInList(ops, path, list, greatest);
    var a := RowOfName(ops, path, list, list[0]);
    var b := RowOfName(ops, path, list, list[|list| - 1]);
    RowOrder(path, least, a);
    RowOrder(path, b, greatest);
    EndsOfSorted(list, first);
    EndsOfSorted(list, last);
    LessTrichotomy(list[0].name, first.name);
    LessTrichotomy(list[|list| - 1].name, last.name);
  }

  /** At the root, a row without a name comes first in both when every other name comes behind it. */
  lemma EmptyFirstAgrees(ops: seq<TreeOp>, list: seq<Child>, least: Path, greatest: Path)
    requires AllOk(ops) && SameChildren(Run(ops), ROOT) && IsChildList(Run(ops).ids, Run(ops).kinds, ROOT, list)
    requires IsLeast(least, RowsUnder(Run(ops).tree, ROOT)) && IsGreatest(greatest, RowsUnder(Run(ops).tree, ROOT))
    requires HasEmptyRow(Run(ops), ROOT) && NamesComeLast(Run(ops), ROOT)
    ensures list != []
    ensures list[0].name == RowName(ROOT, least) && list[|list| - 1].name == RowName(ROOT, greatest)
  {
    hide Run, OpOk, IsChild, Less, RowName, ParseKind, Parent, Good, SameChildren, IsChildList, Kinded, RowsUnder,
         StrictlySorted, AtMost;
    GoodParts(Run(ops));
    var e :| e in RowsUnder(Run(ops).tree, ROOT) && RowName(ROOT, e) == "";
    var empty := NameInList(ops, ROOT, list, e);
    var first := NameInList(ops, ROOT, list, least);
    EmptyIsFirst(list, empty);
    EmptyNameIff(e);
    EmptyNameIff(least);
    SecondsInOrder(least, e);
    var last := NameInList(ops, ROOT, list, greatest);
    var b := RowOfName(ops, ROOT, list, list[|list| - 1]);
    EmptyNameIff(greatest);
    EmptyNameIff(b);
    SecondsInOrder(b, greatest);
    EndsOfSorted(list, last);
    NothingBeforeEmpty(last.name);
    if RowName(ROOT, b) != "" {
      RowOrder(ROOT, b, greatest);
      AtMostAntisymmetric(RowName(ROOT, b), last.name);
    }
  }

  lemma AtMostAntisymmetric(a: string, b: string)
    requires AtMost(a, b) && AtMost(b, a)
    ensures a == b
  {
    LessTrichotomy(a, b);
  }

  /** At the root, a name that begins with a character before the slash is the first in the table only. */
  lemma NameBeforeEmpty(ops: seq<TreeOp>, list: seq<Child>, least: Path)
    requires AllOk(ops) && SameChildren(Run(ops), ROOT) && IsChildList(Run(ops).ids, Run(ops).kinds, ROOT, list)
    requires IsLeast(least, RowsUnder(Run(ops).tree, ROOT))
    requires HasEmptyRow(Run(ops), ROOT) && !NamesComeLast(Run(ops), ROOT)
    ensures list != [] && list[0].name != RowName(ROOT, least)
  {
    hide Run, OpOk, IsChild, Less, RowName, ParseKind, Parent, Good, SameChildren, IsChildList, Kinded, RowsUnder,
         StrictlySorted, AtMost;
    GoodParts(Run(ops));
    var e :| e in RowsUnder(Run(ops).tree, ROOT) && RowName(ROOT, e) == "";
    var empty := NameInList(ops, ROOT, list, e);
    EmptyIsFirst(list, empty);
    var r :| r in RowsUnder(Run(ops).tree, ROOT) && RowName(ROOT, r) != "" && !(|r| >= 2 && r[1] > '/');
    var named := NameInList(ops, ROOT, list, r);
    var first := NameInList(ops, ROOT, list, least);
    EmptyNameIff(r);
    EmptyNameIff(least);
    SecondsInOrder(least, r);
  }

  /** A list with an empty name begins with it. */
  lemma EmptyIsFirst(list: seq<Child>, c: Child)
    requires StrictlySorted(list) && c in list && c.name == ""
    ensures list[0].name == ""
  {
    EndsOfSorted(list, c);
    NothingBeforeEmpty(list[0].name);
  }

  lemma NothingBeforeEmpty(name: string)
    ensures AtMost(name, "") ==> name == ""
  {
  }

  lemma SecondsInOrder(a: Path, b: Path)
    requires StartsWith(a, "/") && StartsWith(b, "/") && |a| >= 2 && |b| >= 2 && AtMost(a, b)
    ensures a[1] <= b[1]
  {
    assert a[0] == '/' == b[0];
    if a != b {
      assert Less(a[1..], b[1..]);
      assert a[1..][0] == a[1] && b[1..][0] == b[1];
    }
  }

  lemma EndsOfSorted(list: seq<Child>, c: Child)
    requires StrictlySorted(list) && c in list
    ensures AtMost(list[0].name, c.name) && AtMost(c.name, list[|list| - 1].name)
  {
    hide Less;
  }

  // ---------------------------------------------------------------- no empty segments

  /** Every slash is followed by a character other than a slash: no segment is empty. */
  predicate Clean(path: Path) {
    StartsWith(path, "/") && forall i | 0 <= i < |path| && path[i] == '/' :: i + 1 < |path| && path[i + 1] != '/'
  }

  lemma EmptySegmentIsNotClean(path: Path, e: Path)
    requires IsNextSegment(path, e, "")
    ensures !Clean(e)
  {
    var head := Base(path) + "/" + "";
    assert e[|head| - 1] == head[|head| - 1] == '/';
  }

  /** Where no stored path has an empty segment, the root being given a kind at most, names fit and come last. */
  lemma CleanPathsFit(ops: seq<TreeOp>, path: Path)
    requires AllOk(ops) && StartsWith(path, "/")
    requires forall id | id in Run(ops).ids :: Clean(PathOf(id))
    requires forall p | p in Run(ops).kinds :: p == ROOT || Clean(p)
    ensures EmptyNamesFit(Run(ops), path) && NamesComeLast(Run(ops), path)
  {
    hide Run, OpOk, ParseKind, ChildName, KindAt, Good, RowsUnder, IsNextSegment, RowName;
    var s := Run(ops);
    GoodParts(s);
    assert ROOT[0] == '/' && !Clean(ROOT);
    hide Clean;
    forall id | id in RowsUnder(s.tree, path)
      ensures RowName(path, id) != ""
    {
      var base := RowBase(ops, path, id);
      RowIsNextSegment(path, id);
      ParentIsAbove(path, id);
      NextSegmentBelow(path, id, base, RowName(path, id));
      if RowName(path, id) == "" {
        EmptySegmentIsNotClean(path, base);
      }
    }
  }

  // ---------------------------------------------------------------- which nodes exist

  /** The scan finds the path: as the node of an event, or above one. */
  ghost predicate Scanned(s: Both, path: Path)
    requires AllKinded(s.ids)
  {
    exists id | id in s.ids :: ShowsAt(path, id)
  }

  ghost predicate AboveNode(s: Both, path: Path) {
    exists p | p in s.kinds :: IsParentOf(path, p)
  }

  /** The scan takes an event for one of the path, because a dot follows in its text, only where the path has a row. */
  ghost predicate DotsFit(s: Both, path: Path)
    requires AllKinded(s.ids)
  {
    forall id | id in s.ids && AtNode(path, id) :: path in s.tree
  }

  /** A path in the table is found by the scan or lies at or above a node that was given a kind. The other way round
      holds exactly when the dots in the texts of events fit. */
  lemma NodeExistsIff(ops: seq<TreeOp>, path: Path)
    requires AllOk(ops) && StartsWith(path, "/")
    ensures path in Run(ops).tree ==> Scanned(Run(ops), path) || AboveNode(Run(ops), path)
    ensures (path in Run(ops).tree <==> Scanned(Run(ops), path) || AboveNode(Run(ops), path)) <==>
            DotsFit(Run(ops), path)
  {
    hide Run, OpOk, ParseKind, IsParentOf, Chain, Parent, ChildName, AtNode;
    var s := Run(ops);
    forall base
      ensures path in Chain(base) <==> IsParentOf(path, base)
    {
      ChainIsParents(path, base);
    }
    forall id | id in s.ids
      ensures IsParentOf(path, PathOf(id)) <==> path == PathOf(id) || ChildName(path, PathOf(id)).Some?
      ensures path == PathOf(id) ==> AtNode(path, id)
      ensures IsBase(s, PathOf(id))
    {
      ShowsIffParent(path, PathOf(id));
      OwnNode(id);
    }
    forall p | p in s.kinds
      ensures IsBase(s, p)
    {
    }
  }

  lemma ShowsIffParent(path: Path, e: Path)
    requires StartsWith(path, "/") && StartsWith(e, "/")
    ensures IsParentOf(path, e) <==> path == e || ChildName(path, e).Some?
  {
    hide IsParentOf, IsNextSegment, First;
    IsParentOfIff(path, e);
    BelowIff(path, e);
    if Below(path, e) {
      FirstBelow(path, e);
      ChildNameIff(path, e, First(StripPrefix(e, path)).value);
    }
  }

  lemma OwnNode(id: EventId)
    requires Kinded(id)
    ensures AtNode(PathOf(id), id)
  {
    hide ParseKind, StripEvent;
    StripEventParts(id.text);
    assert id.text[|PathOf(id)|..] == "." + StripEvent(id.text).value.1;
  }

  /** Without dots in the paths of events, the dots fit for every path without one. */
  lemma NoDotsFit(ops: seq<TreeOp>, path: Path)
    requires AllOk(ops) && StartsWith(path, "/") && '.' !in path
    requires forall id | id in Run(ops).ids :: '.' !in PathOf(id)
    ensures DotsFit(Run(ops), path)
  {
    hide Run, OpOk, ParseKind, Chain, Parent, AtNode;
    var s := Run(ops);
    forall id | id in s.ids && AtNode(path, id)
      ensures path in s.tree
    {
      AtNodeIff(path, id);
      assert Chain(path)[0] in Chain(path);
      assert IsBase(s, path);
    }
  }

  lemma AtNodeIff(path: Path, id: EventId)
    requires StripEvent(id.text).Some? && '.' !in path && '.' !in PathOf(id)
    ensures AtNode(path, id) <==> path == PathOf(id)
  {
    hide StripEvent, IndexOf;
    StripEventParts(id.text);
    var (e, kind) := StripEvent(id.text).value;
    DotSplits(e, kind);
    if path == e {
      assert id.text[|e|..] == "." + kind;
    }
    if AtNode(path, id) {
      var tail := id.text[|path| + 1..];
      assert id.text == path + ("." + tail) by {
        assert id.text[..|path|] == path && id.text[|path|..][0] == '.';
      }
      DotSplits(path, tail);
      assert id.text[..|path|] == path && id.text[..|e|] == e;
    }
  }

  // ---------------------------------------------------------------- where the backends differ

  lemma OneOp(a: TreeOp)
    requires OpOk(a) && a.PutEvent?
    ensures AllOk([a]) && Run([a]).ids == {a.id} && Run([a]).kinds == map[]
    ensures forall p :: p in Run([a]).tree <==> p in Chain(PathOf(a.id))
  {
    hide Good, ParseKind, Chain, StripEvent;
    assert [a][..0] == [];
    assert Run([]) == Both({}, map[], map[]);
    WithParentsHas(map[], PathOf(a.id));
  }

  lemma TwoOps(a: TreeOp, b: TreeOp)
    requires OpOk(a) && OpOk(b) && a.PutEvent? && b.PutNode?
    ensures AllOk([a, b]) && Run([a, b]).ids == {a.id} && Run([a, b]).kinds == map[b.node.path := b.node.kind]
  {
    hide Good, WithNode, WithParents, OpOk;
    assert [a, b][..1] == [a] && [a][..0] == [];
    assert Run([a]) == Step(Run([]), a);
  }

  /** With an empty segment the two backends can differ: the scan looks for the kind of the child with the empty name
      at the node itself. */
  lemma SomeEmptySegmentDiffers() returns (ops: seq<TreeOp>, c: Child)
    ensures AllOk(ops) && (forall id | id in Run(ops).ids :: Valid(id))
    ensures IsChild(Run(ops).ids, Run(ops).kinds, "/a", c) && !HasRow(Run(ops), "/a", c)
  {
    hide ParseKind, StripEvent, InferNodeKind, ChildName, Good, WithNode, WithParents, HasRow, Valid;
    EmptySegmentEvent();
    ops := [PutEvent(EventId("/a//b.occur")), PutNode(Node("/a", Range(60)))];
    c := Child("", Range(60));
    TwoOps(ops[0], ops[1]);
    assert ops == [ops[0], ops[1]];
    assert EventId("/a//b.occur") in Run(ops).ids;
    ChildPath("/a", "");
    OnlyOwnKind(Run(ops));
  }

  lemma EmptySegmentEvent()
    ensures var id := EventId("/a//b.occur");
            Valid(id) && Kinded(id) && PathOf(id) == "/a//b" && StartsWith("/a//b", "/") && StartsWith("/a", "/") &&
            ChildName("/a", "/a//b") == Some("")
  {
    EmptySegmentChild();
    hide ParseKind, StripEvent, ChildName, Valid;
    assert "/a//b"[0] == '/' && "/a"[0] == '/';
    LastIndexOfIs("/a//b", '/', 3);
    assert Last("/a//b") == "b";
    assert WithEvent("/a//b", "occur") == "/a//b.occur" && PrintKind(SingleOccurrence) == "occur";
    OccurrenceIsValid("/a//b");
  }

  lemma EmptySegmentChild()
    ensures ChildName("/a", "/a//b") == Some("")
  {
    hide First, IsParentOf;
    assert "/a"[0] == '/' && "/a//b"[0] == '/';
    var head := "/a" + "/" + "";
    assert head == "/a/" == "/a//b"[..3];
    assert "/a//b"[3] == '/';
    ChildNameIff("/a", "/a//b", "");
  }

  /** No row under a node can show a kind that only the node itself was given. */
  lemma OnlyOwnKind(s: Both)
    requires Good(s) && s.kinds == map["/a" := Range(60)]
    ensures !HasRow(s, "/a", Child("", Range(60)))
  {
    hide ParseKind, Chain, AtOrAboveBase, RowName, Segments;
    forall id | id in RowsUnder(s.tree, "/a")
      ensures RowChild(s.tree, "/a", id) != Child("", Range(60))
    {
      ParentIsShorter(id);
      assert id != "/a";
    }
  }

  /** An event at the root itself is a child without a name for the scan, and no row is under the root for it. */
  lemma SomeRootEventDiffers() returns (ops: seq<TreeOp>, c: Child)
    ensures AllOk(ops) && (forall id | id in Run(ops).ids :: Valid(id)) && Run(ops).kinds == map[]
    ensures IsChild(Run(ops).ids, Run(ops).kinds, ROOT, c) && RowsUnder(Run(ops).tree, ROOT) == {}
  {
    hide ParseKind, StripEvent, InferNodeKind, ChildName, Good, WithParents, Valid, Chain;
    RootEvent();
    ops := [PutEvent(EventId("/.occur"))];
    OneOp(ops[0]);
    assert ops == [ops[0]];
    assert EventId("/.occur") in Run(ops).ids;
    c := ChildAt(map[], ROOT, "");
    RootShowsItself();
    OnlyRoot();
    GoodParts(Run(ops));
  }

  lemma OnlyRoot()
    ensures Chain(ROOT) == [ROOT] && Parent(ROOT) == None
  {
  }

  lemma RootEvent()
    ensures var id := EventId("/.occur"); Valid(id) && Kinded(id) && PathOf(id) == ROOT && StartsWith(ROOT, "/")
  {
    hide ParseKind, StripEvent, Valid;
    assert ROOT[0] == '/' && ROOT[1..] == "";
    LastIndexOfIs(ROOT, '/', 0);
    assert WithEvent(ROOT, "occur") == "/.occur" && PrintKind(SingleOccurrence) == "occur";
    OccurrenceIsValid(ROOT);
  }

  /** With a dot in the path of an event the scan finds a node that has no row. */
  lemma SomeDotDiffers() returns (ops: seq<TreeOp>)
    ensures AllOk(ops) && (forall id | id in Run(ops).ids :: Valid(id)) && Run(ops).kinds == map[]
    ensures Scanned(Run(ops), "/a") && "/a" !in Run(ops).tree
  {
    hide ParseKind, StripEvent, ChildName, Good, WithParents, Valid, Chain;
    DottedEvent();
    ops := [PutEvent(EventId("/a.b/c.occur"))];
    OneOp(ops[0]);
    assert ops == [ops[0]];
    assert EventId("/a.b/c.occur") in Run(ops).ids;
    var text := "/a.b/c.occur";
    assert text[..2] == "/a" && text[2..][0] == '.';
    ChainIsParents("/a", "/a.b/c");
    assert "/a"[0] == '/' && "/a.b/c"[0] == '/';
    IsParentOfIff("/a", "/a.b/c");
    assert "/a.b/c"[2] == '.' && ("/a" + "/")[2] == '/';
  }

  lemma DottedEvent()
    ensures var id := EventId("/a.b/c.occur");
            Valid(id) && Kinded(id) && PathOf(id) == "/a.b/c" && StartsWith("/a.b/c", "/")
  {
    hide ParseKind, StripEvent, Valid;
    assert "/a.b/c"[0] == '/';
    LastIndexOfIs("/a.b/c", '/', 4);
    assert Last("/a.b/c") == "c";
    assert WithEvent("/a.b/c", "occur") == "/a.b/c.occur" && PrintKind(SingleOccurrence) == "occur";
    OccurrenceIsValid("/a.b/c");
  }

  /** An occurrence on a path whose last segment begins behind `at`. */
  lemma OccurrenceAt(path: Path, at: nat)
    requires StartsWith(path, "/") && at < |path| && path[at] == '/'
    requires forall k | at < k < |path| :: path[k] != '/' && path[k] != '.'
    ensures var id := FromPathAndKind(path, SingleOccurrence); Valid(id) && Kinded(id) && PathOf(id) == path
  {
    hide ParseKind, StripEvent, Valid;
    LastIndexOfIs(path, '/', at);
    assert '.' !in Last(path);
    OccurrenceIsValid(path);
  }

  lemma TwoEvents(a: TreeOp, b: TreeOp)
    requires OpOk(a) && OpOk(b) && a.PutEvent? && b.PutEvent? && a.id != b.id
    ensures AllOk([a, b]) && Run([a, b]).ids == {a.id, b.id} && Run([a, b]).kinds == map[]
    ensures forall p :: p in Run([a, b]).tree <==> p in Chain(PathOf(a.id)) || p in Chain(PathOf(b.id))
  {
    hide Good, ParseKind, Chain, StripEvent;
    OneOp(a);
    assert [a, b][..1] == [a];
    WithParentsHas(Run([a]).tree, PathOf(b.id));
  }

  /** The ends can differ where the children do not: a name that begins with a character before the slash, next to an
      empty one, is the first row and not the first name. */
  lemma SomeRangeEndsDiffer() returns (ops: seq<TreeOp>)
    ensures AllOk(ops) && (forall id | id in Run(ops).ids :: Valid(id)) && Run(ops).kinds == map[]
    ensures SameChildren(Run(ops), ROOT) && !NamesComeLast(Run(ops), ROOT)
  {
    hide ParseKind, StripEvent, Good, Valid, Chain, RowName, NamesComeLast, SameChildren, EmptyNamesFit, RowsUnder,
         Step, FromPathAndKind;
    OccurrenceAt("//x", 1);
    OccurrenceAt("/-y", 0);
    ops := [PutEvent(FromPathAndKind("//x", SingleOccurrence)), PutEvent(FromPathAndKind("/-y", SingleOccurrence))];
    assert "//x"[1] == '/' && "/-y"[1] == '-';
    TwoEvents(ops[0], ops[1]);
    assert ops == [ops[0], ops[1]];
    ChainBelowRoot("//x", 1);
    ChainBelowRoot("/-y", 0);
    EmptyNameIff("//x");
    EmptyNameIff("/-y");
    DoubleSlashIsList();
    EmptyBesideDash(Run(ops), "//x", "/-y");
    IndexRefinesScanIff(ops, ROOT);
  }

  lemma EmptyBesideDash(s: Both, empty: Path, dash: Path)
    requires Good(s) && s.kinds == map[] && forall p :: p in s.tree <==> p in {empty, dash, ROOT}
    requires Parent(empty) == Parent(dash) == Some(ROOT) && |dash| >= 2 && dash[1] < '/'
    requires RowName(ROOT, empty) == "" && RowName(ROOT, dash) != ""
    requires InferNodeKind(empty) == InferNodeKind(ROOT)
    requires forall id | id in s.ids :: PathOf(id) != ROOT
    ensures NodesShow(s, ROOT) && EmptyNamesFit(s, ROOT) && !NamesComeLast(s, ROOT)
  {
    hide ParseKind, StripEvent, Chain, Parent, InferNodeKind, RowName, ChildName, Good;
    GoodParts(s);
    OnlyRoot();
    assert empty in RowsUnder(s.tree, ROOT) && dash in RowsUnder(s.tree, ROOT);
  }

  lemma ChainBelowRoot(path: Path, at: nat)
    requires StartsWith(path, "/") && at < 2 && at + 1 < |path| && path[at] == '/'
    requires forall k | at < k < |path| :: path[k] != '/'
    ensures Chain(path) == [path, ROOT] && Parent(path) == Some(ROOT)
  {
    LastIndexOfIs(path, '/', at);
    assert path[0] == '/' && path[..1] == "/";
    assert path != ROOT;
    OnlyRoot();
  }

  lemma DoubleSlashIsList()
    ensures InferNodeKind("//x") == InferNodeKind(ROOT) == List
  {
    hide SplitFrom;
    SplitFromIs("//x", '/', 0, 0);
    SplitFromIs("//x", '/', 1, 1);
    SplitFromIs("//x", '/', 2, 3);
    SplitFromIs(ROOT, '/', 0, 0);
    SplitFromIs(ROOT, '/', 1, 1);
  }
}
