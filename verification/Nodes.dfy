/** Nodes of the event tree: their kinds, the byte order of names, sorting and removing repeats. */
module Nodes {
  import opened Wrappers
  import opened Strings
  import opened Paths
  import opened EventKinds

  datatype NodeKind = List | Range(interval: nat) | DateMap

  datatype Node = Node(path: Path, kind: NodeKind)

  datatype Child = Child(name: string, kind: NodeKind)

  /** Days are numbers here; parsing a date is a parameter of the store. */
  type Date = int

  datatype ChildDesc =
    | ListOf(list: seq<Child>)
    | RangeOf(interval: nat, start: Option<string>, nextUnattested: Option<string>, end: Option<string>)
    | DatesOf(dates: map<Date, set<string>>)

  datatype GetPath = GetPath(events: seq<EventKind>, children: ChildDesc)

  function InferNodeKind(path: Path): NodeKind {
    var segments := Segments(path);
    if |segments| == 3 && segments[0] == "s" && segments[2] == "match" then DateMap else List
  }

  function KindAt(kinds: map<Path, NodeKind>, path: Path): NodeKind {
    if path in kinds then kinds[path] else InferNodeKind(path)
  }

  // ---------------------------------------------------------------- names in order

  predicate Less(a: string, b: string) {
    b != "" && (a == "" || a[0] < b[0] || (a[0] == b[0] && Less(a[1..], b[1..])))
  }

  /** Strings are ordered by their first difference, and a proper prefix comes first. */
  lemma {:induction false} LessIff(a: string, b: string)
    ensures Less(a, b) <==> exists k: nat :: FirstDifference(a, b, k)
  {
    forall k: nat | k > 0 && FirstDifference(a, b, k)
      ensures a[0] == b[0]
    {
      assert a[..k][0] == b[..k][0];
    }
    if b != "" && a != "" && a[0] == b[0] {
      LessIff(a[1..], b[1..]);
      if k: nat :| FirstDifference(a, b, k) {
        assert k > 0;
        assert a[1..][..k - 1] == a[..k][1..] && b[1..][..k - 1] == b[..k][1..];
        assert FirstDifference(a[1..], b[1..], k - 1);
      }
      if k: nat :| FirstDifference(a[1..], b[1..], k) {
        assert a[..k + 1] == [a[0]] + a[1..][..k] && b[..k + 1] == [b[0]] + b[1..][..k];
        assert FirstDifference(a, b, k + 1);
      }
    } else if Less(a, b) {
      assert FirstDifference(a, b, 0);
    }
  }

  predicate FirstDifference(a: string, b: string, k: nat) {
    k <= |a| && k < |b| && a[..k] == b[..k] && (k == |a| || a[k] < b[k])
  }

  lemma {:induction false} LessTrichotomy(a: string, b: string)
    ensures !Less(a, a)
    ensures !(Less(a, b) && Less(b, a))
    ensures Less(a, b) || a == b || Less(b, a)
  {
    if a != "" {
      LessTrichotomy(a[1..], a[1..]);
      if b != "" && a[0] == b[0] {
        LessTrichotomy(a[1..], b[1..]);
        if a[1..] == b[1..] {
          assert a == [a[0]] + a[1..] == [b[0]] + b[1..] == b;
        }
      }
    }
  }

  lemma {:induction false} LessTransitive(a: string, b: string, c: string)
    requires Less(a, b) && Less(b, c)
    ensures Less(a, c)
  {
    if a != "" && a[0] == b[0] && b[0] == c[0] {
      LessTransitive(a[1..], b[1..], c[1..]);
    }
  }

  lemma {:induction false} LessUnderPrefix(p: string, a: string, b: string)
    ensures Less(p + a, p + b) <==> Less(a, b)
  {
    if p == "" {
      assert p + a == a && p + b == b;
    } else {
      assert (p + a)[1..] == p[1..] + a && (p + b)[1..] == p[1..] + b;
      LessUnderPrefix(p[1..], a, b);
    }
  }

  predicate AtMost(a: string, b: string) {
    a == b || Less(a, b)
  }

  predicate Sorted(list: seq<Child>) {
    forall i, j | 0 <= i < j < |list| :: AtMost(list[i].name, list[j].name)
  }

  predicate StrictlySorted(list: seq<Child>) {
    forall i, j | 0 <= i < j < |list| :: Less(list[i].name, list[j].name)
  }

  function Insert(c: Child, list: seq<Child>): seq<Child> {
    if list == [] || AtMost(c.name, list[0].name) then [c] + list else [list[0]] + Insert(c, list[1..])
  }

  function SortByName(list: seq<Child>): seq<Child> {
    if list == [] then [] else Insert(list[0], SortByName(list[1..]))
  }

  lemma {:induction false} InsertKeeps(c: Child, list: seq<Child>)
    requires Sorted(list)
    ensures Sorted(Insert(c, list))
    ensures forall d :: d in Insert(c, list) <==> d == c || d in list
  {
    if list == [] {
    } else if AtMost(c.name, list[0].name) {
      forall j | 0 <= j < |list|
        ensures AtMost(c.name, list[j].name)
      {
        if c.name != list[0].name && list[0].name != list[j].name {
          LessTransitive(c.name, list[0].name, list[j].name);
        }
      }
    } else {
      InsertKeeps(c, list[1..]);
      LessTrichotomy(c.name, list[0].name);
      var rest := Insert(c, list[1..]);
      forall j | 0 <= j < |rest|
        ensures AtMost(list[0].name, rest[j].name)
      {
        assert rest[j] in rest;
        assert rest[j] == c || rest[j] in list[1..];
      }
      assert list == [list[0]] + list[1..];
    }
  }

  lemma {:induction false} SortKeeps(list: seq<Child>)
    ensures Sorted(SortByName(list))
    ensures forall d :: d in SortByName(list) <==> d in list
  {
    if list != [] {
      SortKeeps(list[1..]);
      InsertKeeps(list[0], SortByName(list[1..]));
      assert list == [list[0]] + list[1..];
    }
  }

  /** `Vec::dedup`: drops every element equal to the one kept before it. */
  method Dedup(list: seq<Child>) returns (kept: seq<Child>)
    requires Sorted(list)
    requires forall c, d | c in list && d in list && c.name == d.name :: c == d
    ensures StrictlySorted(kept)
    ensures forall c :: c in kept <==> c in list
  {
    kept := [];
    for i := 0 to |list|
      invariant StrictlySorted(kept)
      invariant forall c :: c in kept <==> c in list[..i]
      invariant kept == [] <==> i == 0
      invariant i > 0 ==> kept[|kept| - 1] == list[i - 1]
    {
      if kept == [] || kept[|kept| - 1] != list[i] {
        if i > 0 {
          var last := list[i - 1];
          assert last in list && list[i] in list && Less(last.name, list[i].name);
          forall k | 0 <= k < |kept|
            ensures Less(kept[k].name, list[i].name)
          {
            if k < |kept| - 1 {
              LessTransitive(kept[k].name, last.name, list[i].name);
            }
          }
        }
        kept := kept + [list[i]];
      }
      assert list[..i + 1] == list[..i] + [list[i]];
    }
    assert list[..|list|] == list;
  }

  /** A strictly sorted list is determined by its elements, so the result of sorting and
      removing repeats does not depend on the order in which a map was walked. */
  lemma {:induction false} StrictlySortedUnique(a: seq<Child>, b: seq<Child>)
    requires StrictlySorted(a) && StrictlySorted(b)
    requires forall c :: c in a <==> c in b
    ensures a == b
  {
    assert b != [] ==> b[0] in b;
    if a != [] {
      assert a[0] in a && a[0] in b;
      assert b[0] in a;
      FirstIsLeast(a, b[0]);
      FirstIsLeast(b, a[0]);
      LessTrichotomy(a[0].name, b[0].name);
      assert a[0] == b[0];
      TailElements(a, b);
      StrictlySortedUnique(a[1..], b[1..]);
      assert a == [a[0]] + a[1..] && b == [b[0]] + b[1..];
    }
  }

  lemma FirstIsLeast(a: seq<Child>, c: Child)
    requires StrictlySorted(a) && c in a
    ensures c == a[0] || Less(a[0].name, c.name)
  {
  }

  lemma TailElements(a: seq<Child>, b: seq<Child>)
    requires StrictlySorted(a) && StrictlySorted(b) && a != [] && b != [] && a[0] == b[0]
    requires forall c :: c in a <==> c in b
    ensures forall c :: c in a[1..] <==> c in b[1..]
  {
    forall c
      ensures c in a[1..] <==> c in a && c != a[0]
      ensures c in b[1..] <==> c in b && c != b[0]
    {
      HeadIsNotInTail(a, c);
      HeadIsNotInTail(b, c);
    }
  }

  lemma HeadIsNotInTail(a: seq<Child>, c: Child)
    requires StrictlySorted(a) && a != []
    ensures c in a[1..] <==> c in a && c != a[0]
  {
    assert a == [a[0]] + a[1..];
    LessTrichotomy(a[0].name, a[0].name);
  }

  /** A node is a date map by its path alone exactly when it is the node of the matches of a competition. */
  lemma DateMapIff(path: Path)
    ensures InferNodeKind(path) == DateMap <==>
            exists competition :: '/' !in competition && Behind(path, "s/" + (competition + "/match"))
    ensures InferNodeKind(path) == DateMap || InferNodeKind(path) == List
  {
    hide Split, Behind;
    if InferNodeKind(path) == DateMap {
      var segments := Segments(path);
      HasBehind(path);
      var rest := path[IndexOf(path, '/').value + 1..];
      SegmentsBehind(path, rest);
      assert Split(rest, '/') == ["s", segments[1], "match"];
      SplitThreeIff(rest, '/', "s", segments[1], "match");
      assert rest == "s/" + (segments[1] + "/match");
    }
    forall competition | '/' !in competition && Behind(path, "s/" + (competition + "/match"))
      ensures Segments(path) == ["s", competition, "match"]
    {
      SegmentsBehind(path, "s/" + (competition + "/match"));
      SplitThreeIff("s/" + (competition + "/match"), '/', "s", competition, "match");
      assert "s" + ['/'] + (competition + ['/'] + "match") == "s/" + (competition + "/match");
    }
  }
}
