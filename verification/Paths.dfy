/** Slash-separated paths: parents, ancestors, segments, prefixing and stripping. */
module Paths {
  import opened Wrappers
  import opened Strings

  type Path = string

  const ROOT: Path := "/"

  /** What `Path::from_str` accepts. */
  predicate IsPath(s: string) {
    StartsWith(s, "/") && (EndsWith(s, "/") ==> s == ROOT)
  }

  function Parent(p: Path): (r: Option<Path>)
    ensures r.Some? ==> |r.value| < |p|
  {
    if p == ROOT then None
    else
      match LastIndexOf(p, '/')
      case None => None
      case Some(at) => Some(if at == 0 then ROOT else p[..at])
  }

  predicate IsParentOf(p: Path, path: Path)
    decreases |path|
  {
    path == p || (Parent(path).Some? && IsParentOf(p, Parent(path).value))
  }

  function Segments(p: Path): seq<string> {
    Split(p, '/')[1..]
  }

  function First(p: Path): Option<string> {
    if Segments(p) == [] then None else Some(Segments(p)[0])
  }

  /** What follows the last slash, or everything when there is none. */
  function Last(p: Path): string {
    match LastIndexOf(p, '/')
    case None => p
    case Some(at) => p[at + 1..]
  }

  /** Splits the last segment at its first dot into a path and an event kind. */
  function StripEvent(p: Path): Option<(Path, string)> {
    match LastIndexOf(p, '/')
    case None => None
    case Some(slash) =>
      match IndexOf(p[slash + 1..], '.')
      case None => None
      case Some(dot) => Some((p[..slash + 1 + dot], p[slash + 1..][dot + 1..]))
  }

  /** The text of an event id, `format!("{}.{}", path, kind)`. */
  function WithEvent(path: Path, kind: string): Path {
    path + ("." + kind)
  }

  function Prefix(p: Path, base: Path): Path {
    if p == ROOT then base else if base == ROOT then p else base + p
  }

  function StripPrefix(p: Path, base: Path): Path {
    if base != ROOT && StartsWith(p, base) then p[|base|..] else p
  }

  /** The text that what lies below a path begins with, up to the slash. */
  function Base(path: Path): string {
    if path == ROOT then "" else path
  }

  function ChildOf(p: Path, name: string): Path {
    Prefix("/" + name, p)
  }

  // ---------------------------------------------------------------- ancestors

  /** `below` is `p`, or continues `p` with a slash, or `p` is the root. */
  predicate AtOrBelow(p: Path, below: Path) {
    p == ROOT || p == below || StartsWith(below, p + "/")
  }

  /** Cutting at the last slash keeps every shorter slash-terminated prefix. */
  lemma ParentOf(path: Path)
    requires StartsWith(path, "/") && path != ROOT
    ensures Parent(path).Some?
    ensures var parent := Parent(path).value;
            StartsWith(parent, "/") && AtOrBelow(parent, path) &&
            forall p: Path :: p != ROOT && p != "" && StartsWith(path, p + "/") ==> AtOrBelow(p, parent)
  {
    var at := LastIndexOf(path, '/').value;
    var parent := Parent(path).value;
    assert path[0] == '/';
    if at != 0 {
      assert path == parent + "/" + path[at + 1..];
    }
    forall p: Path | p != ROOT && p != "" && StartsWith(path, p + "/")
      ensures AtOrBelow(p, parent)
    {
      assert path[|p|] == (p + "/")[|p|] == '/';
      assert |p| <= at;
      if |p| < at {
        assert parent[..|p| + 1] == path[..|p| + 1];
      } else {
        assert parent == path[..|p|] == (p + "/")[..|p|] == p;
      }
    }
  }

  lemma AtOrBelowTransitive(a: Path, b: Path, c: Path)
    requires StartsWith(a, "/") && StartsWith(b, "/")
    requires AtOrBelow(a, b) && AtOrBelow(b, c)
    ensures AtOrBelow(a, c)
  {
    if a != ROOT && a != b && b != c {
      if b != ROOT {
        assert c[..|a| + 1] == (b + "/")[..|a| + 1] == b[..|a| + 1] == a + "/";
      }
    }
  }

  /** The recursive ancestor test is the segment-wise prefix test. */
  lemma {:induction false} IsParentOfIff(p: Path, path: Path)
    requires StartsWith(p, "/") && StartsWith(path, "/")
    ensures IsParentOf(p, path) <==> AtOrBelow(p, path)
    decreases |path|
  {
    if path == ROOT {
      assert Parent(path).None?;
    } else {
      ParentOf(path);
      var parent := Parent(path).value;
      IsParentOfIff(p, parent);
      if AtOrBelow(p, parent) {
        AtOrBelowTransitive(p, parent, path);
      }
    }
  }

  /** On paths with a leading slash, being an ancestor is a partial order with the root as least element. */
  lemma IsParentOfPartialOrder(a: Path, b: Path, c: Path)
    requires StartsWith(a, "/") && StartsWith(b, "/") && StartsWith(c, "/")
    ensures IsParentOf(a, a) && IsParentOf(ROOT, a)
    ensures IsParentOf(a, b) && IsParentOf(b, a) ==> a == b
    ensures IsParentOf(a, b) && IsParentOf(b, c) ==> IsParentOf(a, c)
  {
    IsParentOfIff(a, a);
    IsParentOfIff(ROOT, a);
    IsParentOfIff(a, b);
    IsParentOfIff(b, a);
    IsParentOfIff(b, c);
    IsParentOfIff(a, c);
    if AtOrBelow(a, b) && AtOrBelow(b, c) {
      AtOrBelowTransitive(a, b, c);
    }
  }

  /** Every descendant passes the raw prefix test that queries use; a path that passes it
      is a descendant exactly when the next character is a slash or there is none. */
  lemma RawPrefixOfDescendant(p: Path, path: Path)
    requires StartsWith(p, "/") && StartsWith(path, "/")
    ensures IsParentOf(p, path) ==> StartsWith(path, p)
    ensures StartsWith(path, p) && p != ROOT ==>
              (IsParentOf(p, path) <==> |path| == |p| || path[|p|] == '/')
  {
    IsParentOfIff(p, path);
    if StartsWith(path, p + "/") {
      assert path[..|p|] == (p + "/")[..|p|] == p;
      assert path[|p|] == (p + "/")[|p|];
    }
    if StartsWith(path, p) && |p| < |path| && path[|p|] == '/' {
      assert path[..|p| + 1] == p + "/";
    }
  }

  // ---------------------------------------------------------------- prefixing

  lemma SumIsNotRoot(p: Path, x: Path)
    requires p != ROOT && x != ROOT
    ensures p + x != ROOT
  {
    if p == "" {
      assert p + x == x;
    } else if x == "" {
      assert p + x == p;
    }
  }

  /** Prefixing is an action of paths on paths, with the root acting as the identity. */
  lemma PrefixIsAction(x: Path, p: Path, q: Path)
    ensures Prefix(x, ROOT) == x && Prefix(ROOT, p) == p
    ensures Prefix(Prefix(x, p), q) == Prefix(x, Prefix(p, q))
  {
    if x != ROOT && p != ROOT && q != ROOT {
      assert q + (p + x) == (q + p) + x;
      SumIsNotRoot(p, x);
      SumIsNotRoot(q, p);
    }
  }

  lemma PrefixKeepsPath(x: Path, p: Path)
    requires IsPath(x) && IsPath(p)
    ensures IsPath(Prefix(x, p))
  {
    if x != ROOT && p != ROOT {
      assert (p + x)[|p + x| - 1..] == x[|x| - 1..];
    }
  }

  /** Stripping undoes prefixing, except for the root under a prefix other than the root. */
  lemma StripUndoesPrefixIff(x: Path, p: Path)
    ensures StripPrefix(Prefix(x, p), p) == x <==> !(x == ROOT && p != ROOT)
  {
    if x != ROOT && p != ROOT {
      assert (p + x)[|p|..] == x;
    }
  }

  /** And prefixing undoes stripping exactly when there was something to strip that leaves more than a slash. What does
      not begin with the prefix is left alone. */
  lemma PrefixUndoesStripIff(x: Path, p: Path)
    ensures Prefix(StripPrefix(x, p), p) == x <==> p == ROOT || (StartsWith(x, p) && x != p + "/")
    ensures p != ROOT && !StartsWith(x, p) ==> StripPrefix(x, p) == x
  {
    if p != ROOT && StartsWith(x, p) {
      assert x == p + x[|p|..];
    }
    if p != ROOT && !StartsWith(x, p) && x != ROOT {
      assert (p + x)[..|p|] == p;
    }
  }

  /** The accepted paths are the root, and a last word behind a slash, with nothing or with a slash in front. */
  lemma IsPathIff(s: string)
    ensures IsPath(s) <==>
            s == ROOT ||
            exists front: string, name: string ::
              PieceEnds(front, '/') && name != "" && '/' !in name && s == front + ("/" + name)
  {
    hide IsPath, PieceEnds;
    if IsPath(s) && s != ROOT {
      var front, name := PathHasLast(s);
    }
    if front: string, name: string :|
      PieceEnds(front, '/') && name != "" && '/' !in name && s == front + ("/" + name) {
      LastIsPath(front, name);
    }
    assert IsPath(ROOT) by {
      hide *;
      RootIsPath();
    }
  }

  lemma RootIsPath()
    ensures IsPath(ROOT)
  {
  }

  lemma PathHasLast(s: string) returns (front: string, name: string)
    requires IsPath(s) && s != ROOT
    ensures PieceEnds(front, '/') && name != "" && '/' !in name && s == front + ("/" + name)
  {
    hide LastIndexBefore;
    assert s[0] == '/';
    var at := LastIndexOf(s, '/').value;
    assert s[|s| - 1..] == [s[|s| - 1]];
    front, name := s[..at], s[at + 1..];
  }

  lemma LastIsPath(front: string, name: string)
    requires PieceEnds(front, '/') && name != "" && '/' !in name
    ensures IsPath(front + ("/" + name))
  {
    var s := front + ("/" + name);
    assert s[0] == '/' && s[|s| - 1] == name[|name| - 1];
    assert s[|s| - 1..] == [name[|name| - 1]];
  }

  /** The parent of a child is the path it was made from. */
  lemma ParentOfChild(p: Path, name: string)
    requires IsPath(p) && '/' !in name && name != ""
    ensures Parent(ChildOf(p, name)) == Some(p)
    ensures Last(ChildOf(p, name)) == name
  {
    var base := if p == ROOT then "" else p;
    var child := ChildOf(p, name);
    assert child == base + ['/'] + name;
    LastIndexOfAt(base, '/', name);
    assert child[..|base|] == base && child[|base| + 1..] == name;
  }

  /** A word without slashes makes a path of one segment. */
  lemma WordPath(word: string)
    requires word != "" && '/' !in word
    ensures var path := "/" + word; IsPath(path) && path != ROOT && '/' in path && Last(path) == word
  {
    var path := "/" + word;
    assert path[0] == '/' && path[|path| - 1] == word[|word| - 1];
    assert path[1..] == word;
    LastIndexOfIs(path, '/', 0);
  }

  // ---------------------------------------------------------------- events

  /** Appending to the last segment. */
  lemma LastOfSum(path: Path, tail: string)
    requires '/' in path && '/' !in tail
    ensures LastIndexOf(path + tail, '/') == LastIndexOf(path, '/')
    ensures Last(path + tail) == Last(path) + tail
  {
    var at := LastIndexOf(path, '/').value;
    LastSlashOfSum(path, tail, at);
    assert (path + tail)[at + 1..] == path[at + 1..] + tail;
  }

  lemma LastSlashOfSum(path: Path, tail: string, at: nat)
    requires LastIndexOf(path, '/') == Some(at) && '/' !in tail
    ensures LastIndexOf(path + tail, '/') == Some(at)
  {
    var sum := path + tail;
    assert forall k | |path| <= k < |sum| :: sum[k] == tail[k - |path|];
    LastIndexOfIs(sum, '/', at);
  }

  lemma LastOfPrefixed(base: Path, path: Path)
    requires '/' in path
    ensures LastIndexOf(base + path, '/') == Some(|base| + LastIndexOf(path, '/').value)
    ensures Last(base + path) == Last(path)
  {
    var at := LastIndexOf(path, '/').value;
    LastSlashOfPrefixed(base, path, at);
    assert (base + path)[|base| + at + 1..] == path[at + 1..];
  }

  lemma LastSlashOfPrefixed(base: Path, path: Path, at: nat)
    requires LastIndexOf(path, '/') == Some(at)
    ensures LastIndexOf(base + path, '/') == Some(|base| + at)
  {
    var sum := base + path;
    assert forall k | |base| <= k < |sum| :: sum[k] == path[k - |base|];
    LastIndexOfIs(sum, '/', |base| + at);
  }

  lemma DotSplits(name: string, kind: string)
    requires '.' !in name
    ensures var last := name + ("." + kind);
            IndexOf(last, '.') == Some(|name|) && last[..|name|] == name && last[|name| + 1..] == kind
  {
    var last := name + ("." + kind);
    assert forall k | 0 <= k < |name| :: last[k] == name[k];
    IndexOfIs(last, '.', |name|);
  }

  /** A path with a dot-free last segment, a dot and a slash-free kind strip back into the two. */
  lemma StripEventOf(path: Path, kind: string)
    requires '/' in path && '.' !in Last(path) && '/' !in kind
    ensures StripEvent(WithEvent(path, kind)) == Some((path, kind))
  {
    var id := WithEvent(path, kind);
    LastOfSum(path, "." + kind);
    DotSplits(Last(path), kind);
    var at := LastIndexOf(path, '/').value;
    assert id[..at + 1 + |Last(path)|] == path;
  }

  lemma CutAt(p: string, at: nat, dot: nat)
    requires at + 1 + dot < |p| && p[at + 1 + dot] == '.'
    ensures p == WithEvent(p[..at + 1 + dot], p[at + 1..][dot + 1..])
  {
    assert p[at + 1..][dot + 1..] == p[at + 1 + dot + 1..];
  }

  lemma PathPart(p: string, at: nat, dot: nat)
    requires LastIndexOf(p, '/') == Some(at) && IndexOf(p[at + 1..], '.') == Some(dot)
    ensures var path := p[..at + 1 + dot]; '/' in path && '.' !in Last(path)
  {
    var path := p[..at + 1 + dot];
    assert path[at] == '/';
    LastIndexOfIs(path, '/', at);
    var name := path[at + 1..];
    assert forall k | 0 <= k < |name| :: name[k] == p[at + 1..][k];
  }

  lemma KindPart(p: string, at: nat, dot: nat)
    requires LastIndexOf(p, '/') == Some(at) && at + 1 + dot < |p|
    ensures '/' !in p[at + 1..][dot + 1..]
  {
    var kind := p[at + 1..][dot + 1..];
    assert forall k | 0 <= k < |kind| :: kind[k] == p[at + 1 + dot + 1 + k];
  }

  /** What `StripEvent` returns satisfies the premises of `StripEventOf`, and rebuilds the path. */
  lemma StripEventParts(p: Path)
    requires StripEvent(p).Some?
    ensures var (path, kind) := StripEvent(p).value;
            '/' in path && '.' !in Last(path) && '/' !in kind && p == WithEvent(path, kind)
  {
    var at := LastIndexOf(p, '/').value;
    var dot := IndexOf(p[at + 1..], '.').value;
    assert StripEvent(p) == Some((p[..at + 1 + dot], p[at + 1..][dot + 1..]));
    hide StripEvent, WithEvent, Last, IndexOf, LastIndexOf;
    CutAt(p, at, dot);
    PathPart(p, at, dot);
    KindPart(p, at, dot);
  }

  lemma WithEventPrefixed(base: Path, path: Path, kind: string)
    ensures base + WithEvent(path, kind) == WithEvent(base + path, kind)
  {
  }

  /** Prefixing a path that names an event keeps the event kind and the last segment before the dot. */
  lemma PrefixKeepsEvent(p: Path, base: Path)
    requires StripEvent(p).Some?
    ensures StripEvent(Prefix(p, base)).Some?
    ensures var (path, kind) := StripEvent(p).value;
            var (path', kind') := StripEvent(Prefix(p, base)).value;
            kind' == kind && Last(path') == Last(path) && path' == (if base == ROOT then path else base + path)
  {
    StripEventParts(p);
    var (path, kind) := StripEvent(p).value;
    assert p != ROOT;
    if base != ROOT {
      LastOfPrefixed(base, path);
      StripEventOf(base + path, kind);
      WithEventPrefixed(base, path, kind);
    }
  }

  /** Text put together from a path and a slash-free kind is a path again. */
  lemma EventTextIsPath(path: Path, kindText: string)
    requires StartsWith(path, "/") && '/' !in kindText
    ensures IsPath(WithEvent(path, kindText))
  {
    var s := WithEvent(path, kindText);
    assert s[0] == path[0] == '/';
    assert s[|s| - 1] == if kindText == "" then '.' else kindText[|kindText| - 1];
  }

  lemma EventTextIsNotRoot(p: Path)
    requires StripEvent(p).Some?
    ensures p != ROOT
  {
    StripEventParts(p);
    var (path, kind) := StripEvent(p).value;
    assert |WithEvent(path, kind)| >= 2;
  }

  // ---------------------------------------------------------------- segments

  /** The text goes on behind its first slash with `rest`. */
  ghost predicate Behind(p: Path, rest: string) {
    exists junk: string :: '/' !in junk && p == junk + ("/" + rest)
  }

  lemma SegmentsBehind(p: Path, rest: string)
    requires Behind(p, rest)
    ensures Segments(p) == Split(rest, '/')
  {
    hide Split;
    var junk: string :| '/' !in junk && p == junk + ("/" + rest);
    assert p == junk + ['/'] + rest;
    SplitOfSum(junk, '/', rest);
  }

  lemma HasBehind(p: Path)
    requires Segments(p) != []
    ensures Behind(p, p[IndexOf(p, '/').value + 1..])
  {
    var at := IndexOf(p, '/').value;
    assert p == p[..at] + ("/" + p[at + 1..]);
  }

  /** The first segment ends at the second slash. */
  lemma FirstIff(p: Path, name: string)
    ensures First(p) == Some(name) <==>
            exists tail :: '/' !in name && PieceEnds(tail, '/') && Behind(p, name + tail)
  {
    hide Split, Behind;
    if First(p) == Some(name) {
      HasBehind(p);
      var rest := p[IndexOf(p, '/').value + 1..];
      SegmentsBehind(p, rest);
      SplitHeadIff(rest, '/', name);
      assert rest == name + rest[|name|..];
    }
    forall tail | '/' !in name && PieceEnds(tail, '/') && Behind(p, name + tail)
      ensures First(p) == Some(name)
    {
      SegmentsBehind(p, name + tail);
      SplitHead(name, '/', tail);
    }
  }

  /** And the second one begins behind it. */
  lemma FirstTwoIff(p: Path, first: string, second: string)
    ensures |Segments(p)| >= 2 && Segments(p)[0] == first && Segments(p)[1] == second <==>
            exists tail :: '/' !in first && '/' !in second && PieceEnds(tail, '/') &&
                           Behind(p, first + "/" + (second + tail))
  {
    hide Split, Behind;
    if |Segments(p)| >= 2 && Segments(p)[0] == first && Segments(p)[1] == second {
      HasBehind(p);
      var rest := p[IndexOf(p, '/').value + 1..];
      SegmentsBehind(p, rest);
      SplitBreaks(rest, '/');
      var at := IndexOf(rest, '/').value;
      var more := rest[at + 1..];
      SplitHeadIff(more, '/', second);
      assert more == second + more[|second|..];
      assert first == rest[..at];
      assert rest == first + "/" + (second + more[|second|..]);
    }
    forall tail |
      '/' !in first && '/' !in second && PieceEnds(tail, '/') && Behind(p, first + "/" + (second + tail))
      ensures |Segments(p)| >= 2 && Segments(p)[0] == first && Segments(p)[1] == second
    {
      SegmentsBehind(p, first + "/" + (second + tail));
      assert first + "/" + (second + tail) == first + ['/'] + (second + tail);
      SplitOfSum(first, '/', second + tail);
      SplitHead(second, '/', tail);
    }
  }
}
