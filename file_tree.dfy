/** The directory-tree printer of create_file_structure: a DisplayablePath
    per file or directory, linked to its parent and knowing its depth and
    whether it is the last of its siblings; make_tree lists a directory in
    pre-order with each directory's children filtered and sorted
    case-insensitively; displayable draws one line per node from the chain
    of ancestors. The file system is a value (`Entry`), so `is_dir` and
    `iterdir` read that value. */
module FileTree {
  import opened Wrappers
  import opened Text

  /** The connector before a node's name, and the segment drawn for each
      non-root ancestor: blank under an ancestor that is the last of its
      siblings, a bar otherwise (the class attributes' names have these two
      the other way round; their use decides). */
  const FilenamePrefixMiddle := "├──"
  const FilenamePrefixLast := "└──"
  const ParentPrefixMiddle := "    "
  const ParentPrefixLast := "│   "

  function Connector(isLast: bool): string {
    if isLast then FilenamePrefixLast else FilenamePrefixMiddle
  }

  function Segment(isLast: bool): string {
    if isLast then ParentPrefixMiddle else ParentPrefixLast
  }

  class DisplayablePath {
    const path: string
    const name: string
    const isDir: bool
    const parent: DisplayablePath?
    const isLast: bool
    const depth: nat

    /** The depth of every node on the chain is its parent's plus one, and the
        chain ends at a root of depth 0. */
    ghost predicate Valid()
      decreases depth
    {
      if parent == null then depth == 0 else depth == parent.depth + 1 && parent.Valid()
    }

    constructor (path: string, name: string, isDir: bool, parent: DisplayablePath?, isLast: bool)
      requires parent != null ==> parent.Valid()
      ensures this.path == path && this.name == name && this.isDir == isDir
      ensures this.parent == parent && this.isLast == isLast
      ensures depth == if parent == null then 0 else parent.depth + 1
      ensures Valid()
    {
      this.path := path;
      this.name := name;
      this.isDir := isDir;
      this.parent := parent;
      this.isLast := isLast;
      this.depth := if parent == null then 0 else parent.depth + 1;
    }

    /** displayname: the name, with '/' after a directory's. */
    function DisplayName(): (r: string)
      ensures |name| <= |r| && r[..|name|] == name
      ensures isDir <==> |r| == |name| + 1
      ensures isDir ==> r[|name|] == '/'
    {
      if isDir then name + "/" else name
    }

    /** displayable: a root shows its display name; any other node shows the
        connector and its display name behind one segment per non-root
        ancestor, collected from the parent upwards and joined in reverse. */
    method Displayable() returns (line: string)
      requires Valid()
      ensures line == Line(this)
    {
      if parent == null {
        return DisplayName();
      }
      var filenamePrefix := Connector(isLast);
      var parts := [filenamePrefix + " " + DisplayName()];
      var p := parent;
      ghost var target := Line(this);
      DisplayableStart(this);
      while p != null && p.parent != null
        invariant p != null && p.Valid()
        invariant Segments(p) + JoinReversed(parts) == target
        decreases p.depth
      {
        DisplayableStep(p, parts, target);
        parts := parts + [Segment(p.isLast)];
        p := p.parent;
      }
      assert Segments(p) + JoinReversed(parts) == JoinReversed(parts);
      line := JoinReversed(parts);
    }
  }

  /** `''.join(reversed(parts))`. */
  function JoinReversed(parts: seq<string>): string {
    if |parts| == 0 then "" else parts[|parts| - 1] + JoinReversed(parts[..|parts| - 1])
  }

  /** One more ancestor's segment, appended to the parts and reversed, lands
      in front of the parts collected so far. */
  lemma DisplayableStep(p: DisplayablePath, parts: seq<string>, target: string)
    requires p.Valid() && p.parent != null
    requires Segments(p) + JoinReversed(parts) == target
    ensures Segments(p.parent) + JoinReversed(parts + [Segment(p.isLast)]) == target
  {
    JoinReversedAppend(parts, Segment(p.isLast));
    AppendAssociates(Segments(p.parent), Segment(p.isLast), JoinReversed(parts));
  }

  lemma DisplayableStart(n: DisplayablePath)
    requires n.Valid() && n.parent != null
    ensures Segments(n.parent) + JoinReversed([Connector(n.isLast) + " " + n.DisplayName()]) == Line(n)
  {
    var first := Connector(n.isLast) + " " + n.DisplayName();
    assert JoinReversed([first]) == first + JoinReversed([]);
    AppendAssociates(Segments(n.parent), Connector(n.isLast) + " ", n.DisplayName());
    AppendAssociates(Segments(n.parent), Connector(n.isLast), " ");
  }

  lemma JoinReversedAppend(parts: seq<string>, x: string)
    ensures JoinReversed(parts + [x]) == x + JoinReversed(parts)
  {
    var longer := parts + [x];
    assert longer[..|longer| - 1] == parts;
  }

  /** The segments a node's descendants draw for it and its non-root
      ancestors, outermost first. */
  function Segments(p: DisplayablePath): string
    requires p.Valid()
    decreases p.depth
  {
    if p.parent == null then "" else Segments(p.parent) + Segment(p.isLast)
  }

  /** The line displayable produces for a node. */
  function Line(n: DisplayablePath): string
    requires n.Valid()
  {
    if n.parent == null then n.DisplayName()
    else Segments(n.parent) + Connector(n.isLast) + " " + n.DisplayName()
  }

  lemma {:induction false} SegmentsLength(p: DisplayablePath)
    requires p.Valid()
    ensures |Segments(p)| == 4 * p.depth
    decreases p.depth
  {
    if p.parent != null {
      SegmentsLength(p.parent);
    }
  }

  /** A node's line is four characters per level of depth, then its display
      name: one connector and space for the node, one segment for each
      non-root ancestor. */
  lemma LineLength(n: DisplayablePath)
    requires n.Valid()
    ensures |Line(n)| == 4 * n.depth + |n.DisplayName()|
  {
    if n.parent != null {
      SegmentsLength(n.parent);
    }
  }

  /** Lines line up: below a non-root directory q, every child's line has, in
      the four columns where q's line has its connector, a bar when q's
      connector is '├──' and blanks when it is '└──'. */
  lemma ColumnsAlign(c: DisplayablePath)
    requires c.Valid() && c.parent != null && c.parent.parent != null
    ensures |Line(c.parent)| == 4 * c.parent.depth + |c.parent.DisplayName()|
    ensures |Line(c)| == 4 * c.depth + |c.DisplayName()|
    ensures var q := c.parent;
      var k := 4 * (q.depth - 1);
      && Line(q)[k..k + 3] == Connector(q.isLast)
      && Line(c)[k..k + 4] == Segment(q.isLast)
      && (Line(q)[k..k + 3] == FilenamePrefixMiddle <==> Line(c)[k..k + 4] == ParentPrefixLast)
  {
    var q := c.parent;
    var k := 4 * (q.depth - 1);
    LineLength(q);
    LineLength(c);
    SegmentsLength(q.parent);
    assert q.parent.depth == q.depth - 1;
    assert Segments(q) == Segments(q.parent) + Segment(q.isLast);
    assert Line(q) == Segments(q.parent) + Connector(q.isLast) + " " + q.DisplayName();
    assert Line(c) == Segments(q.parent) + Segment(q.isLast) + Connector(c.isLast) + " " + c.DisplayName();
  }

  // ---------------------------------------------------------------------------
  // make_tree

  /** A file or a directory with its entries in the order iterdir gives them. */
  datatype Entry = File(name: string) | Dir(name: string, children: seq<Entry>)

  /** A child of a directory as make_tree sees it: its path and its entry. */
  datatype Candidate = Candidate(path: string, entry: Entry)

  /** The paths iterdir yields for a directory at `path`: `path/name`. */
  function Candidates(e: Entry, path: string): seq<Candidate>
    requires e.Dir?
  {
    seq(|e.children|, i requires 0 <= i < |e.children| => Candidate(path + "/" + e.children[i].name, e.children[i]))
  }

  const ExcludedPatterns: seq<string> := [".git", ".spyproject", "__pycache__", "__init__"]

  /** _default_criteria: a path is dropped when its name contains any of the
      excluded patterns. */
  function DefaultCriteria(c: Candidate): bool {
    if Contains(c.entry.name, ".git") then false
    else if Contains(c.entry.name, ".spyproject") then false
    else if Contains(c.entry.name, "__pycache__") then false
    else if Contains(c.entry.name, "__init__") then false
    else true
  }

  /** The default criteria keep exactly the names containing none of the
      excluded patterns. */
  lemma DefaultCriteriaExcludes(c: Candidate)
    ensures DefaultCriteria(c) <==> forall j :: 0 <= j < |ExcludedPatterns| ==> !Contains(c.entry.name, ExcludedPatterns[j])
  {
    var n := c.entry.name;
    assert ExcludedPatterns[0] == ".git" && ExcludedPatterns[1] == ".spyproject";
    assert ExcludedPatterns[2] == "__pycache__" && ExcludedPatterns[3] == "__init__";
    if DefaultCriteria(c) {
      forall j | 0 <= j < |ExcludedPatterns|
        ensures !Contains(n, ExcludedPatterns[j])
      {
        assert j == 0 || j == 1 || j == 2 || j == 3;
      }
    }
  }

  /** The generator expression `path for path in root.iterdir() if criteria(path)`. */
  function Filter(s: seq<Candidate>, keep: Candidate -> bool): seq<Candidate> {
    if |s| == 0 then []
    else (if keep(s[0]) then [s[0]] else []) + Filter(s[1..], keep)
  }

  /** Filtering keeps exactly the candidates the criteria accept. */
  lemma {:induction false} FilterKeeps(s: seq<Candidate>, keep: Candidate -> bool)
    ensures forall c :: c in Filter(s, keep) <==> c in s && keep(c)
  {
    if |s| > 0 {
      FilterKeeps(s[1..], keep);
      assert s == [s[0]] + s[1..];
    }
  }

  /** The sort key `str(s).lower()`. */
  function Key(c: Candidate): string {
    Lower(c.path)
  }

  ghost predicate SortedByKey(s: seq<Candidate>) {
    forall i :: 0 <= i < |s| - 1 ==> LessEq(Key(s[i]), Key(s[i + 1]))
  }

  /** Inserts c before the first element whose key is not below c's. */
  function Insert(c: Candidate, t: seq<Candidate>): seq<Candidate> {
    if |t| == 0 then [c]
    else if LessEq(Key(c), Key(t[0])) then [c] + t
    else [t[0]] + Insert(c, t[1..])
  }

  /** Inserting adds c and nothing else, and keeps a sorted list sorted. */
  lemma {:induction false} InsertSorted(c: Candidate, t: seq<Candidate>)
    ensures var r := Insert(c, t);
      && multiset(r) == multiset(t) + multiset{c}
      && |r| == |t| + 1
      && (r[0] == c || (|t| > 0 && r[0] == t[0]))
      && (SortedByKey(t) ==> SortedByKey(r))
  {
    if |t| > 0 && !LessEq(Key(c), Key(t[0])) {
      LessTotal(Key(c), Key(t[0]));
      InsertSorted(c, t[1..]);
      assert t == [t[0]] + t[1..];
    }
  }

  /** `sorted(children, key=...)`: a stable sort by the lower-cased path. */
  function SortByKey(s: seq<Candidate>): seq<Candidate> {
    if |s| == 0 then [] else Insert(s[0], SortByKey(s[1..]))
  }

  /** The sort returns a rearrangement of its input in key order. */
  lemma {:induction false} SortByKeySorts(s: seq<Candidate>)
    ensures multiset(SortByKey(s)) == multiset(s)
    ensures SortedByKey(SortByKey(s))
  {
    if |s| > 0 {
      SortByKeySorts(s[1..]);
      InsertSorted(s[0], SortByKey(s[1..]));
      assert s == [s[0]] + s[1..];
    }
  }

  /** The children make_tree visits, in visiting order: the entries of the
      directory, each once, for which the criteria hold (VisitedChildren). */
  function Children(e: Entry, path: string, keep: Candidate -> bool): (r: seq<Candidate>)
    requires e.Dir?
    ensures forall c :: c in r ==> c.entry in e.children
  {
    var kids := SortByKey(Filter(Candidates(e, path), keep));
    assert forall c :: c in kids ==> c.entry in e.children by {
      forall c | c in kids
        ensures c.entry in e.children
      {
        VisitedIsChild(e, path, keep, c);
      }
    }
    kids
  }

  /** make_tree visits the paths iterdir yields that the criteria accept,
      each as often as iterdir yields it, in key order. */
  lemma VisitedChildren(e: Entry, path: string, keep: Candidate -> bool)
    requires e.Dir?
    ensures var kids := Children(e, path, keep);
      && multiset(kids) == multiset(Filter(Candidates(e, path), keep))
      && SortedByKey(kids)
      && forall c :: c in kids <==> c in Candidates(e, path) && keep(c)
  {
    var kept := Filter(Candidates(e, path), keep);
    SortByKeySorts(kept);
    FilterKeeps(Candidates(e, path), keep);
    forall c
      ensures c in SortByKey(kept) <==> c in kept
    {
      assert c in SortByKey(kept) <==> c in multiset(SortByKey(kept));
      assert c in kept <==> c in multiset(kept);
    }
  }

  lemma VisitedIsChild(e: Entry, path: string, keep: Candidate -> bool, c: Candidate)
    requires e.Dir? && c in SortByKey(Filter(Candidates(e, path), keep))
    ensures c.entry in e.children && keep(c)
  {
    var all := Candidates(e, path);
    var kept := Filter(all, keep);
    SortByKeySorts(kept);
    FilterKeeps(all, keep);
    assert c in multiset(SortByKey(kept));
    assert c in multiset(kept);
    assert c in all;
    var i :| 0 <= i < |all| && all[i] == c;
    assert c.entry == e.children[i];
  }

  /** Siblings compare by their names: their paths share the directory's path
      and '/', so the lower-cased paths order as the lower-cased names do. */
  lemma KeyOrderIsNameOrder(dir: string, a: Entry, b: Entry)
    ensures LessEq(Key(Candidate(dir + "/" + a.name, a)), Key(Candidate(dir + "/" + b.name, b)))
        <==> LessEq(Lower(a.name), Lower(b.name))
  {
    var p := Lower(dir + "/");
    LowerConcat(dir + "/", a.name);
    LowerConcat(dir + "/", b.name);
    LessCommonPrefix(p, Lower(a.name), Lower(b.name));
    if p + Lower(a.name) == p + Lower(b.name) {
      assert Lower(a.name) == (p + Lower(a.name))[|p|..];
      assert Lower(b.name) == (p + Lower(b.name))[|p|..];
    }
  }

  /** One line of make_tree's output, before drawing. */
  datatype Row = Row(path: string, name: string, isDir: bool, depth: nat, isLast: bool)

  /** make_tree in pre-order: the node itself, then, for a directory, the
      subtree of each child in visiting order, the last child flagged. */
  function Rows(e: Entry, path: string, depth: nat, isLast: bool, keep: Candidate -> bool): (r: seq<Row>)
    ensures |r| > 0 && r[0] == Row(path, e.name, e.Dir?, depth, isLast)
    decreases e
  {
    [Row(path, e.name, e.Dir?, depth, isLast)]
      + (if e.Dir? then ChildRows(e, path, 0, depth + 1, keep) else [])
  }

  /** The subtrees of the visited children of e from the i-th on. */
  function ChildRows(e: Entry, path: string, i: nat, depth: nat, keep: Candidate -> bool): seq<Row>
    requires e.Dir?
    decreases e, |Children(e, path, keep)| - i
  {
    var kids := Children(e, path, keep);
    if i >= |kids| then []
    else Rows(kids[i].entry, kids[i].path, depth, i + 1 == |kids|, keep) + ChildRows(e, path, i + 1, depth, keep)
  }

  /** Everything listed after a node is below it. */
  lemma {:induction false} RowsDeeper(e: Entry, path: string, depth: nat, isLast: bool, keep: Candidate -> bool)
    ensures forall j :: 0 < j < |Rows(e, path, depth, isLast, keep)| ==> Rows(e, path, depth, isLast, keep)[j].depth > depth
    decreases e
  {
    var r := Rows(e, path, depth, isLast, keep);
    if e.Dir? {
      var below := ChildRows(e, path, 0, depth + 1, keep);
      ChildRowsDeeper(e, path, 0, depth + 1, keep);
      assert r == [r[0]] + below;
      forall j | 0 < j < |r|
        ensures r[j].depth > depth
      {
        assert r[j] == below[j - 1];
      }
    } else {
      assert |r| == 1;
    }
  }

  lemma {:induction false} ChildRowsDeeper(e: Entry, path: string, i: nat, depth: nat, keep: Candidate -> bool)
    requires e.Dir?
    ensures forall j :: 0 <= j < |ChildRows(e, path, i, depth, keep)| ==> ChildRows(e, path, i, depth, keep)[j].depth >= depth
    decreases e, |Children(e, path, keep)| - i
  {
    var kids := Children(e, path, keep);
    var r := ChildRows(e, path, i, depth, keep);
    if i < |kids| {
      var head := Rows(kids[i].entry, kids[i].path, depth, i + 1 == |kids|, keep);
      var rest := ChildRows(e, path, i + 1, depth, keep);
      assert r == head + rest;
      RowsDeeper(kids[i].entry, kids[i].path, depth, i + 1 == |kids|, keep);
      ChildRowsDeeper(e, path, i + 1, depth, keep);
      forall j | 0 <= j < |r|
        ensures r[j].depth >= depth
      {
        if j < |head| {
          assert r[j] == head[j];
        } else {
          assert r[j] == rest[j - |head|];
        }
      }
    }
  }

  /** The rows from child i on: child i's subtree, headed by child i at
      `depth` and flagged when it is the last, with everything else in it
      deeper, then the rows from child i + 1 on. */
  lemma ChildRowsSplit(e: Entry, path: string, i: nat, depth: nat, keep: Candidate -> bool)
    requires e.Dir? && i < |Children(e, path, keep)|
    ensures var kids := Children(e, path, keep);
      var head := Rows(kids[i].entry, kids[i].path, depth, i + 1 == |kids|, keep);
      && ChildRows(e, path, i, depth, keep) == head + ChildRows(e, path, i + 1, depth, keep)
      && |head| > 0 && head[0].depth == depth && head[0].isLast == (i + 1 == |kids|)
      && forall j :: 0 < j < |head| ==> head[j].depth > depth
  {
    var kids := Children(e, path, keep);
    RowsDeeper(kids[i].entry, kids[i].path, depth, i + 1 == |kids|, keep);
  }

  /** Among a directory's children exactly the last is flagged: after a
      flagged child no sibling follows (here), and after an unflagged one a
      sibling does (UnflaggedChildHasSibling). */
  lemma {:induction false} FlaggedChildIsLast(e: Entry, path: string, i: nat, depth: nat, keep: Candidate -> bool)
    requires e.Dir?
    ensures NothingAfterLast(ChildRows(e, path, i, depth, keep), depth)
    decreases |Children(e, path, keep)| - i
  {
    var kids := Children(e, path, keep);
    var r := ChildRows(e, path, i, depth, keep);
    if i < |kids| {
      var head := Rows(kids[i].entry, kids[i].path, depth, i + 1 == |kids|, keep);
      var rest := ChildRows(e, path, i + 1, depth, keep);
      ChildRowsSplit(e, path, i, depth, keep);
      FlaggedChildIsLast(e, path, i + 1, depth, keep);
      if i + 1 == |kids| {
        assert rest == [];
      }
      forall j, l | 0 <= j < l < |r| && r[j].depth == depth && r[j].isLast
        ensures r[l].depth > depth
      {
        if j >= |head| {
          assert r[j] == rest[j - |head|] && r[l] == rest[l - |head|];
        } else {
          assert r[j] == head[j] && r[l] == head[l];
        }
      }
    }
  }

  lemma {:induction false} UnflaggedChildHasSibling(e: Entry, path: string, i: nat, depth: nat, keep: Candidate -> bool)
    requires e.Dir?
    ensures SiblingAfterOthers(ChildRows(e, path, i, depth, keep), depth)
    decreases |Children(e, path, keep)| - i
  {
    var kids := Children(e, path, keep);
    if i < |kids| {
      var head := Rows(kids[i].entry, kids[i].path, depth, i + 1 == |kids|, keep);
      var rest := ChildRows(e, path, i + 1, depth, keep);
      ChildRowsSplit(e, path, i, depth, keep);
      UnflaggedChildHasSibling(e, path, i + 1, depth, keep);
      if i + 1 < |kids| {
        ChildRowsSplit(e, path, i + 1, depth, keep);
      }
      SiblingsConcat(head, rest, depth);
    }
  }

  /** A subtree headed at `depth` and deeper below, followed by rows where
      every unflagged row at `depth` has a sibling: when the head is
      unflagged and the rows after start at `depth`, the whole keeps that. */
  lemma SiblingsConcat(head: seq<Row>, rest: seq<Row>, depth: nat)
    requires |head| > 0 && head[0].depth == depth
    requires forall j :: 0 < j < |head| ==> head[j].depth > depth
    requires SiblingAfterOthers(rest, depth)
    requires !head[0].isLast ==> |rest| > 0 && rest[0].depth == depth
    ensures SiblingAfterOthers(head + rest, depth)
  {
    var r := head + rest;
    forall j | 0 <= j < |r| && r[j].depth == depth && !r[j].isLast
      ensures Sibling(r, j, depth)
    {
      if j >= |head| {
        assert r[j] == rest[j - |head|];
        var l' :| j - |head| < l' < |rest| && rest[l'].depth == depth;
        assert r[l' + |head|] == rest[l'];
      } else {
        assert r[j] == head[j];
        assert r[|head|] == rest[0];
      }
    }
  }

  /** No row at `depth` or above follows a flagged row at `depth`. */
  ghost predicate NothingAfterLast(r: seq<Row>, depth: nat) {
    forall j, l :: 0 <= j < l < |r| && r[j].depth == depth && r[j].isLast ==> r[l].depth > depth
  }

  /** Every unflagged row at `depth` has a later row at `depth`. */
  ghost predicate SiblingAfterOthers(r: seq<Row>, depth: nat) {
    forall j :: 0 <= j < |r| && r[j].depth == depth && !r[j].isLast ==> Sibling(r, j, depth)
  }

  /** A row at `depth` further down the listing than row j. */
  ghost predicate Sibling(r: seq<Row>, j: nat, depth: nat) {
    exists l :: j < l < |r| && r[l].depth == depth
  }

  function RowOf(n: DisplayablePath): Row {
    Row(n.path, n.name, n.isDir, n.depth, n.isLast)
  }

  function RowsOf(nodes: seq<DisplayablePath>): seq<Row> {
    if |nodes| == 0 then [] else RowsOf(nodes[..|nodes| - 1]) + [RowOf(nodes[|nodes| - 1])]
  }

  lemma {:induction false} RowsOfAppend(a: seq<DisplayablePath>, b: seq<DisplayablePath>)
    ensures RowsOf(a + b) == RowsOf(a) + RowsOf(b)
    decreases |b|
  {
    if |b| > 0 {
      var b' := b[..|b| - 1];
      assert (a + b)[..|a + b| - 1] == a + b';
      RowsOfAppend(a, b');
    } else {
      assert a + b == a;
    }
  }

  /** The directory's own node comes first, its children's rows after it. */
  lemma MakeTreeStart(root: Entry, path: string, depth: nat, isLast: bool, keep: Candidate -> bool,
                      n: DisplayablePath, below: seq<DisplayablePath>)
    requires root.Dir? && RowOf(n) == Row(path, root.name, true, depth, isLast)
    requires RowsOf(below) == ChildRows(root, path, 0, depth + 1, keep)
    ensures RowsOf([n] + below) == Rows(root, path, depth, isLast, keep)
  {
    RowsOfAppend([n], below);
    assert [n][..0] == [];
  }

  /** A file is listed as its own node and nothing more. */
  lemma LeafRows(e: Entry, path: string, depth: nat, isLast: bool, keep: Candidate -> bool, n: DisplayablePath)
    requires e.File? && RowOf(n) == Row(path, e.name, false, depth, isLast)
    ensures RowsOf([n]) == Rows(e, path, depth, isLast, keep)
  {
    assert [n][..0] == [];
  }

  /** The subtree of child t, appended to the nodes, takes the place of its
      rows at the head of the rows still to come. */
  lemma MakeTreeStep(root: Entry, path: string, children: seq<Candidate>, t: nat, depth: nat,
                     keep: Candidate -> bool, nodes: seq<DisplayablePath>, sub: seq<DisplayablePath>, target: seq<Row>)
    requires root.Dir? && children == Children(root, path, keep)
    requires t < |children|
    requires RowsOf(sub) == Rows(children[t].entry, children[t].path, depth, t + 1 == |children|, keep)
    requires RowsOf(nodes) + ChildRows(root, path, t, depth, keep) == target
    ensures RowsOf(nodes + sub) + ChildRows(root, path, t + 1, depth, keep) == target
  {
    RowsOfAppend(nodes, sub);
    AppendAssociates(RowsOf(nodes), RowsOf(sub), ChildRows(root, path, t + 1, depth, keep));
  }

  lemma AppendAssociates<T>(a: seq<T>, b: seq<T>, c: seq<T>)
    ensures (a + b) + c == a + (b + c)
  {
  }

  /** make_tree: the node for the directory, then the subtrees of its
      visited children (MakeChildren). The criteria default to
      _default_criteria and are passed down unchanged. */
  method MakeTree(root: Entry, path: string, parent: DisplayablePath?, isLast: bool,
                  criteria: Option<Candidate -> bool>) returns (nodes: seq<DisplayablePath>)
    requires root.Dir?
    requires parent != null ==> parent.Valid()
    ensures RowsOf(nodes) == Rows(root, path, if parent == null then 0 else parent.depth + 1, isLast,
                                  criteria.GetOr(DefaultCriteria))
    ensures |nodes| > 0 && nodes[0].parent == parent
    ensures forall i :: 0 <= i < |nodes| ==> nodes[i].Valid()
    decreases root, 2
  {
    var keep := criteria.GetOr(DefaultCriteria);
    var displayableRoot := new DisplayablePath(path, root.name, true, parent, isLast);
    var children := Children(root, path, keep);
    var below := MakeChildren(root, path, children, displayableRoot, keep);
    nodes := [displayableRoot] + below;
    MakeTreeStart(root, path, displayableRoot.depth, isLast, keep, displayableRoot, below);
  }

  /** The loop of make_tree: for each visited child in turn, its subtree (a
      directory) or its node (a file), the last one flagged by comparing a
      running count with the number of children. */
  method MakeChildren(root: Entry, path: string, children: seq<Candidate>, displayableRoot: DisplayablePath,
                      keep: Candidate -> bool) returns (nodes: seq<DisplayablePath>)
    requires root.Dir? && children == Children(root, path, keep) && displayableRoot.Valid()
    ensures RowsOf(nodes) == ChildRows(root, path, 0, displayableRoot.depth + 1, keep)
    ensures forall i :: 0 <= i < |nodes| ==> nodes[i].Valid()
    decreases root, 1
  {
    nodes := [];
    ghost var target := ChildRows(root, path, 0, displayableRoot.depth + 1, keep);
    var count := 1;
    assert forall c :: c in children ==> c.entry in root.children;
    for t := 0 to |children|
      invariant forall i :: 0 <= i < |nodes| ==> nodes[i].Valid()
      invariant count == t + 1
      invariant RowsOf(nodes) + ChildRows(root, path, t, displayableRoot.depth + 1, keep) == target
    {
      var sub := MakeChild(root, children, t, count == |children|, displayableRoot, keep);
      MakeTreeStep(root, path, children, t, displayableRoot.depth + 1, keep, nodes, sub, target);
      AllValidAppend(nodes, sub);
      nodes := nodes + sub;
      count := count + 1;
    }
    assert ChildRows(root, path, |children|, displayableRoot.depth + 1, keep) == [];
  }

  lemma AllValidAppend(a: seq<DisplayablePath>, b: seq<DisplayablePath>)
    requires forall i :: 0 <= i < |a| ==> a[i].Valid()
    requires forall i :: 0 <= i < |b| ==> b[i].Valid()
    ensures forall i :: 0 <= i < |a + b| ==> (a + b)[i].Valid()
  {
  }

  /** One pass of make_tree's loop: a directory child's whole subtree, or a
      file child's node, below the directory's node. */
  method MakeChild(root: Entry, children: seq<Candidate>, t: nat, last: bool,
                   displayableRoot: DisplayablePath, keep: Candidate -> bool) returns (sub: seq<DisplayablePath>)
    requires root.Dir? && forall c :: c in children ==> c.entry in root.children
    requires t < |children| && displayableRoot.Valid()
    ensures RowsOf(sub) == Rows(children[t].entry, children[t].path, displayableRoot.depth + 1, last, keep)
    ensures forall i :: 0 <= i < |sub| ==> sub[i].Valid()
    decreases root, 0
  {
    var child := children[t];
    if child.entry.Dir? {
      assert Some(keep).GetOr(DefaultCriteria) == keep;
      sub := MakeTree(child.entry, child.path, displayableRoot, last, Some(keep));
    } else {
      var leaf := new DisplayablePath(child.path, child.entry.name, false, displayableRoot, last);
      sub := [leaf];
      LeafRows(child.entry, child.path, displayableRoot.depth + 1, last, keep, leaf);
    }
  }
}
