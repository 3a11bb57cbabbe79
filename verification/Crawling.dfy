/** The recursive crawl reaches exactly the files with no excluded folder at or above
    them, and counts each of them once. */
module Crawling {
  import opened Wrappers
  import opened SetSizes
  import opened FileTrees
  import opened LoadBalance
  import opened MonitorModel

  /*** Text prefix and path prefix ***/

  ghost predicate AllPlain(env: Env, folders: set<Path>)
  {
    && env.profile.excluded == (set a | a in folders :: FolderText(a))
    && (forall a :: a in folders ==> Plain(a))
    && (forall q :: q in env.world.files ==> Plain(q))
  }

  /** The textual test finds exactly the excluded folders at or above a file. */
  lemma ExclusionIsAncestry(env: Env, folders: set<Path>, q: Path)
    requires AllPlain(env, folders) && q in env.world.files
    ensures IsExcluded(env, q) <==> exists a :: a in folders && a <= q && (a == q ==> IsFolder(env.world, q))
  {
    forall a | a in folders
      ensures FolderText(a) <= TestedText(env.world, q) <==> a <= q && (a == q ==> IsFolder(env.world, q))
    {
      FolderPrefixIsAncestor(a, q);
      FilePrefixIsInside(a, q);
    }
    if IsExcluded(env, q) {
      var f :| f in env.profile.excluded && f <= TestedText(env.world, q);
      var a :| a in folders && FolderText(a) == f;
    }
    if a :| a in folders && a <= q && (a == q ==> IsFolder(env.world, q)) {
      assert FolderText(a) in env.profile.excluded;
    }
  }

  /*** One level of the recursion ***/

  lemma {:induction false} StepsInside(p: Path, q: Path)
    requires p < q
    ensures Steps(p) + "/" <= Steps(q)
  {
    if p == [] {
      assert Steps(q) == "/" + (q[0] + Steps(q[1..]));
    } else {
      StepsInside(p[1..], q[1..]);
      assert Steps(p) + "/" == "/" + p[0] + (Steps(p[1..]) + "/");
      PrefixedPrefix("/" + p[0], Steps(p[1..]) + "/", Steps(q[1..]));
    }
  }

  lemma TextInside(p: Path, q: Path)
    requires p < q
    ensures FolderText(p) <= Text(q)
  {
    StepsInside(p, q);
    assert FolderText(p) == FILE_PREFIX + (Steps(p) + "/");
    PrefixedPrefix(FILE_PREFIX, Steps(p) + "/", Steps(q));
  }

  /** What is inside an excluded folder is excluded. */
  lemma ExclusionInherited(env: Env, p: Path, q: Path)
    requires IsFolder(env.world, p) && p <= q && IsExcluded(env, p)
    ensures IsExcluded(env, q)
  {
    if p != q {
      TextInside(p, q);
      var f :| f in env.profile.excluded && f <= FolderText(p);
      assert FolderText(p) <= FolderText(q);
      assert f <= TestedText(env.world, q);
    }
  }

  lemma FilesHaveNothingInside(w: World, p: Path, q: Path)
    requires WellFormed(w) && p in w.files && q in w.files && p < q
    ensures w.files[p].folder && q[..|p| + 1] in w.files
  {
    assert q[..|p|] == p && Cuts(q, |p|);
  }

  /** A file, or a folder that cannot be listed. */
  lemma VisitedLeaf(env: Env, p: Path)
    requires WellFormed(env.world) && p in env.world.files && p !in env.world.listings && !IsExcluded(env, p)
    ensures Visited(env, p) == {p}
  {
    forall q | q in Visited(env, p)
      ensures q == p
    {
      assert q[..|p|] == p;
      if q != p {
        FilesHaveNothingInside(env.world, p, q);
      }
    }
  }

  lemma VisitedExcluded(env: Env, p: Path)
    requires WellFormed(env.world) && p in env.world.files && IsExcluded(env, p)
    ensures Visited(env, p) == {}
  {
    forall q | q in Visited(env, p)
      ensures false
    {
      if q != p {
        FilesHaveNothingInside(env.world, p, q);
      }
      ExclusionInherited(env, p, q);
    }
  }

  /** What has been visited of folder `p` after its first `i` children. */
  function Seen(env: Env, p: Path, i: nat): set<Path>
    requires p in env.world.listings && i <= |env.world.listings[p]|
  {
    if i == 0 then {p} else Seen(env, p, i - 1) + Visited(env, env.world.listings[p][i - 1])
  }

  lemma {:induction false} SeenIs(env: Env, p: Path, i: nat)
    requires p in env.world.listings && i <= |env.world.listings[p]|
    ensures forall q :: q in Seen(env, p, i) <==>
              q == p || exists j :: 0 <= j < i && q in Visited(env, env.world.listings[p][j])
  {
    if i > 0 {
      SeenIs(env, p, i - 1);
    }
  }

  lemma ChildVisited(env: Env, p: Path, c: Path, q: Path)
    requires p in env.world.listings && IsChild(p, c) && c <= q
    ensures Listable(env.world, p, q) <==> Listable(env.world, c, q)
  {
    assert q[..|p|] == p;
  }

  lemma VisitedFolder(env: Env, p: Path)
    requires WellFormed(env.world) && p in env.world.listings && !IsExcluded(env, p)
    ensures Visited(env, p) == Seen(env, p, |env.world.listings[p]|)
  {
    var children := env.world.listings[p];
    SeenIs(env, p, |children|);
    forall q
      ensures q in Visited(env, p) <==> q in Seen(env, p, |children|)
    {
      if q in Visited(env, p) && q != p {
        FilesHaveNothingInside(env.world, p, q);
        var c := q[..|p| + 1];
        assert IsChild(p, c);
        ChildVisited(env, p, c, q);
        assert c in children;
      }
      if j :| 0 <= j < |children| && q in Visited(env, children[j]) {
        ChildVisited(env, p, children[j], q);
      }
    }
  }

  /** The subtrees of different children do not meet. */
  lemma SeenApart(env: Env, p: Path, i: nat)
    requires WellFormed(env.world) && p in env.world.listings && i < |env.world.listings[p]|
    ensures Seen(env, p, i) !! Visited(env, env.world.listings[p][i])
  {
    var children := env.world.listings[p];
    SeenIs(env, p, i);
    forall q, j | q in Visited(env, children[i]) && 0 <= j < i
      ensures q !in Visited(env, children[j])
    {
      ChildrenApart(p, children[i], children[j], q);
    }
  }

  lemma ChildrenApart(p: Path, c: Path, d: Path, q: Path)
    requires IsChild(p, c) && IsChild(p, d) && c != d && c <= q
    ensures !(d <= q)
  {
    assert q[..|p| + 1] == c;
  }

  /*** Registering and counting in parts ***/

  lemma RegisteredInTwo(env: Env, m: Files, a: set<Path>, b: set<Path>)
    ensures Registered(env, Registered(env, m, a), b) == Registered(env, m, a + b)
  {}

  lemma CountedInTwo(env: Env, c: Counts, a: set<Path>, b: set<Path>)
    requires a !! b
    ensures Counted(env, Counted(env, c, a), b) == Counted(env, c, a + b)
  {
    assert FoldersIn(env, a + b) == FoldersIn(env, a) + FoldersIn(env, b);
    assert FilesIn(env, a + b) == FilesIn(env, a) + FilesIn(env, b);
    assert EligibleIn(env, a + b) == EligibleIn(env, a) + EligibleIn(env, b);
  }

  lemma RegisteredOne(env: Env, m: Files, p: Path)
    requires p in env.world.files
    ensures Registered(env, m, {p})
            == if Monitorable(env.profile.extensions, env.world, p) then AddFile(env, m, p) else m
  {}

  lemma CountedOne(env: Env, c: Counts, p: Path)
    requires p in env.world.files
    ensures Counted(env, c, {p})
            == if IsFolder(env.world, p) then c.(folders := c.folders + 1)
               else if Eligible(env.profile.extensions, p) then
                 c.(files := c.files + 1, encountered := c.encountered + 1)
               else c.(encountered := c.encountered + 1)
  {
    if IsFolder(env.world, p) {
      assert FoldersIn(env, {p}) == {p} && EligibleIn(env, {p}) == {} && FilesIn(env, {p}) == {};
    } else {
      assert FoldersIn(env, {p}) == {} && FilesIn(env, {p}) == {p};
      assert EligibleIn(env, {p}) == if Eligible(env.profile.extensions, p) then {p} else {};
    }
  }

  lemma NothingRegistered(env: Env, m: Files, c: Counts)
    ensures Registered(env, m, {}) == m && Counted(env, c, {}) == c
  {
    assert FoldersIn(env, {}) == {} && FilesIn(env, {}) == {} && EligibleIn(env, {}) == {};
  }

  lemma RegisteredKeys(env: Env, m: Files, s: set<Path>)
    requires s <= env.world.files.Keys
    ensures Registered(env, m, s).Keys
            == m.Keys + set q | q in s && (IsFolder(env.world, q) || Eligible(env.profile.extensions, q))
  {}

  /** Where every folder can be listed, a crawl of `p` registers exactly the folders and
      eligible files of the tree with no excluded folder at or above them, and the
      counters grow by the numbers of such nodes. */
  lemma CrawlExactness(env: Env, folders: set<Path>, s: State, p: Path)
    requires WellFormed(env.world) && AllPlain(env, folders) && p in env.world.files
    requires forall q :: IsFolder(env.world, q) ==> q in env.world.listings
    ensures
      var t := ProcessAdd(env, s, p);
      var open := set q | q in env.world.files && p <= q
                          && !exists a :: a in folders && a <= q && (a == q ==> IsFolder(env.world, q));
      && t.fileMap.Keys
         == s.fileMap.Keys + set q | q in open && (IsFolder(env.world, q) || Eligible(env.profile.extensions, q))
      && t.counts.folders == s.counts.folders + |set q | q in open && IsFolder(env.world, q)|
      && t.counts.encountered == s.counts.encountered + |set q | q in open && !IsFolder(env.world, q)|
      && t.counts.files
         == s.counts.files + |set q | q in open && !IsFolder(env.world, q) && Eligible(env.profile.extensions, q)|
  {
    var open := set q | q in env.world.files && p <= q
                        && !exists a :: a in folders && a <= q && (a == q ==> IsFolder(env.world, q));
    forall q | q in env.world.files && p <= q
      ensures Listable(env.world, p, q)
      ensures IsExcluded(env, q) <==> exists a :: a in folders && a <= q && (a == q ==> IsFolder(env.world, q))
    {
      ExclusionIsAncestry(env, folders, q);
      AllListable(env.world, p, q);
    }
    assert Visited(env, p) == open;
    RegisteredKeys(env, s.fileMap, open);
    CountedSets(env, s.counts, open);
  }

  /** What a crawl of `p` is to find: the nodes inside with no excluded folder at or above
      them, if they are folders or eligible. */
  predicate ToBeFound(env: Env, folders: set<Path>, p: Path, q: Path)
  {
    && q in env.world.files && p <= q
    && (forall a :: a in folders && a <= q ==> a == q && !IsFolder(env.world, q))
    && (IsFolder(env.world, q) || Eligible(env.profile.extensions, q))
  }

  lemma FoundIsVisited(env: Env, folders: set<Path>, p: Path, q: Path)
    requires WellFormed(env.world) && AllPlain(env, folders) && p in env.world.files
    requires forall x :: IsFolder(env.world, x) ==> x in env.world.listings
    ensures ToBeFound(env, folders, p, q) <==> q in Visited(env, p) && Monitorable(env.profile.extensions, env.world, q)
  {
    if q in env.world.files && p <= q {
      ExclusionIsAncestry(env, folders, q);
      AllListable(env.world, p, q);
    }
  }

  /** What deleting does to the counters: an existing folder is one folder less, an eligible
      file, or what has vanished under an eligible name, one file less. */
  lemma DeletionCounts(env: Env, g: Registry, p: Path) returns (h: Registry)
    requires p !in env.world.broken
    ensures h == Delete(env, g, p)
    ensures h.counts.folders == g.counts.folders - if p in env.world.files && env.world.files[p].folder then 1 else 0
    ensures p !in env.world.files || !env.world.files[p].folder ==>
              && h.counts.files == g.counts.files - (if Eligible(env.profile.extensions, p) then 1 else 0)
              && h.counts.encountered == g.counts.encountered + 1
    ensures p in env.world.files && env.world.files[p].folder ==>
              h.counts.files == g.counts.files && h.counts.encountered == g.counts.encountered
  {
    h := Delete(env, g, p);
  }

  /** A node without anything inside is added, vanishes and is deleted. For an eligible file
      the counters of folders and files are as before; a folder stays counted. */
  lemma VanishedFolderStaysCounted(before: Env, after: Env, g: Registry, p: Path) returns (h: Registry)
    requires WellFormed(before.world) && p in before.world.files && !IsExcluded(before, p)
    requires forall q :: q in before.world.files && p <= q ==> q == p
    requires after.profile == before.profile && p !in after.world.files && p !in after.world.broken
    ensures h == Delete(after, Add(before, g, p), p)
    ensures h.counts.folders == g.counts.folders + if before.world.files[p].folder then 1 else 0
    ensures h.counts.files == g.counts.files - if before.world.files[p].folder && Eligible(before.profile.extensions, p) then 1 else 0
  {
    var added := AddedAlone(before, g, p);
    h := DeletionCounts(after, added, p);
  }

  lemma AddedAlone(env: Env, g: Registry, p: Path) returns (h: Registry)
    requires WellFormed(env.world) && p in env.world.files && !IsExcluded(env, p)
    requires forall q :: q in env.world.files && p <= q ==> q == p
    ensures h == Add(env, g, p)
    ensures h.counts.folders == g.counts.folders + if env.world.files[p].folder then 1 else 0
    ensures h.counts.files
            == g.counts.files + if !env.world.files[p].folder && Eligible(env.profile.extensions, p) then 1 else 0
  {
    h := Add(env, g, p);
    OnlyItself(env, p);
    CountedAlone(env, g.counts, p);
  }

  lemma OnlyItself(env: Env, p: Path)
    requires p in env.world.files && !IsExcluded(env, p)
    requires forall q :: q in env.world.files && p <= q ==> q == p
    ensures Visited(env, p) == {p}
  {}

  lemma CountedAlone(env: Env, c: Counts, p: Path)
    requires p in env.world.files
    ensures Counted(env, c, {p}).folders == c.folders + if env.world.files[p].folder then 1 else 0
    ensures Counted(env, c, {p}).files
            == c.files + if !env.world.files[p].folder && Eligible(env.profile.extensions, p) then 1 else 0
  {
    assert FoldersIn(env, {p}) == if IsFolder(env.world, p) then {p} else {};
    assert EligibleIn(env, {p}) == if !IsFolder(env.world, p) && Eligible(env.profile.extensions, p) then {p} else {};
  }

  lemma CountedSets(env: Env, c: Counts, s: set<Path>)
    requires s <= env.world.files.Keys
    ensures Counted(env, c, s)
            == Counts(c.folders + |set q | q in s && IsFolder(env.world, q)|,
                      c.files + |set q | q in s && !IsFolder(env.world, q) && Eligible(env.profile.extensions, q)|,
                      c.encountered + |set q | q in s && !IsFolder(env.world, q)|)
  {
    assert FoldersIn(env, s) == set q | q in s && IsFolder(env.world, q);
    assert FilesIn(env, s) == set q | q in s && !IsFolder(env.world, q);
    assert EligibleIn(env, s) == set q | q in s && !IsFolder(env.world, q) && Eligible(env.profile.extensions, q);
  }

  lemma AllListable(w: World, p: Path, q: Path)
    requires WellFormed(w) && p in w.files && q in w.files && p <= q
    requires forall f :: IsFolder(w, f) ==> f in w.listings
    ensures Listable(w, p, q)
  {
    ExistsBetween(w, p, q, |q|);
    forall k | |p| <= k < |q|
      ensures q[..k] in w.listings
    {
      ExistsBetween(w, p, q, k);
      assert Cuts(q, k);
    }
  }

  lemma {:induction false} ExistsBetween(w: World, p: Path, q: Path, k: nat)
    requires WellFormed(w) && p in w.files && q in w.files && p <= q && |p| <= k <= |q|
    ensures q[..k] in w.files
    decreases k
  {
    if k == |p| {
      assert q[..k] == p;
    } else {
      ExistsBetween(w, p, q, k - 1);
      assert Cuts(q, k - 1);
    }
  }

  /*** Placing whole trees on monitors ***/

  /** The monitors' maps and the watcher's counters. */
  datatype Load = Load(maps: seq<Files>, counts: Counts)

  /** The tree of `p` goes to monitor `k`. */
  function Assigned(env: Env, l: Load, p: Path, k: nat): Load
    requires k < |l.maps|
  {
    Load(l.maps[k := Registered(env, l.maps[k], Visited(env, p))], Counted(env, l.counts, Visited(env, p)))
  }

  /** processFile for an included folder: unless it is excluded, its tree goes to the
      monitor with the fewest entries. */
  function Place(env: Env, l: Load, p: Path): (r: Load)
    requires l.maps != []
    ensures |r.maps| == |l.maps|
  {
    if IsExcluded(env, p) then l else Assigned(env, l, p, LeastLoaded(l.maps))
  }

  /** An included folder that is excluded too is passed over with all that is in it:
      nothing of it is placed or counted. */
  lemma ExcludedPassedOver(env: Env, l: Load, a: Path, q: Path) returns (placed: Load)
    requires WellFormed(env.world) && l.maps != [] && FolderText(a) in env.profile.excluded
    requires IsFolder(env.world, a) && a <= q && q in env.world.files
    ensures placed == Place(env, l, q) && placed == l && Visited(env, q) == {}
  {
    assert IsExcluded(env, a);
    ExclusionInherited(env, a, q);
    VisitedExcluded(env, q);
    placed := Place(env, l, q);
  }

  /** A tree to be placed, in the file system as it then is. */
  datatype Placement = Placement(env: Env, path: Path)

  /** A run that places one tree after the other; a name without a tree changes nothing. */
  ghost predicate CrawlRun(loads: seq<Load>, placements: seq<Option<Placement>>)
  {
    && |loads| == |placements| + 1
    && (forall i :: 0 <= i < |loads| ==> loads[i].maps != [])
    && (forall i :: 0 <= i < |placements| ==>
          loads[i + 1] == match placements[i]
                          case None => loads[i]
                          case Some(t) => Place(t.env, loads[i], t.path))
  }

  function Worthwhile(env: Env, s: set<Path>): set<Path>
  {
    set q | q in s && Monitorable(env.profile.extensions, env.world, q)
  }

  /** The number of entries that a tree makes in an empty map. */
  function TreeSize(env: Env, p: Path): nat
  {
    |Worthwhile(env, Visited(env, p))|
  }

  lemma RegisteredSize(env: Env, m: Files, p: Path) returns (n: Files)
    ensures n == Registered(env, m, Visited(env, p))
    ensures |m| <= |n| <= |m| + TreeSize(env, p)
  {
    n := RegisteredSizeOf(env, m, Visited(env, p));
  }

  lemma RegisteredSizeOf(env: Env, m: Files, s: set<Path>) returns (n: Files)
    requires s <= env.world.files.Keys
    ensures n == Registered(env, m, s)
    ensures |m| <= |n| <= |m| + |Worthwhile(env, s)|
  {
    n := Registered(env, m, s);
    WorthwhileKeys(env, m, s);
    KeySizes(m, n, Worthwhile(env, s));
  }

  lemma WorthwhileKeys(env: Env, m: Files, s: set<Path>)
    requires s <= env.world.files.Keys
    ensures Registered(env, m, s).Keys == m.Keys + Worthwhile(env, s)
  {}

  lemma KeySizes(m: Files, n: Files, added: set<Path>)
    requires n.Keys == m.Keys + added
    ensures |m| <= |n| <= |m| + |added|
  {
    SubsetSize(m.Keys, n.Keys);
    UnionSize(m.Keys, added);
    assert |m| == |m.Keys| && |n| == |n.Keys|;
  }

  lemma UnionSize(a: set<Path>, b: set<Path>)
    ensures |a + b| <= |a| + |b|
  {
    assert a + b == a + (b - a);
    SubsetSize(b - a, b);
  }

  lemma PlaceKeepsBalance(env: Env, l: Load, p: Path, d: nat) returns (r: Load)
    requires l.maps != [] && Balanced(l.maps, d) && TreeSize(env, p) <= d
    ensures r == Place(env, l, p) && Balanced(r.maps, d)
  {
    r := Place(env, l, p);
    if !IsExcluded(env, p) {
      var placed := RegisteredSize(env, l.maps[LeastLoaded(l.maps)], p);
      PlacedOnLeast(l.maps, placed, d);
    }
  }

  lemma StepKeepsBalance(loads: seq<Load>, placements: seq<Option<Placement>>, d: nat, n: nat)
    requires CrawlRun(loads, placements) && n < |placements| && Balanced(loads[n].maps, d)
    requires placements[n].Some? ==> TreeSize(placements[n].value.env, placements[n].value.path) <= d
    ensures Balanced(loads[n + 1].maps, d)
  {
    if placements[n].Some? {
      var t := placements[n].value;
      var r := PlaceKeepsBalance(t.env, loads[n], t.path, d);
    }
  }

  lemma EmptyBalanced(maps: seq<Files>, d: nat)
    requires forall k :: 0 <= k < |maps| ==> maps[k] == map[]
    ensures Balanced(maps, d)
  {}

  /** Starting with empty monitors, after any sequence of trees, each placed whole on
      the least loaded one, no monitor has more entries above another than the
      largest of the trees. */
  lemma {:induction false} LoadBound(loads: seq<Load>, placements: seq<Option<Placement>>, d: nat, n: nat)
    requires CrawlRun(loads, placements) && n < |loads|
    requires forall k :: 0 <= k < |loads[0].maps| ==> loads[0].maps[k] == map[]
    requires forall i :: 0 <= i < |placements| && placements[i].Some? ==>
               TreeSize(placements[i].value.env, placements[i].value.path) <= d
    ensures Balanced(loads[n].maps, d)
  {
    if n == 0 {
      EmptyBalanced(loads[0].maps, d);
    } else {
      LoadBound(loads, placements, d, n - 1);
      StepKeepsBalance(loads, placements, d, n - 1);
    }
  }

  /*** The counters otherwise ***/

  /** A path that is not there when it is to be added counts as a file encountered, and as
      one registered if its name is eligible, but makes no entry. */
  lemma MissingCounts(env: Env, g: Registry, p: Path) returns (h: Registry)
    requires p !in env.world.files
    ensures h == Add(env, g, p) && h.files == g.files && h.counts.folders == g.counts.folders
    ensures
      var counted := p !in env.world.broken && !exists f :: f in env.profile.excluded && f <= Text(p);
      && h.counts.encountered == g.counts.encountered + (if counted then 1 else 0)
      && h.counts.files == g.counts.files + if counted && Eligible(env.profile.extensions, p) then 1 else 0
  {
    h := Add(env, g, p);
    assert TestedText(env.world, p) == Text(p);
  }

  /** An update of a file counts it as encountered, and changes nothing else. */
  lemma UpdateCounts(env: Env, g: Registry, p: Path) returns (h: Registry)
    ensures h == Update(env, g, p) && h.files == g.files
    ensures h.counts.folders == g.counts.folders && h.counts.files == g.counts.files
    ensures h.counts.encountered == g.counts.encountered
              + if p in env.world.broken || (p in env.world.files && env.world.files[p].folder) then 0 else 1
  {
    h := Update(env, g, p);
  }
}
