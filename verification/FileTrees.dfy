/** The file systems that the watcher sees through VFS: files named by the path of
    folders that leads to them, and those names as text. */
module FileTrees {
  import opened Wrappers
  import opened FileNames

  /** The names of the folders from the file system's root down, and the file's own. */
  type Path = seq<string>

  datatype Node = Node(folder: bool, modified: int)

  /** What a probe finds at one moment. `listings` gives the children of the folders
      that can be listed, in the order delivered; probing a `broken` path fails. */
  datatype World = World(files: map<Path, Node>, listings: map<Path, seq<Path>>, broken: set<Path>)

  const FILE_PREFIX := "file://"
  const TEMP_FILE := "~$"

  /*** Names as text ***/

  predicate Plain(p: Path)
  {
    forall i :: 0 <= i < |p| ==> '/' !in p[i]
  }

  function Steps(p: Path): string
  {
    if p == [] then "" else "/" + p[0] + Steps(p[1..])
  }

  function Text(p: Path): string
  {
    FILE_PREFIX + Steps(p)
  }

  /** The slash-terminated form used for configured folders. */
  function FolderText(p: Path): string
  {
    Text(p) + "/"
  }

  lemma {:induction false} StepsLast(p: Path)
    requires p != []
    ensures Steps(p) == Steps(p[..|p| - 1]) + "/" + p[|p| - 1]
  {
    if |p| == 1 {
      assert p[1..] == [];
    } else {
      StepsLast(p[1..]);
      assert p[1..][..|p| - 2] == p[..|p| - 1][1..];
    }
  }

  lemma SameFirstName(x: string, s: string, y: string, t: string)
    requires '/' !in x && '/' !in y && s != [] && t != [] && s[0] == '/' && t[0] == '/'
    requires x + s <= y + t
    ensures x == y && s <= t
  {
    assert (x + s)[|x|] == '/' && (y + t)[|y|] == '/';
    assert |x| == |y|;
    assert forall i :: 0 <= i < |x| ==> x[i] == (x + s)[i] == (y + t)[i] == y[i];
    assert forall i :: 0 <= i < |s| ==> s[i] == (x + s)[|x| + i] == (y + t)[|x| + i] == t[i];
  }

  lemma {:induction false} StepsPrefix(a: Path, b: Path)
    requires Plain(a) && Plain(b)
    ensures Steps(a) + "/" <= Steps(b) + "/" <==> a <= b
  {
    if a != [] && b != [] {
      StepsPrefix(a[1..], b[1..]);
      var s, t := Steps(a[1..]) + "/", Steps(b[1..]) + "/";
      assert Steps(a) + "/" == "/" + (a[0] + s) && Steps(b) + "/" == "/" + (b[0] + t);
      assert ("/" + (a[0] + s))[1..] == a[0] + s && ("/" + (b[0] + t))[1..] == b[0] + t;
      if Steps(a) + "/" <= Steps(b) + "/" {
        SameFirstName(a[0], s, b[0], t);
        assert a == [a[0]] + a[1..] && b == [b[0]] + b[1..];
      }
      if a <= b {
        assert a[1..] <= b[1..];
      }
    }
  }

  /** One folder's text is a prefix of another's exactly when the one contains the other. */
  lemma FolderPrefixIsAncestor(a: Path, b: Path)
    requires Plain(a) && Plain(b)
    ensures FolderText(a) <= FolderText(b) <==> a <= b
  {
    StepsPrefix(a, b);
    var s, t := Steps(a) + "/", Steps(b) + "/";
    assert FolderText(a) == FILE_PREFIX + s && FolderText(b) == FILE_PREFIX + t;
    PrefixedPrefix(FILE_PREFIX, s, t);
  }

  lemma PrefixedPrefix(prefix: string, s: string, t: string)
    ensures prefix + s <= prefix + t <==> s <= t
  {
    assert (prefix + s)[|prefix|..] == s && (prefix + t)[|prefix|..] == t;
    if prefix + s <= prefix + t {
      assert forall i :: 0 <= i < |s| ==> s[i] == (prefix + s)[|prefix| + i] == (prefix + t)[|prefix| + i];
    }
  }

  /** A folder's text is a prefix of a file's name exactly when the file lies inside. */
  lemma FilePrefixIsInside(a: Path, b: Path)
    requires Plain(a) && Plain(b)
    ensures FolderText(a) <= Text(b) <==> a < b
  {
    FolderPrefixIsAncestor(a, b);
    FolderPrefixIsAncestor(b, a);
    assert FolderText(b)[..|Text(b)|] == Text(b);
    assert a == b ==> |FolderText(a)| == |Text(b)| + 1;
    if a < b {
      assert |FolderText(a)| == |FolderText(b)| ==> FolderText(b) <= FolderText(a);
      SharedPrefix(FolderText(a), Text(b), FolderText(b));
    }
  }

  lemma SharedPrefix(s: string, a: string, b: string)
    requires s <= b && a <= b && |s| <= |a|
    ensures s <= a
  {
    assert forall i :: 0 <= i < |s| ==> s[i] == b[i] == a[i];
  }

  /*** Kinds of files ***/

  function BaseName(p: Path): string
  {
    if p == [] then "" else p[|p| - 1]
  }

  function ExtensionOf(name: string): string
  {
    var i := LastIndexOf(name, '.');
    if i < 1 then "" else name[i + 1..]
  }

  predicate IsTemporary(p: Path)
  {
    TEMP_FILE <= BaseName(p)
  }

  predicate Eligible(extensions: set<string>, p: Path)
  {
    ExtensionOf(BaseName(p)) in extensions && !IsTemporary(p)
  }

  /** Position `i` holds the last dot, and something precedes it. */
  predicate SplitsAt(name: string, i: nat)
  {
    0 < i < |name| && name[i] == '.' && '.' !in name[i + 1..]
  }

  /** The extension is what follows the last dot, unless that dot comes first. */
  lemma ExtensionMeaning(name: string)
    ensures forall i: nat :: SplitsAt(name, i) ==> ExtensionOf(name) == name[i + 1..]
    ensures (forall i: nat :: !SplitsAt(name, i)) ==> ExtensionOf(name) == ""
  {
    forall i: nat | SplitsAt(name, i)
      ensures LastIndexOf(name, '.') == i
    {
      LastIndexUnique(name, '.', i);
    }
    var last := LastIndexOf(name, '.');
    if last > 0 {
      assert SplitsAt(name, last);
    }
  }

  /** A file is eligible exactly if its name does not begin with "~$" and ends with a dot
      and one of the extensions; one without extension if the empty one is among them. */
  lemma EligibleMeaning(extensions: set<string>, p: Path)
    requires p != []
    ensures
      var name := p[|p| - 1];
      Eligible(extensions, p) <==>
        && !("~$" <= name)
        && ((exists i: nat :: SplitsAt(name, i) && name[i + 1..] in extensions)
            || ("" in extensions && forall i: nat :: !SplitsAt(name, i)))
  {
    ExtensionMeaning(p[|p| - 1]);
  }

  predicate IsFolder(w: World, p: Path)
  {
    p in w.files && w.files[p].folder
  }

  /** Folders and eligible files are worth monitoring. */
  predicate Monitorable(extensions: set<string>, w: World, p: Path)
  {
    IsFolder(w, p) || Eligible(extensions, p)
  }

  /** The text tested against folder names: a folder's own ends with a slash. */
  function TestedText(w: World, p: Path): string
  {
    if IsFolder(w, p) then FolderText(p) else Text(p)
  }

  predicate InFolders(folders: set<string>, text: string)
  {
    exists f :: f in folders && f <= text
  }

  /** The loop over configured folders. */
  method IsWithinFolders(folders: set<string>, text: string) returns (within: bool)
    ensures within == InFolders(folders, text)
  {
    var rest := folders;
    while rest != {}
      invariant rest <= folders
      invariant forall f :: f in folders && f !in rest ==> !(f <= text)
    {
      var f :| f in rest;
      if f <= text {
        return true;
      }
      rest := rest - {f};
    }
    within := false;
  }

  /*** Well-formed worlds ***/

  predicate IsChild(p: Path, c: Path)
  {
    |c| == |p| + 1 && p < c
  }

  predicate ListsChildren(w: World, p: Path, children: seq<Path>)
  {
    && (forall i :: 0 <= i < |children| ==> children[i] in w.files && IsChild(p, children[i]))
    && (forall i, j :: 0 <= i < j < |children| ==> children[i] != children[j])
    && (forall c :: c in w.files && IsChild(p, c) ==> c in children)
  }

  predicate Cuts(q: Path, k: int)
  {
    0 <= k < |q|
  }

  /** Below an existing file there are only folders and no gaps. */
  ghost predicate Gapless(w: World)
  {
    forall q, k {:trigger Cuts(q, k)} ::
      Cuts(q, k) && q in w.files && q[..k] in w.files ==> w.files[q[..k]].folder && q[..k + 1] in w.files
  }

  ghost predicate WellFormed(w: World)
  {
    && (forall p :: p in w.listings ==> IsFolder(w, p) && ListsChildren(w, p, w.listings[p]))
    && (forall p :: p in w.broken ==> p !in w.files)
    && Gapless(w)
  }

  /** `r` names something that exists. */
  predicate Exists(w: World, r: string)
  {
    exists q :: q in w.files && FolderText(q) == r
  }

  /*** Root entries ***/

  /** The shortest of the included folders that starts `text`, from `k` characters on. */
  function RootFrom(included: set<string>, text: string, k: nat): (r: Option<string>)
    requires k <= |text|
    ensures r.Some? ==> r.value in included && r.value <= text && |r.value| >= k
    ensures forall f :: f in included && f <= text && |f| >= k ==> r.Some? && |r.value| <= |f|
    decreases |text| - k
  {
    assert forall f :: f in included && f <= text && |f| == k ==> f == text[..k];
    if text[..k] in included then Some(text[..k])
    else if k == |text| then None
    else RootFrom(included, text, k + 1)
  }

  /** The included folder through which `p` is watched. */
  function RootEntry(included: set<string>, p: Path): Option<string>
  {
    RootFrom(included, FolderText(p), 0)
  }

  /** Without an included folder above it, a file counts as accessible. */
  predicate Accessible(included: set<string>, w: World, p: Path)
  {
    match RootEntry(included, p)
    case None => true
    case Some(r) => Exists(w, r)
  }

  /** A file inside a folder is watched through the same root. */
  lemma RootInherited(included: set<string>, p: Path, q: Path)
    requires p <= q && RootEntry(included, p).Some?
    ensures RootEntry(included, q) == RootEntry(included, p)
  {
    TextGrows(p, q);
    var r := RootEntry(included, p).value;
    assert r <= FolderText(q);
    var s := RootEntry(included, q).value;
    SharedPrefix(s, FolderText(p), FolderText(q));
    SharedPrefix(s, r, FolderText(q));
    assert |r| == |s| && r[..|r|] == r;
    assert s == r;
  }

  lemma {:induction false} StepsGrow(p: Path, q: Path)
    requires p <= q
    ensures Steps(p) + "/" <= Steps(q) + "/"
  {
    if p != [] {
      StepsGrow(p[1..], q[1..]);
      var s, t := Steps(p[1..]) + "/", Steps(q[1..]) + "/";
      assert Steps(p) + "/" == "/" + p[0] + s && Steps(q) + "/" == "/" + p[0] + t;
      PrefixedPrefix("/" + p[0], s, t);
    }
  }

  lemma TextGrows(p: Path, q: Path)
    requires p <= q
    ensures FolderText(p) <= FolderText(q)
  {
    StepsGrow(p, q);
    var s, t := Steps(p) + "/", Steps(q) + "/";
    assert FolderText(p) == FILE_PREFIX + s && FolderText(q) == FILE_PREFIX + t;
    PrefixedPrefix(FILE_PREFIX, s, t);
  }
}
