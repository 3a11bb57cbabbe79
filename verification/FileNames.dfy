/** FileUtil: the name of a document's backup, and a name not yet taken in a folder. */
module FileNames {
  import opened Wrappers
  import opened Decimal

  const BACKUP_FILE_PREFIX := "~$"
  const BACKUP_FILE_EXTENSION := ".bak"

  /** String.lastIndexOf. */
  function LastIndexOf(s: string, c: char): (i: int)
    ensures -1 <= i < |s|
    ensures i >= 0 ==> s[i] == c && c !in s[i + 1..]
    ensures i == -1 ==> c !in s
  {
    if s == [] then -1
    else if s[|s| - 1] == c then |s| - 1
    else
      var i := LastIndexOf(s[..|s| - 1], c);
      assert s == s[..|s| - 1] + [s[|s| - 1]];
      assert i >= 0 ==> s[i + 1..] == s[..|s| - 1][i + 1..] + [s[|s| - 1]];
      i
  }

  /** StringUtils.isBlank, with the blank as the one whitespace character. */
  predicate IsBlank(s: string)
  {
    forall c :: c in s ==> c == ' '
  }

  /** The index of the separator that ends the folder part. A forward slash
      anywhere takes precedence over every backslash. */
  function FolderEnd(path: string): (i: int)
    ensures -1 <= i < |path|
  {
    if '/' in path then LastIndexOf(path, '/') else LastIndexOf(path, '\\')
  }

  /** getBackupAbsolutePath; the empty string means that there is none. */
  function BackupPath(path: string): string
  {
    var i := FolderEnd(path);
    if !IsBlank(path) && i > 0 && |path| > i + 1 then
      path[..i + 1] + BACKUP_FILE_PREFIX + path[i + 1..] + BACKUP_FILE_EXTENSION
    else
      ""
  }

  lemma LastIndexUnique(s: string, c: char, i: nat)
    requires i < |s| && s[i] == c && c !in s[i + 1..]
    ensures LastIndexOf(s, c) == i
  {
    var j := LastIndexOf(s, c);
    assert forall k :: i < k < |s| ==> s[k] == s[i + 1..][k - i - 1];
    assert forall k :: 0 <= j < k < |s| ==> s[k] == s[j + 1..][k - j - 1];
  }

  lemma BackupShape(path: string)
    requires BackupPath(path) != ""
    ensures
      var b := BackupPath(path);
      var i := FolderEnd(path);
      && |b| == |path| + 6
      && FolderEnd(b) == i
      && b[..i + 1] == path[..i + 1]
      && BACKUP_FILE_PREFIX <= b[i + 1..]
      && path == b[..i + 1] + b[i + 3..|b| - 4]
  {
    var b := BackupPath(path);
    var i := FolderEnd(path);
    var added := BACKUP_FILE_PREFIX + path[i + 1..] + BACKUP_FILE_EXTENSION;
    assert b == path[..i + 1] + added;
    assert b[i + 1..] == added;
    if '/' in path {
      assert b[i] == '/';
      LastIndexUnique(b, '/', i);
    } else {
      assert '/' !in b;
      LastIndexUnique(b, '\\', i);
    }
  }

  /** The last forward slash or, where there is none, the last backslash. */
  predicate EndsFolder(path: string, i: nat)
  {
    && i < |path|
    && ((path[i] == '/' && '/' !in path[i + 1..])
        || (path[i] == '\\' && '/' !in path && '\\' !in path[i + 1..]))
  }

  /** A path has a backup name exactly if there is a name after that separator and
      something before it; it is the same path with "~$" before the name and ".bak" after. */
  lemma BackupMeaning(path: string)
    ensures forall i: nat :: EndsFolder(path, i) && 0 < i < |path| - 1 ==>
              BackupPath(path) == path[..i] + [path[i]] + "~$" + path[i + 1..] + ".bak"
    ensures (forall i: nat :: EndsFolder(path, i) ==> i == 0 || i == |path| - 1) ==> BackupPath(path) == ""
  {
    forall i: nat | EndsFolder(path, i)
      ensures FolderEnd(path) == i && !IsBlank(path) && path[..i] + [path[i]] == path[..i + 1]
    {
      assert path[i] in path;
      LastIndexUnique(path, path[i], i);
    }
    var e := FolderEnd(path);
    if e >= 0 {
      assert EndsFolder(path, e);
    }
  }

  /** Two documents never share a backup, and no backup is its own document;
      the backup stays in the document's folder under a "~$" name, the names
      that the watcher does not register. */
  lemma BackupInjective(p: string, q: string)
    requires BackupPath(p) != ""
    ensures BackupPath(p) != p
    ensures BackupPath(p) == BackupPath(q) ==> p == q
    ensures FolderEnd(BackupPath(p)) == FolderEnd(p)
    ensures BACKUP_FILE_PREFIX <= BackupPath(p)[FolderEnd(p) + 1..]
  {
    BackupShape(p);
    if BackupPath(p) == BackupPath(q) {
      BackupShape(q);
    }
  }

  /** The candidate names tried after the plain one: name(1).ext, name(2).ext, ... */
  function Numbered(child: string, n: nat): string
    requires '.' in child
  {
    var dot := LastIndexOf(child, '.');
    child[..dot] + "(" + Natural(n) + ")" + child[dot..]
  }

  /** The number stands in brackets before the last dot. */
  lemma NumberedText(base: string, extension: string, n: nat)
    requires '.' !in extension
    ensures '.' in base + "." + extension
    ensures Numbered(base + "." + extension, n) == base + "(" + Natural(n) + ")." + extension
  {
    var child := base + "." + extension;
    assert child[|base|] == '.' && child[|base| + 1..] == extension;
    LastIndexUnique(child, '.', |base|);
    assert child[..|base|] == base && child[|base|..] == "." + extension;
    assert ")" + ("." + extension) == ")." + extension;
  }

  lemma NumberedInjective(child: string, m: nat, n: nat)
    requires '.' in child
    requires Numbered(child, m) == Numbered(child, n)
    ensures m == n
  {
    var dot := LastIndexOf(child, '.');
    var x, y := Numbered(child, m), Numbered(child, n);
    var tail := |child| - dot + 1;
    assert x[dot + 1..|x| - tail] == Natural(m);
    assert y[dot + 1..|y| - tail] == Natural(n);
    NaturalInjective(m, n);
  }

  /** Pigeonhole: names 1 .. n are all taken only if the folder holds n entries. */
  lemma {:induction false} TakenNamesBound(child: string, taken: set<string>, n: nat)
    requires '.' in child
    requires forall k :: 1 <= k <= n ==> Numbered(child, k) in taken
    ensures n <= |taken|
  {
    if n > 0 {
      var last := Numbered(child, n);
      var others := taken - {last};
      forall k | 1 <= k <= n - 1
        ensures Numbered(child, k) in others
      {
        if Numbered(child, k) == last {
          NumberedInjective(child, k, n);
        }
      }
      TakenNamesBound(child, others, n - 1);
    }
  }

  datatype NameError = StringIndexOutOfBounds

  /** getNonDuplicateFilename over the names that exist in `parent`. A name
      without a dot fails on substring(-1). */
  method GetNonDuplicateFilename(parent: string, child: string, taken: set<string>)
      returns (r: Result<string, NameError>, tries: nat)
    ensures IsBlank(parent) || IsBlank(child) ==> r == Success(child) && tries == 0
    ensures !IsBlank(parent) && !IsBlank(child) && '.' !in child ==> r == Failure(StringIndexOutOfBounds)
    ensures !IsBlank(parent) && !IsBlank(child) && '.' in child ==>
              && r.Success?
              && r.value !in taken
              && (child !in taken ==> r.value == child)
              && (child in taken ==>
                    && tries >= 1
                    && r.value == Numbered(child, tries)
                    && forall k :: 1 <= k < tries ==> Numbered(child, k) in taken)
              && tries <= |taken|
  {
    tries := 0;
    if IsBlank(parent) || IsBlank(child) {
      return Success(child), tries;
    }
    var dotIndex := LastIndexOf(child, '.');
    if dotIndex < 0 {
      return Failure(StringIndexOutOfBounds), tries;
    }
    var extension, filename := child[dotIndex..], child[..dotIndex];
    if child !in taken {
      return Success(child), tries;
    }
    var sequence: nat := 0;
    var newFilename := child;
    while newFilename in taken
      invariant newFilename == if sequence == 0 then child else Numbered(child, sequence)
      invariant forall k :: 1 <= k < sequence ==> Numbered(child, k) in taken
      invariant sequence <= |taken|
      decreases |taken| - sequence
    {
      sequence := sequence + 1;
      newFilename := filename + "(" + Natural(sequence) + ")" + extension;
      ChildNotNumbered(child, taken, sequence);
    }
    return Success(newFilename), sequence;
  }

  /** The plain name is taken too and differs from every numbered one. */
  lemma ChildNotNumbered(child: string, taken: set<string>, n: nat)
    requires '.' in child && child in taken && n >= 1
    requires forall k :: 1 <= k < n ==> Numbered(child, k) in taken
    ensures n <= |taken|
  {
    forall k | 1 <= k <= n - 1
      ensures Numbered(child, k) in taken - {child}
    {
      assert |Numbered(child, k)| > |child|;
    }
    TakenNamesBound(child, taken - {child}, n - 1);
  }
}
