/** VFSUtil.convert2VFSFormat: configured Windows paths as slash-terminated names. */
module VfsNames {
  import opened FileNames
  import opened FileTrees

  function Slashes(s: string): (r: string)
    ensures |r| == |s|
    ensures forall i :: 0 <= i < |s| ==> r[i] == if s[i] == '\\' then '/' else s[i]
  {
    seq(|s|, i requires 0 <= i < |s| => if s[i] == '\\' then '/' else s[i])
  }

  predicate EndsWith(s: string, c: char)
  {
    s != "" && s[|s| - 1] == c
  }

  /** A name that has the prefix already is left as it is, slash or not. */
  function ConvertToVfs(path: string): string
  {
    if FILE_PREFIX <= path then path
    else FILE_PREFIX + Slashes(if EndsWith(path, '\\') then path else path + "\\")
  }

  /** A Windows path from its folders' names, each after a backslash. */
  function WindowsText(p: Path): string
  {
    if p == [] then "" else "\\" + p[0] + WindowsText(p[1..])
  }

  predicate Unseparated(p: Path)
  {
    forall i :: 0 <= i < |p| ==> '\\' !in p[i]
  }

  lemma SlashesConcat(s: string, t: string)
    ensures Slashes(s + t) == Slashes(s) + Slashes(t)
  {}

  lemma SlashesPlain(s: string)
    requires '\\' !in s
    ensures Slashes(s) == s
  {}

  lemma {:induction false} SlashedSteps(p: Path)
    requires Unseparated(p)
    ensures Slashes(WindowsText(p)) == Steps(p)
  {
    if p != [] {
      SlashedSteps(p[1..]);
      SlashesPlain(p[0]);
      SlashesConcat("\\" + p[0], WindowsText(p[1..]));
      SlashesConcat("\\", p[0]);
      assert Slashes("\\") == "/";
    }
  }

  lemma {:induction false} LastOfWindowsText(p: Path)
    requires p != [] && Unseparated(p) && p[|p| - 1] != ""
    ensures !EndsWith(WindowsText(p), '\\')
  {
    if |p| == 1 {
      assert WindowsText(p) == "\\" + p[0] + "";
      assert WindowsText(p)[|WindowsText(p)| - 1] == p[0][|p[0]| - 1];
      assert p[0][|p[0]| - 1] in p[0];
    } else {
      LastOfWindowsText(p[1..]);
      assert WindowsText(p)[|WindowsText(p)| - 1] == WindowsText(p[1..])[|WindowsText(p[1..])| - 1];
    }
  }

  lemma ConvertSlashed(s: string, t: string)
    requires s != "" && s[0] == '\\' && t == (if EndsWith(s, '\\') then s else s + "\\")
    ensures ConvertToVfs(s) == FILE_PREFIX + Slashes(t)
  {
    assert FILE_PREFIX[0] == 'f';
  }

  lemma SlashedFolder(p: Path)
    requires Unseparated(p)
    ensures Slashes(WindowsText(p) + "\\") == Steps(p) + "/"
  {
    SlashedSteps(p);
    SlashesConcat(WindowsText(p), "\\");
    assert Slashes("\\") == "/";
  }

  lemma FolderTextIs(p: Path)
    ensures FolderText(p) == FILE_PREFIX + (Steps(p) + "/")
  {}

  /** The converted name of a folder is the text by which the watcher tests prefixes,
      whether the configured path ends with a backslash or not. */
  lemma ConvertedIsFolderText(p: Path)
    requires p != [] && Unseparated(p) && p[|p| - 1] != ""
    ensures ConvertToVfs(WindowsText(p)) == FolderText(p)
    ensures ConvertToVfs(WindowsText(p) + "\\") == FolderText(p)
  {
    var s, t := WindowsText(p), WindowsText(p) + "\\";
    LastOfWindowsText(p);
    ConvertSlashed(s, t);
    ConvertSlashed(t, t);
    SlashedFolder(p);
    FolderTextIs(p);
  }

  /*** Which configured texts can exclude anything ***/

  predicate IsSeparator(c: char)
  {
    c == '\\' || c == '/'
  }

  /** After the first character no two separators follow each other. */
  predicate Unrepeated(s: string)
  {
    forall i :: 1 <= i < |s| - 1 ==> !(IsSeparator(s[i]) && IsSeparator(s[i + 1]))
  }

  predicate NoEmptyStep(t: string)
  {
    forall i :: 1 <= i < |t| - 1 ==> !(t[i] == '/' && t[i + 1] == '/')
  }

  /** The path of a real file: no step is empty but the first one of a share. */
  predicate Real(p: Path)
  {
    Plain(p) && p != [""] && forall i :: 1 <= i < |p| ==> p[i] != ""
  }

  /** After the prefix a text must go on with a slash, and have no two of them in a row
      later; another text must begin with a separator, have no two of them in a row
      later, and not end with a slash, which would be given a backslash. */
  predicate StartsSome(s: string)
  {
    if FILE_PREFIX <= s then
      var t := s[|FILE_PREFIX|..];
      t == "" || (t[0] == '/' && NoEmptyStep(t))
    else
      s == "" || (IsSeparator(s[0]) && Unrepeated(s) && (EndsWith(s, '/') ==> |s| == 1))
  }

  /** What follows the prefix once the text is converted. */
  function Tail(s: string): (t: string)
    ensures ConvertToVfs(s) == FILE_PREFIX + t
  {
    if FILE_PREFIX <= s then s[|FILE_PREFIX|..] else Slashes(if EndsWith(s, '\\') then s else s + "\\")
  }

  lemma TailOfSlashed(s: string, t: string)
    requires s != "" && t == Slashes(if EndsWith(s, '\\') then s else s + "\\")
    ensures t[0] == '/' && NoEmptyStep(t) <==> IsSeparator(s[0]) && Unrepeated(s) && (EndsWith(s, '/') ==> |s| == 1)
  {
    assert forall i :: 0 <= i < |s| ==> (t[i] == '/' <==> IsSeparator(s[i]));
    assert EndsWith(s, '/') ==> |t| == |s| + 1 && t[|s| - 1] == t[|s|] == '/';
  }

  lemma TailCondition(s: string)
    ensures StartsSome(s) <==> Tail(s) == "" || (Tail(s)[0] == '/' && NoEmptyStep(Tail(s)))
  {
    if !(FILE_PREFIX <= s) {
      if s == "" {
        assert Tail(s) == "/";
      } else {
        TailOfSlashed(s, Tail(s));
      }
    }
  }

  /*** From a real path to its text ***/

  /** The steps of a real path, slash-terminated, show no empty step. */
  lemma {:induction false} RealSteps(p: Path)
    requires Plain(p) && forall i :: 1 <= i < |p| ==> p[i] != ""
    ensures NoEmptyStep(Steps(p) + "/") && (|p| > 1 ==> !EndsWith(Steps(p), '/'))
  {
    if p != [] {
      var above, name := p[..|p| - 1], p[|p| - 1];
      RealSteps(above);
      StepsLast(p);
      LastStep(Steps(above), name, |p| > 1);
    }
  }

  lemma LastStep(s: string, name: string, below: bool)
    requires '/' !in name && NoEmptyStep(s + "/")
    requires if below then name != "" else s == ""
    ensures NoEmptyStep(s + "/" + name + "/")
    ensures below ==> !EndsWith(s + "/" + name, '/')
  {
    var t := s + "/" + name + "/";
    assert forall i :: 0 <= i < |s| + 1 ==> t[i] == (s + "/")[i];
    assert forall i :: 0 <= i < |name| ==> t[|s| + 1 + i] == name[i] && name[i] in name;
  }

  lemma FolderTextIsTail(p: Path)
    ensures FolderText(p) == FILE_PREFIX + (Steps(p) + "/") && (Steps(p) + "/")[0] == '/'
  {
    FolderTextIs(p);
  }

  /*** From a text to a real path ***/

  /** The path whose steps are `t`. */
  function PathOf(t: string): (p: Path)
    requires t == "" || t[0] == '/'
    ensures Plain(p) && Steps(p) == t
    decreases |t|
  {
    if t == "" then []
    else
      var i := LastIndexOf(t, '/');
      assert i >= 0;
      var above := PathOf(t[..i]);
      var p := above + [t[i + 1..]];
      assert p[..|p| - 1] == above;
      StepsLast(p);
      assert t == t[..i] + "/" + t[i + 1..];
      p
  }

  /** Without two slashes in a row but at its beginning, and without one at its end, a
      text leads to a real path. */
  lemma {:induction false} PathOfReal(t: string)
    requires t != "" && t[0] == '/' && NoEmptyStep(t)
    ensures forall i :: 1 <= i < |PathOf(t)| ==> PathOf(t)[i] != "" || (i == |PathOf(t)| - 1 && EndsWith(t, '/'))
    ensures PathOf(t) == [""] ==> t == "/"
    decreases |t|
  {
    var i := LastIndexOf(t, '/');
    var above := PathOf(t[..i]);
    var p := PathOf(t);
    assert p == above + [t[i + 1..]];
    if i > 0 {
      assert forall k :: 0 <= k < i ==> t[..i][k] == t[k];
      PathOfReal(t[..i]);
      assert EndsWith(t[..i], '/') ==> t[i - 1] == '/' && t[i] == '/';
    }
  }

  /** A real file whose name begins with the text. */
  lemma StartedBy(t: string) returns (p: Path)
    requires t == "" || (t[0] == '/' && NoEmptyStep(t))
    ensures Real(p) && t <= Steps(p) + "/"
  {
    var u := if t == "" then "/a" else if EndsWith(t, '/') then t + "a" else t;
    assert forall i :: 0 <= i < |t| ==> u[i] == t[i];
    PathOfReal(u);
    p := PathOf(u);
  }

  lemma PrefixNoEmptyStep(t: string, u: string)
    requires t <= u && NoEmptyStep(u)
    ensures NoEmptyStep(t)
  {
    assert forall i :: 0 <= i < |t| ==> t[i] == u[i];
  }

  /** The converted text begins the name of some real file, and so can include or exclude
      something, if and only if the configured one passes the test. */
  lemma ConvertedStartsSome(s: string)
    ensures (exists p :: Real(p) && ConvertToVfs(s) <= FolderText(p)) <==> StartsSome(s)
  {
    TailCondition(s);
    if StartsSome(s) {
      var p := StartedBy(Tail(s));
      FolderTextIsTail(p);
      PrefixedPrefix(FILE_PREFIX, Tail(s), Steps(p) + "/");
      assert Real(p) && ConvertToVfs(s) <= FolderText(p);
    }
    if p :| Real(p) && ConvertToVfs(s) <= FolderText(p) {
      FolderTextIsTail(p);
      PrefixedPrefix(FILE_PREFIX, Tail(s), Steps(p) + "/");
      RealSteps(p);
      PrefixNoEmptyStep(Tail(s), Steps(p) + "/");
    }
  }

  /** Any other text includes and excludes nothing. */
  lemma OthersMatchNothing(s: string, p: Path)
    requires !StartsSome(s) && Real(p)
    ensures !(ConvertToVfs(s) <= FolderText(p)) && !(ConvertToVfs(s) <= Text(p))
  {
    ConvertedStartsSome(s);
    assert Text(p) <= FolderText(p);
  }

  /** Of these texts the converted one is the whole name of a folder when it ends with a
      slash, as it does unless it had the prefix, and is more than the mark of a share. */
  predicate NamesFolder(s: string)
  {
    && StartsSome(s)
    && if FILE_PREFIX <= s then
         |s| > |FILE_PREFIX| && |s| != |FILE_PREFIX| + 2 && EndsWith(s, '/')
       else s !in {"/", "/\\", "\\\\"}
  }

  lemma ShareMark(s: string)
    requires !(FILE_PREFIX <= s)
    ensures EndsWith(Tail(s), '/') && (Tail(s) == "//" <==> s in {"/", "/\\", "\\\\"})
  {
    var u := if EndsWith(s, '\\') then s else s + "\\";
    assert Tail(s) == Slashes(u) && |Tail(s)| == |u| && u[|u| - 1] == '\\';
    assert Tail(s) == "//" <==> |u| == 2 && IsSeparator(u[0]);
    if |u| == 2 {
      assert u == [u[0], u[1]];
      assert u == if EndsWith(s, '\\') then s else [s[0], '\\'];
      assert |s| == 1 ==> s == [s[0]];
    }
  }

  lemma TailNamesFolder(s: string)
    ensures NamesFolder(s) <==>
              Tail(s) != "" && Tail(s)[0] == '/' && NoEmptyStep(Tail(s)) && EndsWith(Tail(s), '/') && Tail(s) != "//"
  {
    TailCondition(s);
    if FILE_PREFIX <= s {
      assert s == FILE_PREFIX + Tail(s);
    } else {
      ShareMark(s);
    }
  }

  /** Exactly these texts become the name of a folder. */
  lemma ConvertedNamesFolder(s: string)
    ensures (exists p :: Real(p) && ConvertToVfs(s) == FolderText(p)) <==> NamesFolder(s)
  {
    TailNamesFolder(s);
    if NamesFolder(s) {
      var p := FolderOf(Tail(s));
      FolderTextIsTail(p);
      assert Real(p) && ConvertToVfs(s) == FolderText(p);
    }
    if p :| Real(p) && ConvertToVfs(s) == FolderText(p) {
      FolderTextIsTail(p);
      PrefixedPrefix(FILE_PREFIX, Tail(s), Steps(p) + "/");
      assert Tail(s) == Steps(p) + "/";
      RealSteps(p);
      OnlyShareMark(p);
    }
  }

  lemma OnlyShareMark(p: Path)
    requires Real(p)
    ensures Steps(p) != "/"
  {
    if p != [] {
      assert Steps(p) == "/" + (p[0] + Steps(p[1..]));
      assert |p| > 1 ==> Steps(p[1..]) != "";
    }
  }

  lemma FolderOf(t: string) returns (p: Path)
    requires t != "" && t[0] == '/' && NoEmptyStep(t) && EndsWith(t, '/') && t != "//"
    ensures Real(p) && Steps(p) + "/" == t
  {
    var u := t[..|t| - 1];
    p := PathOf(u);
    assert t == u + "/";
    if u != "" {
      PathOfReal(u);
      assert t[|u| - 1] == u[|u| - 1];
    }
  }

  /*** What the program stores ***/

  function WithBackslash(s: string): string
  {
    if EndsWith(s, '\\') then s else s + "\\"
  }

  /** The check made before an exclusion of a shared folder is stored: the share's name
      begins with two backslashes, and the exclusion's with the share's. */
  predicate Accepted(share: string, s: string)
  {
    && |share| > 2 && share[0] == '\\' && share[1] == '\\'
    && WithBackslash(share) <= WithBackslash(s)
  }

  /** An accepted exclusion, stored with its backslash, fails only by separators in a
      row. */
  lemma AcceptedFailsByRepetition(share: string, s: string)
    requires Accepted(share, s)
    ensures StartsSome(WithBackslash(s)) <==> Unrepeated(WithBackslash(s))
  {
    var stored := WithBackslash(s);
    assert stored[0] == WithBackslash(share)[0] == '\\' && stored[|stored| - 1] == '\\';
    assert FILE_PREFIX[0] == 'f';
  }

  lemma DriveLetterRefused(share: string, s: string)
    requires |s| > 1 && s[1] == ':'
    ensures !Accepted(share, s)
  {}

  /** An input that fails: accepted, and no file's name begins with what it becomes. */
  lemma TrailingSlashNeverExcluded(share: string, folder: string, p: Path)
    requires Accepted(share, share) && folder != "" && !EndsWith(share, '\\') && !(FILE_PREFIX <= share) && Real(p)
    ensures
      var s := share + "\\" + folder + "/";
      && Accepted(share, s)
      && !(ConvertToVfs(WithBackslash(s)) <= FolderText(p)) && !(ConvertToVfs(WithBackslash(s)) <= Text(p))
  {
    var s := share + "\\" + folder + "/";
    var stored := WithBackslash(s);
    assert stored == s + "\\";
    assert IsSeparator(stored[|stored| - 2]) && IsSeparator(stored[|stored| - 1]);
    assert !Unrepeated(stored);
    AcceptedFailsByRepetition(share, s);
    OthersMatchNothing(stored, p);
  }

  lemma ServerShareDocs(p: Path)
    requires Real(p)
    ensures
      var s := "\\\\server\\share\\docs/";
      Accepted("\\\\server\\share", s) && !(ConvertToVfs(WithBackslash(s)) <= FolderText(p))
  {
    var share := "\\\\server\\share";
    assert share[0] == '\\' && share[1] == '\\' && share[|share| - 1] == 'e' && FILE_PREFIX[0] == 'f';
    assert "\\\\server\\share\\docs/" == share + "\\" + "docs" + "/";
    TrailingSlashNeverExcluded(share, "docs", p);
  }

  /** Past that check the conversion would do the same to a local path. */
  lemma LocalDriveNeverExcluded(p: Path)
    requires Real(p)
    ensures !(ConvertToVfs("C:\\docs") <= FolderText(p))
  {
    var s := "C:\\docs";
    assert s[0] == 'C' && FILE_PREFIX[0] == 'f';
    OthersMatchNothing(s, p);
  }
}
