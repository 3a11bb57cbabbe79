/** Where monitors come from that go on without a failing removal: the crawl at
    startup and the recovery from a dump, each followed by any number of passes. */
module MonitorOrigins {
  import opened Wrappers
  import opened FileNames
  import opened FileTrees
  import opened LoadBalance
  import opened MonitorModel
  import opened Crawling
  import opened StartupCrawl
  import opened MonitorCompletion
  import opened MonitorAgreement
  import opened MonitorUpkeep
  import RecoveryModel
  import RecoveryRoundTrip

  /*** After a pass that came to its end ***/

  /** A map in agreement has no late folders. */
  lemma AgreementFits(env: Env, start: int, s: State, late: set<Path>)
    requires WellFormed(env.world) && Fit(env, s, late) && InAgreement(env, start, s)
    ensures Fit(env, s, {})
  {
    forall x
      ensures FurnishedAt(env, s.fileMap, {}, x)
    {
      if x in s.fileMap && x in env.world.listings && s.fileMap[x].children == None {
        assert !Excused(env, x);
        NothingCurrent(env, x);
      }
    }
  }

  lemma NothingCurrent(env: Env, x: Path)
    requires x in env.world.listings && Current(env, x) == {}
    ensures Barren(env, x)
  {
    assert forall c :: c in Worthy(env, env.world.listings[x]) ==> c in Current(env, x);
  }

  /*** The crawl ***/

  /** A fit map of files that are there. */
  ghost predicate Sound(env: Env, m: Files)
  {
    FitMap(env, m, {}) && m.Keys <= env.world.files.Keys
  }

  lemma FoundInFolder(env: Env, p: Path)
    requires Open(env.world) && p != [] && p in env.world.files && Monitorable(env.profile.extensions, env.world, p)
    requires p[..|p| - 1] in env.world.files
    ensures p[..|p| - 1] in env.world.listings && !Barren(env, p[..|p| - 1])
  {
    assert Cuts(p, |p| - 1) && IsChild(p[..|p| - 1], p);
    assert p in env.world.listings[p[..|p| - 1]];
  }

  lemma WelcomeThere(env: Env, m: Files, p: Path)
    requires Open(env.world) && Sound(env, m) && p in env.world.files && Monitorable(env.profile.extensions, env.world, p)
    ensures Welcome(env, m, p, {})
  {
    if InBare(m, p) {
      var folder := p[..|p| - 1];
      assert FurnishedAt(env, m, {}, p[..|p| - 1]);
      FoundInFolder(env, p);
    }
  }

  lemma TreeSound(env: Env, m: Files, p: Path) returns (n: Files)
    requires Open(env.world) && Sound(env, m) && p in env.world.files
    ensures n == Registered(env, m, Visited(env, p)) && Sound(env, n)
  {
    if Monitorable(env.profile.extensions, env.world, p) {
      WelcomeThere(env, m, p);
      n := RegisteredFit(env, m, p, {});
    } else {
      NothingToRegister(env, m, p);
      n := m;
    }
  }

  lemma NothingToRegister(env: Env, m: Files, p: Path)
    requires WellFormed(env.world) && p in env.world.files && !Monitorable(env.profile.extensions, env.world, p)
    ensures Registered(env, m, Visited(env, p)) == m
  {
    if IsExcluded(env, p) {
      VisitedExcluded(env, p);
    } else {
      VisitedLeaf(env, p);
    }
  }

  ghost predicate AllSound(env: Env, l: Load)
  {
    forall k :: 0 <= k < |l.maps| ==> Sound(env, l.maps[k])
  }

  lemma PlaceSound(env: Env, l: Load, p: Path) returns (r: Load)
    requires Open(env.world) && l.maps != [] && AllSound(env, l) && p in env.world.files
    ensures r == Place(env, l, p) && AllSound(env, r)
  {
    r := Place(env, l, p);
    if !IsExcluded(env, p) {
      var n := TreeSound(env, l.maps[LeastLoaded(l.maps)], p);
    }
  }

  /** The crawl at startup leaves fit monitors. */
  lemma {:induction false} CrawlFits(loads: seq<Load>, env: Env, resolved: map<string, Path>, names: seq<string>, n: nat)
    requires Open(env.world) && CrawlRun(loads, TreesOf(env, resolved, names)) && n < |loads|
    requires forall k :: 0 <= k < |loads[0].maps| ==> loads[0].maps[k] == map[]
    ensures AllSound(env, loads[n])
  {
    if n > 0 {
      CrawlFits(loads, env, resolved, names, n - 1);
      var placement := TreesOf(env, resolved, names)[n - 1];
      assert placement == TreeOf(env, resolved, names[n - 1]);
      if placement.Some? {
        var r := PlaceSound(env, loads[n - 1], placement.value.path);
      }
    }
  }

  /*** Recovery ***/

  /** The name under which a file stands in the dump. */
  function NameOf(p: Path): string
  {
    if p == [] then RecoveryModel.VFS_ROOT else Text(p)
  }

  lemma ParentOfName(p: Path)
    requires p != [] && p != [""] && '/' !in p[|p| - 1]
    ensures RecoveryModel.Parent(NameOf(p)) == Some(NameOf(p[..|p| - 1]))
  {
    var folder, name := p[..|p| - 1], p[|p| - 1];
    StepsLast(p);
    var s := Text(p);
    var i := |Text(folder)|;
    assert s == Text(folder) + ("/" + name);
    assert s[..i] == Text(folder) && s[i] == '/' && s[i + 1..] == name;
    LastIndexUnique(s, '/', i);
    if folder == [] {
      assert name != "" && s == RecoveryModel.VFS_ROOT + name;
    }
  }

  /** The entries of map `m` are those of the recovered monitor `n`, under their names. */
  ghost predicate Stands(m: Files, n: RecoveryModel.Monitor)
  {
    forall p :: p in m ==>
      && Plain(p) && p != [""] && NameOf(p) in n
      && (m[p].children.Some? <==> n[NameOf(p)].children.Some?)
      && (m[p].children.Some? ==>
            forall c :: IsChild(p, c) && NameOf(c) in n[NameOf(p)].children.value ==> c in m[p].children.value)
  }

  /** Each monitored file is among the children of its folder, if that is monitored. */
  ghost predicate InItsFolder(m: Files)
  {
    forall c :: c in m && c != [] && c[..|c| - 1] in m ==>
      m[c[..|c| - 1]].children.Some? && c in m[c[..|c| - 1]].children.value
  }

  /** Between two monitored files all is monitored. */
  ghost predicate Unbroken(m: Files)
  {
    forall a, d, x :: a in m && x in m && Between(a, d, x) ==> d in m
  }

  predicate Between(a: Path, d: Path, x: Path)
  {
    a <= d <= x
  }

  /** Recovery gives every recovered folder its recovered children. */
  lemma RecoveredInItsFolder(m: Files, w: RecoveryModel.Monitor)
    requires Stands(m, RecoveryRoundTrip.Rebuilt(w, w.Keys))
    ensures InItsFolder(m)
  {
    forall c | c in m && c != [] && c[..|c| - 1] in m
      ensures m[c[..|c| - 1]].children.Some? && c in m[c[..|c| - 1]].children.value
    {
      var folder := c[..|c| - 1];
      ParentOfName(c);
      RecoveryRoundTrip.EntryLandsWhole(w, NameOf(folder));
      assert IsChild(folder, c);
    }
  }

  lemma RecordedBetween(m: Files, a: Path, d: Path, x: Path)
    requires InItsFolder(m) && Unbroken(m) && a in m && x in m && IsChild(a, d) && d <= x
    ensures m[a].children.Some? && d in m[a].children.value
  {
    assert Between(a, d, x) && d[..|d| - 1] == a;
  }

  lemma RecoveredSheltered(env: Env, m: Files)
    requires WellFormed(env.world) && InItsFolder(m) && Unbroken(m)
    ensures Sheltered(env, m, m.Keys)
  {
    forall a, d, x | FoundNew(env, m, a, d) && x in m.Keys
      ensures !(d <= x)
    {
      assert d in env.world.listings[a];
      if d <= x {
        RecordedBetween(m, a, d, x);
      }
    }
  }

  /** A recovered monitor without gaps is fit for a world whose folders can be listed
      and are folders still; its folders are late until a pass has seen them. */
  lemma RecoveryFits(env: Env, s: State, w: RecoveryModel.Monitor)
    requires WellFormed(env.world) && Stands(s.fileMap, RecoveryRoundTrip.Rebuilt(w, w.Keys))
    requires Unbroken(s.fileMap) && Sited(env, s.fileMap)
    requires s.addStack == [] && s.removePaths == [] && s.deleteStack == []
    ensures Fit(env, s, s.fileMap.Keys)
  {
    RecoveredInItsFolder(s.fileMap, w);
    RecoveredSheltered(env, s.fileMap);
  }

  /** The first pass after a recovery comes to its end, agrees with the files and
      leaves a monitor that no removal will fail for. */
  lemma RecoveredMonitorPolls(env: Env, start: int, s: State, w: RecoveryModel.Monitor, visits: seq<Visit>) returns (t: State)
    requires Open(env.world) && Stands(s.fileMap, RecoveryRoundTrip.Rebuilt(w, w.Keys))
    requires Unbroken(s.fileMap) && Sited(env, s.fileMap)
    requires s.addStack == [] && s.removePaths == [] && s.deleteStack == [] && s.removeListStack == []
    requires s.fileMap.Keys <= Names(visits) && forall i :: 0 <= i < |visits| ==> start <= visits[i].time
    ensures Pass(env, s, visits) == Run(t, true) && InAgreement(env, start, t) && Fit(env, t, {})
  {
    RecoveryFits(env, s, w);
    t := PassFit(env, s, visits, s.fileMap.Keys);
    FitIsPassable(env, s, s.fileMap.Keys);
    PollAgreement(env, start, s, visits);
    AgreementFits(env, start, t, s.fileMap.Keys);
  }
}
