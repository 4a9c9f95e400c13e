/**
 * What `createConfig(ConfigConfig)` guarantees, stated over the specification
 * functions of `Configs` (which `Configs.CreateConfig` is proved to compute):
 * where each candidate comes from and in what order, when discovery and
 * loading fail, and which layer decides each (section, key).
 */
module ConfigProperties {
  import opened Wrappers
  import opened Paths
  import opened RawConfigs
  import opened FileSystems
  import opened Configs

  // ---------------------------------------------------------------------------
  // Candidates by origin
  // ---------------------------------------------------------------------------

  lemma {:induction false} FromOriginAppend(a: seq<Candidate>, b: seq<Candidate>, o: Origin)
    ensures FromOrigin(a + b, o) == FromOrigin(a, o) + FromOrigin(b, o)
  {
    if b != [] {
      var n := |b|;
      assert (a + b)[..|a + b| - 1] == a + b[..n - 1];
      assert (a + b)[|a + b| - 1] == b[n - 1];
      FromOriginAppend(a, b[..n - 1], o);
    } else {
      assert a + b == a;
    }
  }

  lemma {:induction false} FromOriginTag(tagged: Origin, ps: seq<Path>, o: Origin)
    ensures FromOrigin(Tag(tagged, ps), o) == if o == tagged then ps else []
  {
    if ps != [] {
      var n := |ps|;
      var t := Tag(tagged, ps);
      assert t[..n - 1] == Tag(tagged, ps[..n - 1]);
      assert t[n - 1] == Candidate(tagged, ps[n - 1]);
      FromOriginTag(tagged, ps[..n - 1], o);
      assert ps == ps[..n - 1] + [ps[n - 1]];
    }
  }

  /** Origins listed in strictly increasing rank: each at most once, lowest precedence first. */
  predicate RankedOrigins(os: seq<Origin>)
  {
    forall i, j :: 0 <= i < j < |os| ==> Rank(os[i]) < Rank(os[j])
  }

  /** Every candidate comes from one of the origins `os`. */
  predicate FromOrigins(c: seq<Candidate>, os: seq<Origin>)
  {
    forall i :: 0 <= i < |c| ==> c[i].origin in os
  }

  /** Candidates listed with non-decreasing origin rank. */
  predicate RankSorted(c: seq<Candidate>)
  {
    forall i, j :: 0 <= i < j < |c| ==> Rank(c[i].origin) <= Rank(c[j].origin)
  }

  /** Gathering distinct origins: each origin's candidates are exactly its contribution, in order. */
  lemma {:induction false} GatherBySource(os: seq<Origin>, contribute: Contributor)
    requires RankedOrigins(os)
    ensures Gather(os, contribute).Ok? ==>
      forall o :: o in os ==> contribute(o) == Ok(FromOrigin(Gather(os, contribute).value, o))
    ensures Gather(os, contribute).Ok? ==>
      forall o :: o !in os ==> FromOrigin(Gather(os, contribute).value, o) == []
  {
    if os != [] && Gather(os, contribute).Ok? {
      var n := |os|;
      var init := os[..n - 1];
      var latest := os[n - 1];
      GatherStep(os, contribute);
      GatherBySource(init, contribute);
      var earlier := Gather(init, contribute).value;
      var ps := contribute(latest).value;
      var c := Gather(os, contribute).value;
      assert latest !in init;
      assert os == init + [latest];
      forall o | o in os
        ensures contribute(o) == Ok(FromOrigin(c, o))
      {
        FromOriginAppend(earlier, Tag(latest, ps), o);
        FromOriginTag(latest, ps, o);
        if o == latest {
          assert FromOrigin(earlier, o) == [];
          assert FromOrigin(c, o) == ps;
        } else {
          assert o in init;
          assert FromOrigin(c, o) == FromOrigin(earlier, o);
        }
      }
      forall o | o !in os
        ensures FromOrigin(c, o) == []
      {
        FromOriginAppend(earlier, Tag(latest, ps), o);
        FromOriginTag(latest, ps, o);
      }
    }
  }

  /** Gathering origins in rank order: the candidates are in rank order too, and come from those origins. */
  lemma {:induction false} GatherInOrder(os: seq<Origin>, contribute: Contributor)
    requires RankedOrigins(os)
    ensures Gather(os, contribute).Ok? ==>
      FromOrigins(Gather(os, contribute).value, os) && RankSorted(Gather(os, contribute).value)
  {
    if os != [] && Gather(os, contribute).Ok? {
      var n := |os|;
      var init := os[..n - 1];
      var latest := os[n - 1];
      GatherStep(os, contribute);
      GatherInOrder(init, contribute);
      var earlier := Gather(init, contribute).value;
      var ps := contribute(latest).value;
      var c := Gather(os, contribute).value;
      assert FromOrigins(earlier, init) && RankSorted(earlier);
      forall i | 0 <= i < |earlier|
        ensures c[i].origin in os && Rank(c[i].origin) < Rank(latest)
      {
        assert c[i] == earlier[i];
        assert earlier[i].origin in init;
        var k :| 0 <= k < |init| && init[k] == earlier[i].origin;
        assert os[k] == init[k];
      }
      forall i | |earlier| <= i < |c|
        ensures c[i].origin == latest
      {
      }
      forall i, j | 0 <= i < j < |c|
        ensures Rank(c[i].origin) <= Rank(c[j].origin)
      {
        if j < |earlier| {
          assert c[i] == earlier[i] && c[j] == earlier[j];
        }
      }
    }
  }

  lemma PrecedenceRanked()
    ensures RankedOrigins(Precedence)
  {
  }

  /**
   * Every candidate from an origin of lower precedence comes before every
   * candidate from one of higher precedence: `/etc/buckconfig.d` entries, then
   * `/etc/buckconfig`, then `<home>/.buckconfig.d` entries, then
   * `<home>/.buckconfig`, then `<root>/.buckconfig`, then `<root>/.buckconfig.local`.
   */
  lemma CandidatesInPrecedenceOrder(cc: ConfigConfig, fs: FileSystem, home: Path)
    ensures Candidates(cc, fs, home).Ok? ==>
      var c := Candidates(cc, fs, home).value;
      forall i, j :: 0 <= i < |c| && 0 <= j < |c| && Rank(c[i].origin) < Rank(c[j].origin) ==> i < j
  {
    PrecedenceRanked();
    GatherInOrder(Precedence, Contributions(cc, fs, home));
    if Candidates(cc, fs, home).Ok? {
      RankSortedInOrder(Candidates(cc, fs, home).value);
    }
  }

  /** In a rank-sorted list, a candidate of lower rank comes before one of higher rank. */
  lemma RankSortedInOrder(c: seq<Candidate>)
    requires RankSorted(c)
    ensures forall i, j :: 0 <= i < |c| && 0 <= j < |c| && Rank(c[i].origin) < Rank(c[j].origin) ==> i < j
  {
  }

  /** The candidates an origin supplies are exactly what that origin contributes. */
  lemma CandidatesBySource(cc: ConfigConfig, fs: FileSystem, home: Path, o: Origin)
    ensures Candidates(cc, fs, home).Ok? ==>
      Contribution(o, cc, fs, home) == Ok(FromOrigin(Candidates(cc, fs, home).value, o))
  {
    PrecedenceRanked();
    GatherBySource(Precedence, Contributions(cc, fs, home));
    assert o in Precedence;
  }

  /**
   * A single-file origin (`/etc/buckconfig`, `<home>/.buckconfig`,
   * `<root>/.buckconfig`, `<root>/.buckconfig.local`) supplies at most one
   * candidate: its own location, present exactly when the origin is consulted
   * and that location is a regular file.
   */
  lemma SingleFileCandidates(cc: ConfigConfig, fs: FileSystem, home: Path, o: Origin)
    requires !IsFragmentDirectory(o) && Candidates(cc, fs, home).Ok?
    ensures |FromOrigin(Candidates(cc, fs, home).value, o)| <= 1
    ensures forall p :: p in FromOrigin(Candidates(cc, fs, home).value, o) <==>
      Consulted(o, cc) && p == Location(o, cc, home) && p in fs.regularFiles
  {
    CandidatesBySource(cc, fs, home, o);
  }

  /**
   * A fragment directory (`/etc/buckconfig.d`, `<home>/.buckconfig.d`) supplies
   * its entries strictly ascending, and exactly the entries of its listing; it
   * supplies nothing when it is not consulted or not a directory.
   */
  lemma FragmentCandidates(cc: ConfigConfig, fs: FileSystem, home: Path, o: Origin)
    requires IsFragmentDirectory(o) && Candidates(cc, fs, home).Ok?
    ensures StrictlyAscending(FromOrigin(Candidates(cc, fs, home).value, o))
    ensures forall p :: p in FromOrigin(Candidates(cc, fs, home).value, o) <==>
      && Consulted(o, cc)
      && Location(o, cc, home) in fs.directories
      && Location(o, cc, home) in fs.listings
      && p in fs.listings[Location(o, cc, home)]
  {
    CandidatesBySource(cc, fs, home, o);
  }

  /** A fragment directory holding `b.ini` and `a.ini` is listed as `a.ini`, then `b.ini`. */
  lemma FragmentListingExample(fs: FileSystem)
    requires "/d" in fs.directories && "/d" in fs.listings
    requires fs.listings["/d"] == ["/d/b.ini", "/d/a.ini"]
    ensures ListFiles(fs, "/d") == Ok(["/d/a.ini", "/d/b.ini"])
  {
    var sorted := ["/d/a.ini", "/d/b.ini"];
    assert Less(sorted[0], sorted[1]);
    assert StrictlyAscending(sorted);
    AscendingUnique(ListFiles(fs, "/d").value, sorted);
  }

  // ---------------------------------------------------------------------------
  // Discovery outcome
  // ---------------------------------------------------------------------------

  /**
   * Discovery fails exactly when a consulted fragment directory is a directory
   * that cannot be listed, with the global directory's failure reported first;
   * otherwise the files are the six contributions concatenated in order.
   */
  lemma DiscoveryOutcome(cc: ConfigConfig, fs: FileSystem, home: Path)
    ensures Contribution(GlobalDirectory, cc, fs, home).Err? <==>
      cc.usingGlobalConfig && GlobalConfigDirectory in fs.directories && GlobalConfigDirectory !in fs.listings
    ensures Contribution(UserDirectory, cc, fs, home).Err? <==>
      && cc.usingGlobalConfig
      && Resolve(home, ConfigDirectoryName) in fs.directories
      && Resolve(home, ConfigDirectoryName) !in fs.listings
    ensures ConfigFiles(cc, fs, home).Ok? <==>
      Contribution(GlobalDirectory, cc, fs, home).Ok? && Contribution(UserDirectory, cc, fs, home).Ok?
    ensures Contribution(GlobalDirectory, cc, fs, home).Err? ==>
      ConfigFiles(cc, fs, home) == Err(CannotList(GlobalConfigDirectory))
    ensures Contribution(GlobalDirectory, cc, fs, home).Ok? && Contribution(UserDirectory, cc, fs, home).Err? ==>
      ConfigFiles(cc, fs, home) == Err(CannotList(Resolve(home, ConfigDirectoryName)))
    ensures Contribution(GlobalDirectory, cc, fs, home).Ok? && Contribution(UserDirectory, cc, fs, home).Ok? ==>
      ConfigFiles(cc, fs, home) == Ok(Contribution(GlobalDirectory, cc, fs, home).value
                                      + SingleFile(GlobalFile, cc, fs, home)
                                      + Contribution(UserDirectory, cc, fs, home).value
                                      + SingleFile(UserFile, cc, fs, home)
                                      + SingleFile(ProjectFile, cc, fs, home)
                                      + SingleFile(ProjectOverrideFile, cc, fs, home))
  {
    ListingFailureStopsDiscovery(cc, fs, home);
    var gd, ud := Contribution(GlobalDirectory, cc, fs, home), Contribution(UserDirectory, cc, fs, home);
    if gd.Ok? && ud.Ok? {
      ConfigFilesListed(cc, fs, home, gd.value, ud.value);
    }
  }

  /** With the global config off and no project root nothing is read: the result is the overrides alone. */
  lemma LoadWithoutSources(cc: ConfigConfig, fs: FileSystem, home: Path)
    requires !cc.usingGlobalConfig && cc.projectRoot.None?
    ensures ConfigFiles(cc, fs, home) == Ok([])
    ensures Load(cc, fs, home) == Ok(Config(cc.overrides, cc))
  {
    DiscoveryOutcome(cc, fs, home);
    assert ConfigFiles(cc, fs, home).value == [];
    assert ReadAll(fs, []) == Ok([]);
    OverlayOntoEmpty(cc.overrides);
  }

  /**
   * `createConfig(RawConfig)` agrees with `createConfig(ConfigConfig)`: when the
   * default `ConfigConfig` consults no file, loading the config it builds gives
   * that same config back.
   */
  lemma CreateConfigFromValuesAgrees(values: RawConfig, defaults: ConfigConfig, fs: FileSystem, home: Path)
    requires !defaults.usingGlobalConfig && defaults.projectRoot.None?
    ensures Load(CreateConfigFromValues(values, defaults).configConfig, fs, home)
         == Ok(CreateConfigFromValues(values, defaults))
  {
    LoadWithoutSources(defaults.(overrides := values), fs, home);
  }

  // ---------------------------------------------------------------------------
  // Loading
  // ---------------------------------------------------------------------------

  /**
   * Any failure aborts the whole load, with no partial result: a listing failure
   * is reported as is, and otherwise the first file that cannot be read or
   * parsed decides the error.
   */
  lemma LoadOutcome(cc: ConfigConfig, fs: FileSystem, home: Path)
    ensures Load(cc, fs, home).Ok? <==>
      ConfigFiles(cc, fs, home).Ok? &&
      forall f :: f in ConfigFiles(cc, fs, home).value ==> ReadConfigFile(fs, f).Ok?
    ensures ConfigFiles(cc, fs, home).Err? ==> Load(cc, fs, home) == Err(ConfigFiles(cc, fs, home).error)
    ensures ConfigFiles(cc, fs, home).Ok? && Load(cc, fs, home).Err? ==>
      var files := ConfigFiles(cc, fs, home).value;
      exists k :: 0 <= k < |files| && ReadConfigFile(fs, files[k]) == Err(Load(cc, fs, home).error)
                  && forall j :: 0 <= j < k ==> ReadConfigFile(fs, files[j]).Ok?
  {
    if ConfigFiles(cc, fs, home).Ok? {
      var files := ConfigFiles(cc, fs, home).value;
      if forall f :: f in files ==> ReadConfigFile(fs, f).Ok? {
        assert forall i :: 0 <= i < |files| ==> files[i] in files;
      } else {
        var f :| f in files && ReadConfigFile(fs, f).Err?;
        var i :| 0 <= i < |files| && files[i] == f;
      }
    }
  }

  /**
   * Which layer decides (section, key): the overrides when they define it,
   * otherwise the last configuration file that defines it. `files` are the
   * discovered files and `layers` their parsed contents, in the same order.
   */
  lemma LoadLookup(cc: ConfigConfig, fs: FileSystem, home: Path, files: seq<Path>, layers: seq<RawConfig>,
                   section: string, key: string, v: string)
    requires ConfigFiles(cc, fs, home) == Ok(files) && ReadAll(fs, files) == Ok(layers)
    ensures Load(cc, fs, home).Ok?
    ensures Lookup(Load(cc, fs, home).value.rawConfig, section, key) == Some(v) <==>
      || Lookup(cc.overrides, section, key) == Some(v)
      || (Lookup(cc.overrides, section, key) == None && exists i :: DefinesLast(layers, i, section, key, v))
  {
    assert Load(cc, fs, home).value.rawConfig == Overlay(Merge(layers), cc.overrides);
    MergeLookup(layers, section, key, v);
  }

  /** A (section, key) is absent from the result exactly when neither the overrides nor any file define it. */
  lemma LoadUndefined(cc: ConfigConfig, fs: FileSystem, home: Path, files: seq<Path>, layers: seq<RawConfig>,
                      section: string, key: string)
    requires ConfigFiles(cc, fs, home) == Ok(files) && ReadAll(fs, files) == Ok(layers)
    ensures Load(cc, fs, home).Ok?
    ensures Lookup(Load(cc, fs, home).value.rawConfig, section, key) == None <==>
      && Lookup(cc.overrides, section, key) == None
      && forall i :: 0 <= i < |layers| ==> Lookup(layers[i], section, key) == None
  {
    assert Load(cc, fs, home).value.rawConfig == Overlay(Merge(layers), cc.overrides);
    MergeUndefined(layers, section, key);
  }

  /** Overrides beat every file: whatever they define is in the result unchanged. */
  lemma OverridesWin(cc: ConfigConfig, fs: FileSystem, home: Path, section: string, key: string)
    requires Load(cc, fs, home).Ok? && Lookup(cc.overrides, section, key).Some?
    ensures Lookup(Load(cc, fs, home).value.rawConfig, section, key) == Lookup(cc.overrides, section, key)
  {
    var files := ConfigFiles(cc, fs, home).value;
    LoadLookup(cc, fs, home, files, ReadAll(fs, files).value, section, key, Lookup(cc.overrides, section, key).value);
  }
}
