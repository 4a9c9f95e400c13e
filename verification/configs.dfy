/**
 * `Configs.createConfig`: discovers the configuration files of the global,
 * user and project levels in a fixed order, lays their parsed contents over
 * one another in that order, lays the overrides over everything, and pairs
 * the result with the `ConfigConfig` that asked for it.
 *
 * Discovery is specified by `Candidates` (every path tagged with the source
 * it came from), loading by `Load`; the method `CreateConfig` does both step
 * by step, as the source does, and is proved equal to `Load`.
 */
module Configs {
  import opened Wrappers
  import opened Paths
  import opened RawConfigs
  import opened FileSystems

  const ConfigFileName: string := ".buckconfig"
  const OverrideConfigFileName: string := ".buckconfig.local"
  const ConfigDirectoryName: string := ".buckconfig.d"
  const GlobalConfigFile: Path := "/etc/buckconfig"
  const GlobalConfigDirectory: Path := "/etc/buckconfig.d"

  /** What to look up to construct a config. */
  datatype ConfigConfig = ConfigConfig(usingGlobalConfig: bool, projectRoot: Option<Path>, overrides: RawConfig)

  /** A resolved config: the merged values and the `ConfigConfig` they were built from. */
  datatype Config = Config(rawConfig: RawConfig, configConfig: ConfigConfig)

  /**
   * `createConfig(RawConfig values)`: the values serve both as the contents and
   * as the overrides of `ConfigConfig.of()`, whose other settings are `defaults`.
   */
  function CreateConfigFromValues(values: RawConfig, defaults: ConfigConfig): (c: Config)
    ensures c.rawConfig == values && c.configConfig.overrides == values
    ensures c.configConfig.usingGlobalConfig == defaults.usingGlobalConfig
    ensures c.configConfig.projectRoot == defaults.projectRoot
  {
    Config(values, defaults.(overrides := values))
  }

  // ---------------------------------------------------------------------------
  // Candidate discovery
  // ---------------------------------------------------------------------------

  /**
   * `listFiles(root)`: nothing when `root` is not a directory, otherwise every
   * entry the directory stream yields, sorted and without duplicates. Entries are
   * not filtered: subdirectories are listed too. A stream that cannot be opened
   * fails the call.
   */
  function ListFiles(fs: FileSystem, root: Path): (r: Result<seq<Path>, LoadError>)
    ensures root !in fs.directories ==> r == Ok([])
    ensures r.Err? <==> root in fs.directories && root !in fs.listings
    ensures r.Err? ==> r.error == CannotList(root)
    ensures r.Ok? ==> StrictlyAscending(r.value)
    ensures r.Ok? ==> forall p :: p in r.value <==> root in fs.directories && p in fs.listings[root]
  {
    if root !in fs.directories then Ok([])
    else if root !in fs.listings then Err(CannotList(root))
    else Ok(SortedSet(fs.listings[root]))
  }

  /** The listing of a directory does not depend on the order the stream yields its entries in. */
  lemma ListFilesOrderIrrelevant(fs: FileSystem, fs': FileSystem, root: Path)
    requires root in fs.directories <==> root in fs'.directories
    requires root in fs.listings <==> root in fs'.listings
    requires root in fs.listings ==> forall p :: p in fs.listings[root] <==> p in fs'.listings[root]
    ensures ListFiles(fs, root) == ListFiles(fs', root)
  {
    var r, r' := ListFiles(fs, root), ListFiles(fs', root);
    if r.Ok? && r'.Ok? {
      AscendingUnique(r.value, r'.value);
    }
  }

  /** The six places a configuration file can come from, lowest precedence first. */
  datatype Origin =
    | GlobalDirectory      // entries of /etc/buckconfig.d
    | GlobalFile           // /etc/buckconfig
    | UserDirectory        // entries of <home>/.buckconfig.d
    | UserFile             // <home>/.buckconfig
    | ProjectFile          // <root>/.buckconfig
    | ProjectOverrideFile  // <root>/.buckconfig.local

  /** The order in which the origins are consulted and merged: later ones win. */
  const Precedence: seq<Origin> :=
    [GlobalDirectory, GlobalFile, UserDirectory, UserFile, ProjectFile, ProjectOverrideFile]

  /** The position of an origin in `Precedence`: higher ranks are merged later and win. */
  function Rank(o: Origin): (r: nat)
    ensures r < |Precedence| && Precedence[r] == o
  {
    match o
    case GlobalDirectory => 0
    case GlobalFile => 1
    case UserDirectory => 2
    case UserFile => 3
    case ProjectFile => 4
    case ProjectOverrideFile => 5
  }

  predicate IsFragmentDirectory(o: Origin)
  {
    o == GlobalDirectory || o == UserDirectory
  }

  /** Whether `createConfig` looks at this origin at all: global and user ones only with the global config, project ones only with a project root. */
  predicate Consulted(o: Origin, cc: ConfigConfig)
  {
    if o == ProjectFile || o == ProjectOverrideFile then cc.projectRoot.Some? else cc.usingGlobalConfig
  }

  /** The file or fragment directory an origin stands for. */
  function Location(o: Origin, cc: ConfigConfig, home: Path): Path
    requires Consulted(o, cc)
  {
    match o
    case GlobalDirectory => GlobalConfigDirectory
    case GlobalFile => GlobalConfigFile
    case UserDirectory => Resolve(home, ConfigDirectoryName)
    case UserFile => Resolve(home, ConfigFileName)
    case ProjectFile => Resolve(cc.projectRoot.value, ConfigFileName)
    case ProjectOverrideFile => Resolve(cc.projectRoot.value, OverrideConfigFileName)
  }

  /** What a single-file origin adds: its file, when it is consulted and is a regular file. */
  function SingleFile(o: Origin, cc: ConfigConfig, fs: FileSystem, home: Path): (r: seq<Path>)
    ensures |r| <= 1
    ensures r != [] <==> Consulted(o, cc) && Location(o, cc, home) in fs.regularFiles
    ensures r != [] ==> r[0] == Location(o, cc, home)
  {
    if Consulted(o, cc) && Location(o, cc, home) in fs.regularFiles then [Location(o, cc, home)] else []
  }

  /** The paths one origin adds to the candidate list, or the listing failure it raises. */
  function Contribution(o: Origin, cc: ConfigConfig, fs: FileSystem, home: Path): (r: Result<seq<Path>, LoadError>)
    ensures !Consulted(o, cc) ==> r == Ok([])
    ensures r.Err? ==> IsFragmentDirectory(o) && Consulted(o, cc) && r.error == CannotList(Location(o, cc, home))
    ensures r.Ok? ==> StrictlyAscending(r.value)
  {
    if !IsFragmentDirectory(o) then Ok(SingleFile(o, cc, fs, home))
    else if Consulted(o, cc) then ListFiles(fs, Location(o, cc, home))
    else Ok([])
  }

  /** What each origin adds to the candidate list, or the listing failure it raises. */
  type Contributor = Origin -> Result<seq<Path>, LoadError>

  /** The contributions of every origin for one `ConfigConfig`, filesystem and home directory. */
  function Contributions(cc: ConfigConfig, fs: FileSystem, home: Path): Contributor
  {
    o => Contribution(o, cc, fs, home)
  }

  /** A candidate configuration file together with the origin that contributed it. */
  datatype Candidate = Candidate(origin: Origin, path: Path)

  function Tag(o: Origin, ps: seq<Path>): seq<Candidate>
  {
    seq(|ps|, i requires 0 <= i < |ps| => Candidate(o, ps[i]))
  }

  function PathsOf(c: seq<Candidate>): seq<Path>
  {
    seq(|c|, i requires 0 <= i < |c| => c[i].path)
  }

  /** The paths of the candidates that came from origin `o`, in list order. */
  function FromOrigin(c: seq<Candidate>, o: Origin): seq<Path>
  {
    if c == [] then []
    else FromOrigin(c[..|c| - 1], o) + (if c[|c| - 1].origin == o then [c[|c| - 1].path] else [])
  }

  /**
   * The contributions of the origins `os`, concatenated in order; the first
   * origin whose directory cannot be listed fails the whole discovery.
   */
  function Gather(os: seq<Origin>, contribute: Contributor): Result<seq<Candidate>, LoadError>
  {
    if os == [] then
      Ok([])
    else
      var init :- Gather(os[..|os| - 1], contribute);
      var last :- contribute(os[|os| - 1]);
      Ok(init + Tag(os[|os| - 1], last))
  }

  /** Gathering one more origin: its contribution is appended, and any earlier failure stands. */
  lemma GatherStep(os: seq<Origin>, contribute: Contributor)
    requires os != []
    ensures Gather(os[..|os| - 1], contribute).Err? ==> Gather(os, contribute) == Gather(os[..|os| - 1], contribute)
    ensures Gather(os[..|os| - 1], contribute).Ok? && contribute(os[|os| - 1]).Err? ==>
      Gather(os, contribute) == Err(contribute(os[|os| - 1]).error)
    ensures Gather(os[..|os| - 1], contribute).Ok? && contribute(os[|os| - 1]).Ok? ==>
      Gather(os, contribute) ==
        Ok(Gather(os[..|os| - 1], contribute).value + Tag(os[|os| - 1], contribute(os[|os| - 1]).value))
  {
  }

  /** Every origin of `os` can be consulted without a listing failure. */
  predicate AllListable(os: seq<Origin>, contribute: Contributor)
  {
    forall j :: 0 <= j < |os| ==> contribute(os[j]).Ok?
  }

  /** `os[k]` is the first origin whose contribution fails, and it fails with `e`. */
  predicate FirstFailure(os: seq<Origin>, k: int, e: LoadError, contribute: Contributor)
  {
    && 0 <= k < |os|
    && contribute(os[k]) == Err(e)
    && AllListable(os[..k], contribute)
  }

  /** Discovery succeeds exactly when every origin's contribution does. */
  lemma {:induction false} GatherSucceeds(os: seq<Origin>, contribute: Contributor)
    ensures Gather(os, contribute).Ok? <==> AllListable(os, contribute)
  {
    if os != [] {
      var n := |os|;
      var init := os[..n - 1];
      GatherStep(os, contribute);
      GatherSucceeds(init, contribute);
      if AllListable(os, contribute) {
        assert AllListable(init, contribute) by {
          forall j | 0 <= j < |init|
            ensures contribute(init[j]).Ok?
          {
            assert init[j] == os[j];
          }
        }
        assert contribute(os[n - 1]).Ok?;
      } else if Gather(init, contribute).Ok? {
        forall j | 0 <= j < n - 1
          ensures contribute(os[j]).Ok?
        {
          assert init[j] == os[j];
        }
      }
    }
  }

  /** A failed discovery fails with the error of the first origin that fails. */
  lemma {:induction false} GatherFails(os: seq<Origin>, contribute: Contributor)
    ensures Gather(os, contribute).Err? ==>
      exists k :: FirstFailure(os, k, Gather(os, contribute).error, contribute)
  {
    if os != [] && Gather(os, contribute).Err? {
      var n := |os|;
      var init := os[..n - 1];
      var e := Gather(os, contribute).error;
      GatherStep(os, contribute);
      if Gather(init, contribute).Err? {
        GatherFails(init, contribute);
        var k :| FirstFailure(init, k, e, contribute);
        assert init[..k] == os[..k] && init[k] == os[k];
        assert FirstFailure(os, k, e, contribute);
      } else {
        GatherSucceeds(init, contribute);
        assert os[..n - 1] == init;
        assert FirstFailure(os, n - 1, e, contribute);
      }
    }
  }

  /** The ordered list of configuration files `createConfig` reads, each tagged with its origin. */
  function Candidates(cc: ConfigConfig, fs: FileSystem, home: Path): Result<seq<Candidate>, LoadError>
  {
    Gather(Precedence, Contributions(cc, fs, home))
  }

  // ---------------------------------------------------------------------------
  // Loading
  // ---------------------------------------------------------------------------

  /** Reads and parses every file in order; the first file that fails fails the whole read. */
  function ReadAll(fs: FileSystem, files: seq<Path>): (r: Result<seq<RawConfig>, LoadError>)
    ensures r.Ok? <==> forall i :: 0 <= i < |files| ==> ReadConfigFile(fs, files[i]).Ok?
    ensures r.Ok? ==> |r.value| == |files|
                      && forall i :: 0 <= i < |files| ==> ReadConfigFile(fs, files[i]) == Ok(r.value[i])
    ensures r.Err? ==> exists k :: 0 <= k < |files| && ReadConfigFile(fs, files[k]) == Err(r.error)
                                   && forall j :: 0 <= j < k ==> ReadConfigFile(fs, files[j]).Ok?
  {
    if files == [] then
      Ok([])
    else
      var n := |files|;
      assert forall j :: 0 <= j < n - 1 ==> files[..n - 1][j] == files[j];
      match ReadAll(fs, files[..n - 1])
      case Err(e) => Err(e)
      case Ok(init) =>
        match ReadConfigFile(fs, files[n - 1])
        case Err(e) => Err(e)
        case Ok(last) => Ok(init + [last])
  }

  /** The ordered list of configuration files `createConfig` reads. */
  function ConfigFiles(cc: ConfigConfig, fs: FileSystem, home: Path): Result<seq<Path>, LoadError>
  {
    var candidates :- Candidates(cc, fs, home);
    Ok(PathsOf(candidates))
  }

  /** What `createConfig(configConfig)` returns or throws, for home directory `home`. */
  function Load(cc: ConfigConfig, fs: FileSystem, home: Path): (r: Result<Config, LoadError>)
    ensures r.Ok? ==> r.value.configConfig == cc
  {
    var files :- ConfigFiles(cc, fs, home);
    var layers :- ReadAll(fs, files);
    Ok(Config(Overlay(Merge(layers), cc.overrides), cc))
  }

  /**
   * `createConfig(configConfig)`: lists the configuration files, then feeds each
   * parsed file and finally the overrides to a builder.
   */
  method CreateConfig(cc: ConfigConfig, fs: FileSystem, home: Path) returns (r: Result<Config, LoadError>)
    ensures r == Load(cc, fs, home)
  {
    var configFiles :- ListConfigFiles(cc, fs, home);
    var builder := new Builder();
    ghost var layers: seq<RawConfig> := [];
    for i := 0 to |configFiles|
      invariant ReadAll(fs, configFiles[..i]) == Ok(layers)
      invariant builder.values == Merge(layers)
    {
      ReadFailureStopsLoad(fs, configFiles, i);
      var parsed :- ReadConfigFile(fs, configFiles[i]);
      builder.PutAll(parsed);
      assert (layers + [parsed])[..|layers|] == layers;
      layers := layers + [parsed];
    }
    assert configFiles[..|configFiles|] == configFiles;
    builder.PutAll(cc.overrides);
    var values := builder.Build();
    r := Ok(Config(values, cc));
  }

  /**
   * The first half of `createConfig(configConfig)`: appends the configuration
   * files of each level to a list, step by step, in the order the code does.
   */
  method ListConfigFiles(cc: ConfigConfig, fs: FileSystem, home: Path) returns (r: Result<seq<Path>, LoadError>)
    ensures r == ConfigFiles(cc, fs, home)
  {
    ListingFailureStopsDiscovery(cc, fs, home);
    var configFiles: seq<Path> := [];
    var globalEntries, userEntries: seq<Path> := [], [];
    if cc.usingGlobalConfig {
      globalEntries :- ListFiles(fs, GlobalConfigDirectory);
      configFiles := configFiles + globalEntries;
      if GlobalConfigFile in fs.regularFiles {
        configFiles := configFiles + [GlobalConfigFile];
      }
      ghost var globalLevel := configFiles;
      assert globalLevel == globalEntries + SingleFile(GlobalFile, cc, fs, home);
      var userConfigDir := Resolve(home, ConfigDirectoryName);
      userEntries :- ListFiles(fs, userConfigDir);
      configFiles := configFiles + userEntries;
      var userConfigFile := Resolve(home, ConfigFileName);
      if userConfigFile in fs.regularFiles {
        configFiles := configFiles + [userConfigFile];
      }
      assert configFiles == globalLevel + userEntries + SingleFile(UserFile, cc, fs, home);
    }
    assert Contribution(GlobalDirectory, cc, fs, home) == Ok(globalEntries);
    assert Contribution(UserDirectory, cc, fs, home) == Ok(userEntries);
    assert configFiles == globalEntries + SingleFile(GlobalFile, cc, fs, home)
                         + userEntries + SingleFile(UserFile, cc, fs, home);
    ghost var levels := configFiles;
    if cc.projectRoot.Some? {
      var root := cc.projectRoot.value;
      var configFile := Resolve(root, ConfigFileName);
      if configFile in fs.regularFiles {
        configFiles := configFiles + [configFile];
      }
      var overrideConfigFile := Resolve(root, OverrideConfigFileName);
      if overrideConfigFile in fs.regularFiles {
        configFiles := configFiles + [overrideConfigFile];
      }
    }
    assert configFiles == levels + SingleFile(ProjectFile, cc, fs, home) + SingleFile(ProjectOverrideFile, cc, fs, home);
    ConfigFilesListed(cc, fs, home, globalEntries, userEntries);
    r := Ok(configFiles);
  }

  // ---------------------------------------------------------------------------
  // Proof steps for CreateConfig
  // ---------------------------------------------------------------------------

  /** Looking at one more origin whose contribution succeeds extends the candidates by it. */
  lemma ConsultOk(consulted: seq<Origin>, candidates: seq<Candidate>, o: Origin, ps: seq<Path>,
                  contribute: Contributor)
    requires Gather(consulted, contribute) == Ok(candidates) && contribute(o) == Ok(ps)
    ensures Gather(consulted + [o], contribute) == Ok(candidates + Tag(o, ps))
    ensures PathsOf(candidates + Tag(o, ps)) == PathsOf(candidates) + ps
  {
    assert (consulted + [o])[..|consulted|] == consulted;
  }

  /** Looking at one more origin whose contribution fails fails with its error. */
  lemma ConsultErr(consulted: seq<Origin>, candidates: seq<Candidate>, o: Origin, contribute: Contributor)
    requires Gather(consulted, contribute) == Ok(candidates) && contribute(o).Err?
    ensures Gather(consulted + [o], contribute) == Err(contribute(o).error)
  {
    assert (consulted + [o])[..|consulted|] == consulted;
  }

  lemma {:induction false} GatherPrefixFails(os: seq<Origin>, n: nat, contribute: Contributor)
    requires n <= |os| && Gather(os[..n], contribute).Err?
    ensures Gather(os, contribute) == Gather(os[..n], contribute)
  {
    if n < |os| {
      var init := os[..|os| - 1];
      assert init[..n] == os[..n];
      GatherPrefixFails(init, n, contribute);
    } else {
      assert os[..n] == os;
    }
  }

  /** A directory that cannot be listed fails the whole discovery; the global one is tried first. */
  lemma ListingFailureStopsDiscovery(cc: ConfigConfig, fs: FileSystem, home: Path)
    ensures Contribution(GlobalDirectory, cc, fs, home).Err? ==>
      ConfigFiles(cc, fs, home) == Err(Contribution(GlobalDirectory, cc, fs, home).error)
    ensures Contribution(GlobalDirectory, cc, fs, home).Ok? && Contribution(UserDirectory, cc, fs, home).Err? ==>
      ConfigFiles(cc, fs, home) == Err(Contribution(UserDirectory, cc, fs, home).error)
  {
    var gd := Contribution(GlobalDirectory, cc, fs, home);
    if gd.Err? {
      GlobalListingFails(cc, fs, home);
    } else if Contribution(UserDirectory, cc, fs, home).Err? {
      UserListingFails(cc, fs, home, gd.value);
    }
  }

  /** Consulting the two origins at positions `k` and `k + 1`, after every earlier one succeeded. */
  lemma ConsultTwo(os: seq<Origin>, k: nat, earlier: seq<Candidate>, p: seq<Path>, q: seq<Path>,
                   contribute: Contributor)
    requires k + 2 <= |os| && Gather(os[..k], contribute) == Ok(earlier)
    requires contribute(os[k]) == Ok(p) && contribute(os[k + 1]) == Ok(q)
    ensures Gather(os[..k + 2], contribute) == Ok(earlier + Tag(os[k], p) + Tag(os[k + 1], q))
    ensures PathsOf(earlier + Tag(os[k], p) + Tag(os[k + 1], q)) == PathsOf(earlier) + p + q
  {
    assert os[..k] + [os[k]] == os[..k + 1];
    ConsultOk(os[..k], earlier, os[k], p, contribute);
    var middle := earlier + Tag(os[k], p);
    assert os[..k + 1] + [os[k + 1]] == os[..k + 2];
    ConsultOk(os[..k + 1], middle, os[k + 1], q, contribute);
  }

  /** The origin at position `k` fails after every earlier one succeeded: discovery fails with its error. */
  lemma ConsultNextFails(k: nat, earlier: seq<Candidate>, cc: ConfigConfig, fs: FileSystem, home: Path)
    requires k < |Precedence|
    requires Gather(Precedence[..k], Contributions(cc, fs, home)) == Ok(earlier)
    requires Contribution(Precedence[k], cc, fs, home).Err?
    ensures ConfigFiles(cc, fs, home) == Err(Contribution(Precedence[k], cc, fs, home).error)
  {
    assert Precedence[..k] + [Precedence[k]] == Precedence[..k + 1];
    ConsultErr(Precedence[..k], earlier, Precedence[k], Contributions(cc, fs, home));
    GatherPrefixFails(Precedence, k + 1, Contributions(cc, fs, home));
  }

  lemma GlobalListingFails(cc: ConfigConfig, fs: FileSystem, home: Path)
    requires Contribution(GlobalDirectory, cc, fs, home).Err?
    ensures ConfigFiles(cc, fs, home) == Err(Contribution(GlobalDirectory, cc, fs, home).error)
  {
    assert Precedence[..0] == [];
    ConsultNextFails(0, [], cc, fs, home);
  }

  lemma UserListingFails(cc: ConfigConfig, fs: FileSystem, home: Path, globalEntries: seq<Path>)
    requires Contribution(GlobalDirectory, cc, fs, home) == Ok(globalEntries)
    requires Contribution(UserDirectory, cc, fs, home).Err?
    ensures ConfigFiles(cc, fs, home) == Err(Contribution(UserDirectory, cc, fs, home).error)
  {
    var c := GlobalListed(cc, fs, home, globalEntries);
    ConsultNextFails(2, c, cc, fs, home);
  }

  /** The global origins, when the global directory can be listed. */
  lemma GlobalListed(cc: ConfigConfig, fs: FileSystem, home: Path, globalEntries: seq<Path>)
    returns (c: seq<Candidate>)
    requires Contribution(GlobalDirectory, cc, fs, home) == Ok(globalEntries)
    ensures Gather(Precedence[..2], Contributions(cc, fs, home)) == Ok(c)
    ensures PathsOf(c) == globalEntries + SingleFile(GlobalFile, cc, fs, home)
  {
    assert Precedence[..0] == [];
    assert PathsOf([]) + globalEntries == globalEntries;
    var globalFile := SingleFile(GlobalFile, cc, fs, home);
    ConsultTwo(Precedence, 0, [], globalEntries, globalFile, Contributions(cc, fs, home));
    c := [] + Tag(GlobalDirectory, globalEntries) + Tag(GlobalFile, globalFile);
  }

  /** The user origins, after the global ones, when the user directory can be listed. */
  lemma UserListed(cc: ConfigConfig, fs: FileSystem, home: Path, global: seq<Candidate>, userEntries: seq<Path>)
    returns (c: seq<Candidate>)
    requires Gather(Precedence[..2], Contributions(cc, fs, home)) == Ok(global)
    requires Contribution(UserDirectory, cc, fs, home) == Ok(userEntries)
    ensures Gather(Precedence[..4], Contributions(cc, fs, home)) == Ok(c)
    ensures PathsOf(c) == PathsOf(global) + userEntries + SingleFile(UserFile, cc, fs, home)
  {
    var userFile := SingleFile(UserFile, cc, fs, home);
    ConsultTwo(Precedence, 2, global, userEntries, userFile, Contributions(cc, fs, home));
    c := global + Tag(UserDirectory, userEntries) + Tag(UserFile, userFile);
  }

  /** The project origins, after the global and user ones. */
  lemma ProjectListed(cc: ConfigConfig, fs: FileSystem, home: Path, earlier: seq<Candidate>)
    returns (c: seq<Candidate>)
    requires Gather(Precedence[..4], Contributions(cc, fs, home)) == Ok(earlier)
    ensures Candidates(cc, fs, home) == Ok(c)
    ensures PathsOf(c) == PathsOf(earlier) + SingleFile(ProjectFile, cc, fs, home)
                          + SingleFile(ProjectOverrideFile, cc, fs, home)
  {
    var projectFile := SingleFile(ProjectFile, cc, fs, home);
    var overrideFile := SingleFile(ProjectOverrideFile, cc, fs, home);
    ConsultTwo(Precedence, 4, earlier, projectFile, overrideFile, Contributions(cc, fs, home));
    assert Precedence[..6] == Precedence;
    c := earlier + Tag(ProjectFile, projectFile) + Tag(ProjectOverrideFile, overrideFile);
  }

  /** When both directories can be listed, the configuration files are the six contributions in order. */
  lemma ConfigFilesListed(cc: ConfigConfig, fs: FileSystem, home: Path, globalEntries: seq<Path>, userEntries: seq<Path>)
    requires Contribution(GlobalDirectory, cc, fs, home) == Ok(globalEntries)
    requires Contribution(UserDirectory, cc, fs, home) == Ok(userEntries)
    ensures ConfigFiles(cc, fs, home) == Ok(globalEntries + SingleFile(GlobalFile, cc, fs, home)
                                            + userEntries + SingleFile(UserFile, cc, fs, home)
                                            + SingleFile(ProjectFile, cc, fs, home)
                                            + SingleFile(ProjectOverrideFile, cc, fs, home))
  {
    var global := GlobalListed(cc, fs, home, globalEntries);
    var user := UserListed(cc, fs, home, global, userEntries);
    var all := ProjectListed(cc, fs, home, user);
  }

  /** Once a prefix of the files fails to read, the whole read fails the same way. */
  lemma {:induction false} ReadPrefixFails(fs: FileSystem, files: seq<Path>, n: nat)
    requires n <= |files| && ReadAll(fs, files[..n]).Err?
    ensures ReadAll(fs, files) == ReadAll(fs, files[..n])
  {
    if n < |files| {
      var init := files[..|files| - 1];
      assert init[..n] == files[..n];
      ReadPrefixFails(fs, init, n);
    } else {
      assert files[..n] == files;
    }
  }

  /** Reading one more file: a failure there is the failure of the whole read. */
  lemma ReadFailureStopsLoad(fs: FileSystem, files: seq<Path>, i: nat)
    requires i < |files| && ReadAll(fs, files[..i]).Ok?
    ensures ReadConfigFile(fs, files[i]).Err? ==> ReadAll(fs, files) == Err(ReadConfigFile(fs, files[i]).error)
    ensures ReadConfigFile(fs, files[i]).Ok? ==>
      ReadAll(fs, files[..i + 1]) == Ok(ReadAll(fs, files[..i]).value + [ReadConfigFile(fs, files[i]).value])
  {
    assert files[..i + 1][..i] == files[..i];
    assert files[..i + 1][i] == files[i];
    if ReadConfigFile(fs, files[i]).Err? {
      ReadPrefixFails(fs, files, i + 1);
    }
  }
}
