# Buck's layered configuration loader, in Dafny

This project models `Configs.createConfig` from Buck
(`src/com/facebook/buck/config/Configs.java`). The loader builds a build
configuration in two phases.

1. **Discovery.** It lists the configuration files to read, in this order:
   - the entries of the global fragment directory `/etc/buckconfig.d`, sorted;
   - the global file `/etc/buckconfig`;
   - the entries of `<home>/.buckconfig.d`, sorted;
   - `<home>/.buckconfig`;
   - `<root>/.buckconfig`;
   - `<root>/.buckconfig.local`.

   The global and user sources are consulted only when the `ConfigConfig` says
   so. The project sources are consulted only when it has a project root. A
   single file is included only when it is a regular file.
2. **Layered merge.** Every file is parsed into a section → key → value map
   and laid over a `RawConfig.Builder`, in list order. The overrides are laid
   over last. The result is paired with the `ConfigConfig` that asked for it.

Any listing, read or parse failure aborts the whole call.

The modules:

- `Wrappers`: `Option` and `Result`.
- `Paths`: paths as strings, `resolve`, the natural (lexicographic) order, and
  the sorted sets that `ImmutableSortedSet` builds.
- `RawConfigs`: the two-level maps, `Overlay` (what `putAll` does), `Merge`
  (the left fold of `Overlay`), and the mutable `Builder`.
- `FileSystems`: the filesystem as a value. It records regular files,
  directories, what listing a directory yields, and what reading and parsing
  a file yields.
- `Configs`:
  - `ListFiles`;
  - discovery, specified by `Candidates`, which tags every path with the
    `Origin` it came from;
  - loading, specified by `Load`;
  - the step-by-step methods `CreateConfig` and `ListConfigFiles`, proved
    equal to `Load` and `ConfigFiles`.
- `ConfigProperties`: the ordering, per-source, failure and precedence
  guarantees, stated over the specification functions.

The code's order is authoritative: each directory's entries come before the
matching single file. The method's doc comment lists `/etc/buckconfig` before
`/etc/buckconfig.d`, and `<HOME>/.buckconfig` before the user directory. It
also writes the user directory without its leading dot. The model follows the
code.

The method's doc comment (`Configs.java:61`) speaks of the files in
`/etc/buckconfig.d`, in lexicographical order. `listFiles` applies no
regular-file filter: it returns every directory entry, sorted and without
duplicates. The model follows the code, so subdirectories are listed too.

The result is a list, not a set. When the project root is the home
directory, `<home>/.buckconfig` is listed twice, once as the user file and
once as the project file, and is merged twice.

`RawConfig.Builder.putAll` is defined in `RawConfig.java`, outside the
modelled file. The model assumes a deep, per-key overwrite:

- keys the incoming map defines replace the values already there;
- other keys of the same section survive;
- sections of either side are kept.

## Model

| member | source | states |
|---|---|---|
| `Configs.CreateConfigFromValues` | src/com/facebook/buck/config/Configs.java:50-52 | the values become both the config's contents and the overrides of its `ConfigConfig`; the other settings are those of `ConfigConfig.of()` |
| `ConfigProperties.CreateConfigFromValuesAgrees` | src/com/facebook/buck/config/Configs.java:50-52 | when the default `ConfigConfig` consults no file, loading the `ConfigConfig` that `createConfig(values)` builds yields that same config |
| `Configs.ListFiles` | src/com/facebook/buck/config/Configs.java:118-125 | a non-directory lists as empty; a directory whose stream cannot be opened fails with its path; otherwise the result is strictly ascending and holds exactly the directory's entries |
| `Configs.ListFilesOrderIrrelevant` | src/com/facebook/buck/config/Configs.java:122-124 | the listing does not depend on the order in which the stream yields entries |
| `ConfigProperties.FragmentListingExample` | src/com/facebook/buck/config/Configs.java:123 | a directory yielding `b.ini` then `a.ini` lists as `a.ini`, `b.ini` |
| `Paths.SortedSet` | src/com/facebook/buck/config/Configs.java:123 | building a natural-order sorted set gives a strictly ascending sequence with exactly the given elements |
| `Paths.Insert` | src/com/facebook/buck/config/Configs.java:123 | adding one path to a sorted set keeps it strictly ascending and adds exactly that path |
| `Paths.AscendingUnique` | src/com/facebook/buck/config/Configs.java:123 | two strictly ascending sequences with the same elements are equal, so the sorted set is unique |
| `Paths.Less` | src/com/facebook/buck/config/Configs.java:123 | the natural order of paths, character by character with a proper prefix first; `LessIrreflexive`, `LessTransitive` and `LessTotal` make it a strict total order |
| `Paths.LessTransitive` | src/com/facebook/buck/config/Configs.java:123 | the natural order on paths is transitive |
| `Paths.LessTotal` | src/com/facebook/buck/config/Configs.java:123 | any two distinct paths are ordered one way or the other |
| `Paths.Resolve` | src/com/facebook/buck/config/Configs.java:83-85 | `dir.resolve(name)` begins with `dir` and ends with `name` |
| `FileSystems.ReadConfigFile` | src/com/facebook/buck/config/Configs.java:107-108 | reading succeeds exactly when the file can be opened and parsed, and yields its parsed sections; otherwise it fails naming that file |
| `RawConfigs.Overlay` | src/com/facebook/buck/config/Configs.java:110 | after `putAll(layer)`, each (section, key) holds the layer's value if the layer defines it, else its earlier value; the sections are those of either side |
| `RawConfigs.OverlayOntoEmpty` | src/com/facebook/buck/config/Configs.java:105-110 | laying a map over an empty builder yields that map |
| `RawConfigs.OverlayIsDeep` | src/com/facebook/buck/config/Configs.java:110 | merging `{A:{x:1}}` then `{A:{y:2}}` gives `{A:{x:1,y:2}}` |
| `RawConfigs.Merge` | src/com/facebook/buck/config/Configs.java:106-112 | the left fold of `putAll` over the parsed files, starting from an empty builder; `MergeLookup` and `MergeUndefined` state what it holds |
| `RawConfigs.MergeLookup` | src/com/facebook/buck/config/Configs.java:106-112 | after folding the layers in order, (section, key) holds `v` exactly when the last layer defining it gives `v` |
| `RawConfigs.MergeUndefined` | src/com/facebook/buck/config/Configs.java:106-112 | after the fold, (section, key) is absent exactly when no layer defines it |
| `RawConfigs.LastDefinition` | src/com/facebook/buck/config/Configs.java:106-112 | a merged value is the one given by the last layer that defines its (section, key) |
| `RawConfigs.LastDefinitionWins` | src/com/facebook/buck/config/Configs.java:106-112 | the last layer to define a (section, key) decides its merged value |
| `RawConfigs.Builder.constructor` | src/com/facebook/buck/config/Configs.java:105 | a new builder holds nothing |
| `RawConfigs.Builder.PutAll` | src/com/facebook/buck/config/Configs.java:110 | the builder's contents become the overlay of the layer on its old contents |
| `RawConfigs.Builder.Build` | src/com/facebook/buck/config/Configs.java:115 | the snapshot is the accumulated contents |
| `Configs.Location` | src/com/facebook/buck/config/Configs.java:77-99 | the path each consulted origin stands for: `/etc/buckconfig.d`, `/etc/buckconfig`, `<home>/.buckconfig.d`, `<home>/.buckconfig`, `<root>/.buckconfig`, `<root>/.buckconfig.local`; `SingleFileCandidates` and `FragmentCandidates` state what is taken from it |
| `Configs.SingleFile` | src/com/facebook/buck/config/Configs.java:78-100 | a single-file origin adds at most one path, its own location, exactly when it is consulted and that location is a regular file |
| `Configs.Contribution` | src/com/facebook/buck/config/Configs.java:77-99 | an origin that is not consulted adds nothing; only a consulted fragment directory can fail, naming its location; whatever an origin adds is strictly ascending |
| `Configs.Gather` | src/com/facebook/buck/config/Configs.java:76-101 | the contributions of the origins concatenated in order, stopping at the first failure; `GatherSucceeds` and `GatherFails` state when it succeeds and which error it carries |
| `Configs.Candidates` | src/com/facebook/buck/config/Configs.java:76-101 | discovery over the six origins in the code's order; `CandidatesInPrecedenceOrder`, `CandidatesBySource`, `SingleFileCandidates` and `FragmentCandidates` state its order and content |
| `Configs.ConfigFiles` | src/com/facebook/buck/config/Configs.java:74-103 | the list of files to read, the paths of the candidates; `DiscoveryOutcome` states when it fails and what it holds |
| `Configs.GatherSucceeds` | src/com/facebook/buck/config/Configs.java:76-101 | discovering a sequence of origins succeeds exactly when every origin's contribution does |
| `Configs.GatherFails` | src/com/facebook/buck/config/Configs.java:76-101 | a failed discovery fails with the error of the first origin whose contribution fails, every earlier one having succeeded |
| `Configs.ReadAll` | src/com/facebook/buck/config/Configs.java:106-112 | reading the files in order succeeds exactly when every file can be read, giving one parsed map per file; otherwise it fails with the first file's error |
| `Configs.Load` | src/com/facebook/buck/config/Configs.java:115 | a loaded config carries exactly the `ConfigConfig` passed in |
| `Configs.CreateConfig` | src/com/facebook/buck/config/Configs.java:73-116 | appending the files, then feeding each parsed file and finally the overrides to a builder, yields exactly `Load`: the left fold of `putAll` over the files followed by the overrides, or the first failure |
| `Configs.ListConfigFiles` | src/com/facebook/buck/config/Configs.java:74-103 | the step-by-step appending under the global-config and project-root flags yields exactly the discovered file list, or the first listing failure |
| `Configs.ListingFailureStopsDiscovery` | src/com/facebook/buck/config/Configs.java:77-84 | a global directory that cannot be listed fails discovery with its error; otherwise a user directory that cannot be listed does |
| `Configs.ConfigFilesListed` | src/com/facebook/buck/config/Configs.java:76-101 | when both fragment directories list, the files are the six contributions concatenated in the code's order |
| `Configs.ReadFailureStopsLoad` | src/com/facebook/buck/config/Configs.java:106-112 | after a successful prefix, a file that fails to read fails the whole read with its error; one that succeeds extends the parsed layers by its contents |
| `ConfigProperties.CandidatesInPrecedenceOrder` | src/com/facebook/buck/config/Configs.java:76-101 | every candidate of a lower-precedence origin comes before every candidate of a higher one: global directory, global file, user directory, user file, then `<root>/.buckconfig`, then `<root>/.buckconfig.local` |
| `ConfigProperties.CandidatesBySource` | src/com/facebook/buck/config/Configs.java:76-101 | the candidates tagged with an origin are exactly that origin's contribution, in order |
| `ConfigProperties.SingleFileCandidates` | src/com/facebook/buck/config/Configs.java:78-99 | a single-file origin supplies at most one candidate: its own location, present exactly when the origin is consulted and the location is a regular file |
| `ConfigProperties.FragmentCandidates` | src/com/facebook/buck/config/Configs.java:77-84 | a fragment directory supplies its entries strictly ascending, and exactly the entries of its listing when it is consulted and is a directory |
| `ConfigProperties.DiscoveryOutcome` | src/com/facebook/buck/config/Configs.java:74-103 | discovery fails exactly when a consulted fragment directory cannot be listed, with the global one's error first; otherwise the files are the six contributions in the code's order |
| `ConfigProperties.LoadWithoutSources` | src/com/facebook/buck/config/Configs.java:76-115 | with the global config off and no project root, no file is discovered and the result is the overrides alone |
| `ConfigProperties.LoadOutcome` | src/com/facebook/buck/config/Configs.java:106-115 | loading succeeds exactly when discovery succeeds and every discovered file reads; otherwise the listing error or the first bad file's error is the result, with no partial config |
| `ConfigProperties.LoadLookup` | src/com/facebook/buck/config/Configs.java:105-115 | when discovery gives `files` and reading them gives `layers`, the load succeeds, and a (section, key) holds `v` exactly when the overrides give `v`, or the overrides leave it undefined and the last file defining it gives `v` |
| `ConfigProperties.LoadUndefined` | src/com/facebook/buck/config/Configs.java:105-115 | when discovery and reading succeed, a (section, key) is absent exactly when neither the overrides nor any file define it |
| `ConfigProperties.OverridesWin` | src/com/facebook/buck/config/Configs.java:113-114 | whatever the overrides define is in the result unchanged, whatever the files say |

## Left out

- Filesystem calls are not modelled directly. `Files.isRegularFile`, `Files.isDirectory`, `Files.newDirectoryStream` and `Files.newBufferedReader` are replaced by the `FileSystem` value. A directory without an entry in its listing map cannot be listed; a path without an entry in the contents map cannot be opened.
- `System.getProperty("user.home")` is the `home` parameter.
- INI parsing (`Inis.read`) is not part of this model. A file's parsed sections, or its parse failure, come from the `FileSystem` value, so one file reads the same way every time.
- UTF-8 decoding is part of reading and is not modelled separately.
- `LOG.debug` logging is left out.
- The internals of `RawConfig`, `Config` and `ConfigConfig` are left out. Only the assumed `putAll` semantics and the pairing of the result with its `ConfigConfig` are modelled.
- `CreateConfigFromValues`: `ConfigConfig.of()`'s defaults are defined outside `Configs.java`, so they are a parameter.
- `Paths.Less` compares whole paths character by character, with a proper prefix first. On Unix, `UnixPath.compareTo` compares the path's bytes the same way, which for UTF-8 names gives the same order. The entries of one directory (`Configs.java:123`) share their directory prefix, so only the names decide. The order depends on the filesystem provider, though: Windows compares paths case-insensitively, and that order is not modelled.
- `Paths.Resolve` joins with one `/` and does not normalise paths.
- Resources are not modelled: the closing of streams and readers, and exceptions other than the failures of listing, opening and parsing.
- Concurrent changes to the filesystem during a load are not modelled.
- `src/com/facebook/buck/event/InstallEvent.java` is a data carrier for install events and is not part of this model.
