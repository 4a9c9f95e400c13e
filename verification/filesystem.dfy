/**
 * The filesystem as `Configs.createConfig` observes it, held as a value:
 * which paths are regular files, which are directories, what listing a
 * directory yields, and what reading and INI-parsing a file yields.
 */
module FileSystems {
  import opened Wrappers
  import opened Paths
  import opened RawConfigs

  /** What opening a file as UTF-8 text and parsing it as INI gives. */
  datatype Contents = Parsed(sections: RawConfig) | Unparsable

  datatype FileSystem = FileSystem(
    regularFiles: set<Path>,             // Files.isRegularFile
    directories: set<Path>,              // Files.isDirectory
    listings: map<Path, seq<Path>>,      // what newDirectoryStream yields, in its own order;
                                         // a directory absent here cannot be listed
    files: map<Path, Contents>)          // a path absent here cannot be opened or read

  /** The IOException a load fails with, naming the path that caused it. */
  datatype LoadError =
    | CannotList(directory: Path)
    | CannotRead(file: Path)
    | CannotParse(file: Path)

  /** Opens `path` and parses it into section -> key -> value. */
  function ReadConfigFile(fs: FileSystem, path: Path): (r: Result<RawConfig, LoadError>)
    ensures r.Ok? <==> path in fs.files && fs.files[path].Parsed?
    ensures r.Ok? ==> r.value == fs.files[path].sections
    ensures r.Err? ==> r.error == CannotRead(path) || r.error == CannotParse(path)
  {
    if path !in fs.files then Err(CannotRead(path))
    else match fs.files[path]
      case Parsed(sections) => Ok(sections)
      case Unparsable => Err(CannotParse(path))
  }
}
