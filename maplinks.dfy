/**
  Map-link selection in App.java: `checkPath` turns each candidate renderer directory
  into its own name or null, and the default link prefers "map" over "index".
  The directory examined is `basePath.resolve(worldPath).resolve(dir)`; the filesystem is
  given as the set of paths that are directories.
*/
module MapLinks {
  import opened Wrappers

  /** Output directory of the Papyrus renderer. */
  const PapyrusDir: string := "map"
  /** Output directory of the Bedrock-viz renderer. */
  const BrvDir: string := "index"

  /**
    `Path.resolve` on Unix paths written as strings: an empty child leaves the base as it is,
    an absolute child replaces it, and otherwise one `/` separates the two.
  */
  function Resolve(base: string, child: string): (r: string)
    ensures child == "" ==> r == base
    ensures child != "" ==> |child| <= |r| && r[|r| - |child|..] == child
    ensures child != "" && child[0] != '/' ==> |base| <= |r| && r[..|base|] == base
  {
    if child == "" then base
    else if child[0] == '/' then child
    else if base == "" then child
    else if base[|base| - 1] == '/' then base + child
    else base + "/" + child
  }

  /** The renderer directory `checkPath` examines for a world. */
  function MapDir(base: string, worldPath: string, dir: string): string {
    Resolve(Resolve(base, worldPath), dir)
  }

  /** Relative, slash-free segments under a base without a trailing slash are joined with `/`. */
  lemma MapDirJoins(base: string, worldPath: string, dir: string)
    requires base != "" && base[|base| - 1] != '/'
    requires worldPath != "" && worldPath[0] != '/' && worldPath[|worldPath| - 1] != '/'
    requires dir != "" && dir[0] != '/'
    ensures MapDir(base, worldPath, dir) == base + "/" + worldPath + "/" + dir
  {
  }

  /** `checkPath(dir)`: the directory's own name exactly when it exists, null otherwise. */
  function CheckPath(dir: string, isDirectory: bool): (r: Option<string>)
    ensures r.Some? <==> isDirectory
    ensures r.Some? ==> r.value == dir
  {
    if isDirectory then Some(dir) else None
  }

  /** `papyrusPath == null ? brvPath : papyrusPath`. */
  function DefaultMap(papyrus: Option<string>, brv: Option<string>): (r: Option<string>)
    ensures r.Some? <==> papyrus.Some? || brv.Some?
    ensures r.Some? ==> r == papyrus || r == brv
    ensures papyrus.Some? ==> r == papyrus
  {
    if papyrus.None? then brv else papyrus
  }

  /** The default link is "map" if it exists, else "index" if that exists, else none. */
  lemma DefaultMapPriority(mapExists: bool, indexExists: bool)
    ensures DefaultMap(CheckPath(PapyrusDir, mapExists), CheckPath(BrvDir, indexExists))
         == if mapExists then Some("map") else if indexExists then Some("index") else None
  {
  }
}
