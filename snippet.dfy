/**
  Fragment composition and the run of App.java: the resolution of the world fields,
  the map-link selection, and the single `<li>` written to standard output.
*/
module Snippet {
  import opened Wrappers
  import opened Html
  import opened World
  import opened MapLinks

  /**
    The fields read from the decoded level file. The seed and the last-played date
    arrive already formatted as text.
  */
  datatype LevelData = LevelData(
    levelName: string,
    seedText: string,
    gameType: int,
    difficulty: int,
    lastPlayedText: string)

  /** The root of the decoded tag tree: a compound tag holding the level fields, or anything else. */
  datatype Root = CompoundRoot(level: LevelData) | OtherTag

  /** Diagnostic for a root that is not a compound tag; the run then exits with status 2. */
  const NotCompoundMessage: string := "Expected CompoundTag in level file"

  /** `worldPath + "/" + dir + "/"`. */
  function LinkTarget(worldPath: string, dir: string): string {
    worldPath + "/" + dir + "/"
  }

  /** A caption/value row: `div(span(t(caption)), span(t(value)))`. */
  function Row(caption: string, value: string): Node {
    Div([Span([T(caption)]), Span([T(value)])])
  }

  /** The seven children of the `<li>` built in `run()`, in argument order. */
  function Children(worldName: string, worldPath: string, level: LevelData,
                    papyrus: Option<string>, brv: Option<string>): seq<Node>
  {
    var defaultMap := DefaultMap(papyrus, brv);
    [ Div([if defaultMap.None? then Span([T(worldName)])
           else A(LinkTarget(worldPath, defaultMap.value), [T(worldName)])]),
      Row("Seed", level.seedText),
      Row("Type", GameTypeLabel(level.gameType)),
      Row("Difficulty", DifficultyLabel(level.difficulty)),
      Row("Last Played", level.lastPlayedText),
      IfNotNull(papyrus, Div([A(LinkTarget(worldPath, if papyrus.Some? then papyrus.value else ""), [T("Papyrus Map")])])),
      IfNotNull(brv, Div([A(LinkTarget(worldPath, if brv.Some? then brv.value else ""), [T("Bedrock-viz Map")])])) ]
  }

  /** The `<li>` built in `run()`, given the resolved name and path and the two checked directories. */
  function Fragment(worldName: string, worldPath: string, level: LevelData,
                    papyrus: Option<string>, brv: Option<string>): Node
  {
    PlainTag("li", Children(worldName, worldPath, level, papyrus, brv))
  }

  /**
    What a run writes to standard output, or the exit status and diagnostic it fails with;
    `userDir` is the working directory and `dirs` the paths that are directories.
  */
  function SnippetOutput(given: Options, root: Root, userDir: string, dirs: set<string>): Result<string>
  {
    match root
    case OtherTag => Failure(2, NotCompoundMessage)
    case CompoundRoot(level) =>
      var name := Override(given.worldName, level.levelName);
      var path := ResolvePath(given.worldPath, name);
      var base := Override(given.basePath, userDir);
      Success(Render(Fragment(name, path, level,
        CheckPath(PapyrusDir, MapDir(base, path, PapyrusDir) in dirs),
        CheckPath(BrvDir, MapDir(base, path, BrvDir) in dirs))))
  }

  /** The three optional command-line options. */
  datatype Options = Options(worldName: Option<string>, worldPath: Option<string>, basePath: Option<string>)

  // ---------------------------------------------------------------------------
  // The expected output, written out as text

  function RowText(caption: string, value: string): string {
    "<div><span>" + caption + "</span><span>" + value + "</span></div>"
  }

  function LinkRowText(worldPath: string, dir: string, caption: string): string {
    "<div><a href=\"" + worldPath + "/" + dir + "/\">" + caption + "</a></div>"
  }

  /** The name div: a plain span without any map, otherwise a link to "map" if present, else to "index". */
  function HeadText(worldName: string, worldPath: string, mapExists: bool, indexExists: bool): string {
    if mapExists then LinkRowText(worldPath, "map", worldName)
    else if indexExists then LinkRowText(worldPath, "index", worldName)
    else "<div><span>" + worldName + "</span></div>"
  }

  /**
    The seven pieces of the expected `<li>`, in order: the name div, the Seed, Type, Difficulty
    and Last Played rows, then the link row of each renderer directory that exists (empty otherwise).
  */
  function Parts(worldName: string, worldPath: string, level: LevelData,
                 mapExists: bool, indexExists: bool): seq<string>
  {
    [ HeadText(worldName, worldPath, mapExists, indexExists),
      RowText("Seed", level.seedText),
      RowText("Type", GameTypeLabel(level.gameType)),
      RowText("Difficulty", DifficultyLabel(level.difficulty)),
      RowText("Last Played", level.lastPlayedText),
      if mapExists then LinkRowText(worldPath, "map", "Papyrus Map") else "",
      if indexExists then LinkRowText(worldPath, "index", "Bedrock-viz Map") else "" ]
  }

  /** The pieces written one after another. */
  function Concat(ss: seq<string>): string
    decreases |ss|
  {
    if ss == [] then "" else Concat(ss[..|ss| - 1]) + ss[|ss| - 1]
  }

  /** The whole expected `<li>`. */
  function ExpectedText(worldName: string, worldPath: string, level: LevelData,
                        mapExists: bool, indexExists: bool): string
  {
    "<li>" + Concat(Parts(worldName, worldPath, level, mapExists, indexExists)) + "</li>"
  }

  lemma RenderOne(n: Node)
    ensures RenderAll([n]) == Render(n)
  {
  }

  /** Children whose renderings are the given pieces render as the pieces concatenated. */
  lemma {:induction false} RenderAllConcat(cs: seq<Node>, ss: seq<string>)
    requires |cs| == |ss|
    requires forall i :: 0 <= i < |cs| ==> Render(cs[i]) == ss[i]
    ensures RenderAll(cs) == Concat(ss)
    decreases |cs|
  {
    if cs != [] {
      var k := |cs| - 1;
      RenderAllConcat(cs[..k], ss[..k]);
      assert cs == cs[..k] + [cs[k]];
      RenderAllAppend(cs[..k], [cs[k]]);
      RenderOne(cs[k]);
    }
  }

  lemma RenderPair(a: Node, b: Node)
    ensures RenderAll([a, b]) == Render(a) + Render(b)
  {
    assert [a, b] == [a] + [b];
    RenderAllAppend([a], [b]);
    RenderOne(a);
    RenderOne(b);
  }

  lemma RowRenders(caption: string, value: string)
    ensures Render(Row(caption, value)) == RowText(caption, value)
  {
    RenderOne(T(caption));
    RenderOne(T(value));
    SpanRenders([T(caption)]);
    SpanRenders([T(value)]);
    RenderPair(Span([T(caption)]), Span([T(value)]));
    DivRenders([Span([T(caption)]), Span([T(value)])]);
  }

  lemma LinkRenders(worldPath: string, dir: string, caption: string)
    ensures Render(Div([A(LinkTarget(worldPath, dir), [T(caption)])])) == LinkRowText(worldPath, dir, caption)
  {
    RenderOne(T(caption));
    AnchorRenders(LinkTarget(worldPath, dir), [T(caption)]);
    RenderOne(A(LinkTarget(worldPath, dir), [T(caption)]));
    DivRenders([A(LinkTarget(worldPath, dir), [T(caption)])]);
  }

  /** The first child: the world name, plain or linked to the default map. */
  lemma HeadRenders(worldName: string, worldPath: string, mapExists: bool, indexExists: bool)
    ensures var defaultMap := DefaultMap(CheckPath(PapyrusDir, mapExists), CheckPath(BrvDir, indexExists));
      (Render(Div([if defaultMap.None? then Span([T(worldName)])
                   else A(LinkTarget(worldPath, defaultMap.value), [T(worldName)])]))
       == HeadText(worldName, worldPath, mapExists, indexExists))
  {
    var defaultMap := DefaultMap(CheckPath(PapyrusDir, mapExists), CheckPath(BrvDir, indexExists));
    RenderOne(T(worldName));
    if defaultMap.Some? {
      LinkRenders(worldPath, defaultMap.value, worldName);
    } else {
      SpanRenders([T(worldName)]);
      RenderOne(Span([T(worldName)]));
      DivRenders([Span([T(worldName)])]);
    }
  }

  /** A trailing renderer link: present exactly when its directory exists. */
  lemma TrailerRenders(worldPath: string, dir: string, caption: string, isDirectory: bool)
    ensures var p := CheckPath(dir, isDirectory);
      (Render(IfNotNull(p, Div([A(LinkTarget(worldPath, if p.Some? then p.value else ""), [T(caption)])])))
       == if isDirectory then LinkRowText(worldPath, dir, caption) else "")
  {
    var p := CheckPath(dir, isDirectory);
    IfNotNullRenders(p, Div([A(LinkTarget(worldPath, if p.Some? then p.value else ""), [T(caption)])]));
    if isDirectory {
      LinkRenders(worldPath, dir, caption);
    }
  }

  /**
    The fragment is one `<li>` holding, in order: the name or default-map link, the Seed,
    Type, Difficulty and Last Played rows, a Papyrus link exactly when "map" exists and a
    Bedrock-viz link exactly when "index" exists.
  */
  lemma FragmentText(worldName: string, worldPath: string, level: LevelData, mapExists: bool, indexExists: bool)
    ensures Render(Fragment(worldName, worldPath, level, CheckPath(PapyrusDir, mapExists), CheckPath(BrvDir, indexExists)))
         == ExpectedText(worldName, worldPath, level, mapExists, indexExists)
  {
    var cs := Children(worldName, worldPath, level, CheckPath(PapyrusDir, mapExists), CheckPath(BrvDir, indexExists));
    var ss := Parts(worldName, worldPath, level, mapExists, indexExists);
    forall i | 0 <= i < |cs|
      ensures Render(cs[i]) == ss[i]
    {
      ChildRenders(worldName, worldPath, level, mapExists, indexExists, i);
    }
    RenderAllConcat(cs, ss);
    ListItemText(cs);
  }

  /** Child `i` of the `<li>` renders as piece `i` of the expected text. */
  lemma ChildRenders(worldName: string, worldPath: string, level: LevelData, mapExists: bool, indexExists: bool, i: nat)
    requires i < 7
    ensures Render(Children(worldName, worldPath, level, CheckPath(PapyrusDir, mapExists), CheckPath(BrvDir, indexExists))[i])
         == Parts(worldName, worldPath, level, mapExists, indexExists)[i]
  {
    if i == 0 {
      HeadRenders(worldName, worldPath, mapExists, indexExists);
    } else if i == 1 {
      RowRenders("Seed", level.seedText);
    } else if i == 2 {
      RowRenders("Type", GameTypeLabel(level.gameType));
    } else if i == 3 {
      RowRenders("Difficulty", DifficultyLabel(level.difficulty));
    } else if i == 4 {
      RowRenders("Last Played", level.lastPlayedText);
    } else if i == 5 {
      TrailerRenders(worldPath, PapyrusDir, "Papyrus Map", mapExists);
    } else {
      TrailerRenders(worldPath, BrvDir, "Bedrock-viz Map", indexExists);
    }
  }

  lemma ListItemText(items: seq<Node>)
    ensures Render(PlainTag("li", items)) == "<li>" + RenderAll(items) + "</li>"
  {
  }

  // ---------------------------------------------------------------------------
  // The run as a whole

  /**
    A run fails with status 2 on a non-compound root, and otherwise writes exactly the expected
    `<li>`, its links chosen by which renderer directories exist under the resolved base and path.
  */
  lemma SnippetText(given: Options, root: Root, userDir: string, dirs: set<string>)
    ensures root.OtherTag? ==> SnippetOutput(given, root, userDir, dirs) == Failure(2, NotCompoundMessage)
    ensures root.CompoundRoot? ==>
      var name := Override(given.worldName, root.level.levelName);
      var path := ResolvePath(given.worldPath, name);
      var base := Override(given.basePath, userDir);
      SnippetOutput(given, root, userDir, dirs)
        == Success(ExpectedText(name, path, root.level,
                                MapDir(base, path, PapyrusDir) in dirs, MapDir(base, path, BrvDir) in dirs))
  {
    if root.CompoundRoot? {
      var name := Override(given.worldName, root.level.levelName);
      var path := ResolvePath(given.worldPath, name);
      var base := Override(given.basePath, userDir);
      FragmentText(name, path, root.level, MapDir(base, path, PapyrusDir) in dirs, MapDir(base, path, BrvDir) in dirs);
    }
  }

  /**
    The output is a single `<li>` element: its events are an open `li`, a balanced inner
    stream, and the matching close, and the text written is exactly their emission.
  */
  lemma FragmentIsOneListItem(worldName: string, worldPath: string, level: LevelData,
                              papyrus: Option<string>, brv: Option<string>)
    ensures var n := Fragment(worldName, worldPath, level, papyrus, brv);
      && Balanced(Events(n))
      && Render(n) == EmitAll(Events(n))
      && exists inner :: Events(n) == [Open("li", [])] + inner + [Close("li")] && Balanced(inner)
  {
    var n := Fragment(worldName, worldPath, level, papyrus, brv);
    RenderBalanced(n);
    var inner := EventsAll(n.children);
    EventsAllNeutral(n.children, [], []);
    assert inner + [] == inner;
  }

  /** `s` occurs in `text` starting at index `k`. */
  predicate OccursAt(text: string, s: string, k: int) {
    0 <= k <= |text| - |s| && text[k..k + |s|] == s
  }

  /** `s` occurs somewhere in `text`. */
  ghost predicate Contains(text: string, s: string) {
    exists k :: OccursAt(text, s, k)
  }

  lemma ContainsEnd(prefix: string, s: string)
    ensures Contains(prefix + s, s)
  {
    var k := |prefix|;
    assert (prefix + s)[k..k + |s|] == s;
    assert OccursAt(prefix + s, s, k);
  }

  lemma ContainsExtend(text: string, s: string, more: string)
    requires Contains(text, s)
    ensures Contains(text + more, s)
  {
    var k :| OccursAt(text, s, k);
    assert (text + more)[k..k + |s|] == text[k..k + |s|];
    assert OccursAt(text + more, s, k);
  }

  /** Each piece occurs in the concatenation of the pieces. */
  lemma {:induction false} ContainsPart(ss: seq<string>, i: nat)
    requires i < |ss|
    ensures Contains(Concat(ss), ss[i])
    decreases |ss|
  {
    var k := |ss| - 1;
    if i == k {
      ContainsEnd(Concat(ss[..k]), ss[k]);
    } else {
      ContainsPart(ss[..k], i);
      ContainsExtend(Concat(ss[..k]), ss[i], ss[k]);
    }
  }

  /** Text is still found once something is written before and after it. */
  lemma ContainsWrapped(before: string, text: string, after: string, s: string)
    requires Contains(text, s)
    ensures Contains(before + text + after, s)
  {
    var k :| OccursAt(text, s, k);
    assert (before + text)[|before| + k..|before| + k + |s|] == text[k..k + |s|];
    assert OccursAt(before + text, s, |before| + k);
    ContainsExtend(before + text, s, after);
  }

  /** The expected text contains each of its seven pieces. */
  lemma ExpectedHasPart(worldName: string, worldPath: string, level: LevelData,
                        mapExists: bool, indexExists: bool, i: nat)
    requires i < 7
    ensures Contains(ExpectedText(worldName, worldPath, level, mapExists, indexExists),
                     Parts(worldName, worldPath, level, mapExists, indexExists)[i])
  {
    var ss := Parts(worldName, worldPath, level, mapExists, indexExists);
    ContainsPart(ss, i);
    ContainsWrapped("<li>", Concat(ss), "</li>", ss[i]);
  }

  // Literal forms of the strings the tests look for, built up piece by piece

  /** The plain name div of the test world. */
  lemma PlainHeadLiteral(name: string)
    requires name == "acheivements world"
    ensures "<div><span>" + name + "</span></div>" == "<div><span>acheivements world</span></div>"
  {
    var s1 := "<div><span>" + name;
    assert s1 == "<div><span>acheivements world";
  }

  /** The opening of a link row to "map" in the test world. */
  lemma MapOpenLiteral(path: string)
    requires path == "acheivementsworld"
    ensures "<div><a href=\"" + path + "/" + "map" + "/\">" == "<div><a href=\"acheivementsworld/map/\">"
  {
    var s1 := "<div><a href=\"" + path;
    assert s1 == "<div><a href=\"acheivementsworld";
    var s2 := s1 + "/";
    assert s2 == "<div><a href=\"acheivementsworld/";
    var s3 := s2 + "map";
    assert s3 == "<div><a href=\"acheivementsworld/map";
  }

  /** The opening of a link row to "index" in the test world. */
  lemma IndexOpenLiteral(path: string)
    requires path == "acheivementsworld"
    ensures "<div><a href=\"" + path + "/" + "index" + "/\">" == "<div><a href=\"acheivementsworld/index/\">"
  {
    var s1 := "<div><a href=\"" + path;
    assert s1 == "<div><a href=\"acheivementsworld";
    var s2 := s1 + "/";
    assert s2 == "<div><a href=\"acheivementsworld/";
    var s3 := s2 + "index";
    assert s3 == "<div><a href=\"acheivementsworld/index";
  }

  /** The name linked to "map", as the tests spell it. */
  lemma MapHeadLiteral(path: string, name: string)
    requires path == "acheivementsworld" && name == "acheivements world"
    ensures LinkRowText(path, "map", name) == "<div><a href=\"acheivementsworld/map/\">acheivements world</a></div>"
  {
    MapOpenLiteral(path);
    var s5 := "<div><a href=\"acheivementsworld/map/\">" + name;
    assert s5 == "<div><a href=\"acheivementsworld/map/\">acheivements world";
  }

  /** The name linked to "index", as the tests spell it. */
  lemma IndexHeadLiteral(path: string, name: string)
    requires path == "acheivementsworld" && name == "acheivements world"
    ensures LinkRowText(path, "index", name) == "<div><a href=\"acheivementsworld/index/\">acheivements world</a></div>"
  {
    IndexOpenLiteral(path);
    var s5 := "<div><a href=\"acheivementsworld/index/\">" + name;
    assert s5 == "<div><a href=\"acheivementsworld/index/\">acheivements world";
  }

  /** The Papyrus link row of the test world. */
  lemma PapyrusRowLiteral(path: string)
    requires path == "acheivementsworld"
    ensures LinkRowText(path, "map", "Papyrus Map") == "<div><a href=\"acheivementsworld/map/\">Papyrus Map</a></div>"
  {
    MapOpenLiteral(path);
    var s5 := "<div><a href=\"acheivementsworld/map/\">" + "Papyrus Map";
    assert s5 == "<div><a href=\"acheivementsworld/map/\">Papyrus Map";
  }

  /** The Bedrock-viz link row of the test world. */
  lemma BrvRowLiteral(path: string)
    requires path == "acheivementsworld"
    ensures LinkRowText(path, "index", "Bedrock-viz Map") == "<div><a href=\"acheivementsworld/index/\">Bedrock-viz Map</a></div>"
  {
    IndexOpenLiteral(path);
    var s5 := "<div><a href=\"acheivementsworld/index/\">" + "Bedrock-viz Map";
    assert s5 == "<div><a href=\"acheivementsworld/index/\">Bedrock-viz Map";
  }

  /**
    The test world: "acheivements world" read from the level file, no option given, run in
    `userDir`; `mapExists` and `indexExists` say whether `userDir/acheivementsworld/map` and
    `userDir/acheivementsworld/index` are directories.
  */
  lemma TestWorld(level: LevelData, userDir: string, dirs: set<string>, mapExists: bool, indexExists: bool)
    requires level.levelName == "acheivements world"
    requires mapExists == (MapDir(userDir, "acheivementsworld", PapyrusDir) in dirs)
    requires indexExists == (MapDir(userDir, "acheivementsworld", BrvDir) in dirs)
    ensures var out := SnippetOutput(Options(None, None, None), CompoundRoot(level), userDir, dirs);
      && out.Success?
      && out.value == ExpectedText(level.levelName, "acheivementsworld", level, mapExists, indexExists)
  {
    AchievementsWorldSlug(level.levelName);
    SnippetText(Options(None, None, None), CompoundRoot(level), userDir, dirs);
  }

  /** Without any map directory the name is shown plainly. */
  lemma OutputWithoutMaps(level: LevelData, userDir: string, dirs: set<string>)
    requires level.levelName == "acheivements world"
    requires MapDir(userDir, "acheivementsworld", PapyrusDir) !in dirs
    requires MapDir(userDir, "acheivementsworld", BrvDir) !in dirs
    ensures var out := SnippetOutput(Options(None, None, None), CompoundRoot(level), userDir, dirs);
      && out.Success?
      && Contains(out.value, "<div><span>acheivements world</span></div>")
      && out.value == "<li>" + Concat(Parts(level.levelName, "acheivementsworld", level, false, false)[..5]) + "</li>"
  {
    TestWorld(level, userDir, dirs, false, false);
    ExpectedHasPart(level.levelName, "acheivementsworld", level, false, false, 0);
    PlainHeadLiteral(level.levelName);
    NoLinkRows(Parts(level.levelName, "acheivementsworld", level, false, false));
  }

  /** Two empty trailing pieces add nothing. */
  lemma NoLinkRows(ss: seq<string>)
    requires |ss| == 7 && ss[5] == "" && ss[6] == ""
    ensures Concat(ss) == Concat(ss[..5])
  {
    assert ss[..6][..5] == ss[..5];
    assert Concat(ss[..6]) == Concat(ss[..5]) + "";
    assert ss[..6] == ss[..|ss| - 1];
  }

  /** With a "map" directory the name links to it, and the Papyrus link row is present. */
  lemma OutputWithPapyrusMap(level: LevelData, userDir: string, dirs: set<string>)
    requires level.levelName == "acheivements world"
    requires MapDir(userDir, "acheivementsworld", PapyrusDir) in dirs
    requires MapDir(userDir, "acheivementsworld", BrvDir) !in dirs
    ensures var out := SnippetOutput(Options(None, None, None), CompoundRoot(level), userDir, dirs);
      && out.Success?
      && Contains(out.value, "<div><a href=\"acheivementsworld/map/\">acheivements world</a></div>")
      && Contains(out.value, "<div><a href=\"acheivementsworld/map/\">Papyrus Map</a></div>")
  {
    TestWorld(level, userDir, dirs, true, false);
    ExpectedHasPart(level.levelName, "acheivementsworld", level, true, false, 0);
    ExpectedHasPart(level.levelName, "acheivementsworld", level, true, false, 5);
    MapHeadLiteral("acheivementsworld", level.levelName);
    PapyrusRowLiteral("acheivementsworld");
  }

  /** With only an "index" directory the name links to it, and the Bedrock-viz link row is present. */
  lemma OutputWithBrvMap(level: LevelData, userDir: string, dirs: set<string>)
    requires level.levelName == "acheivements world"
    requires MapDir(userDir, "acheivementsworld", PapyrusDir) !in dirs
    requires MapDir(userDir, "acheivementsworld", BrvDir) in dirs
    ensures var out := SnippetOutput(Options(None, None, None), CompoundRoot(level), userDir, dirs);
      && out.Success?
      && Contains(out.value, "<div><a href=\"acheivementsworld/index/\">acheivements world</a></div>")
      && Contains(out.value, "<div><a href=\"acheivementsworld/index/\">Bedrock-viz Map</a></div>")
  {
    TestWorld(level, userDir, dirs, false, true);
    ExpectedHasPart(level.levelName, "acheivementsworld", level, false, true, 0);
    ExpectedHasPart(level.levelName, "acheivementsworld", level, false, true, 6);
    IndexHeadLiteral("acheivementsworld", level.levelName);
    BrvRowLiteral("acheivementsworld");
  }

  /** With both directories the name links to "map", and both renderer link rows are present. */
  lemma OutputWithBothMaps(level: LevelData, userDir: string, dirs: set<string>)
    requires level.levelName == "acheivements world"
    requires MapDir(userDir, "acheivementsworld", PapyrusDir) in dirs
    requires MapDir(userDir, "acheivementsworld", BrvDir) in dirs
    ensures var out := SnippetOutput(Options(None, None, None), CompoundRoot(level), userDir, dirs);
      && out.Success?
      && Contains(out.value, "<div><a href=\"acheivementsworld/map/\">acheivements world</a></div>")
      && Contains(out.value, "<div><a href=\"acheivementsworld/map/\">Papyrus Map</a></div>")
      && Contains(out.value, "<div><a href=\"acheivementsworld/index/\">Bedrock-viz Map</a></div>")
  {
    TestWorld(level, userDir, dirs, true, true);
    ExpectedHasPart(level.levelName, "acheivementsworld", level, true, true, 0);
    ExpectedHasPart(level.levelName, "acheivementsworld", level, true, true, 5);
    ExpectedHasPart(level.levelName, "acheivementsworld", level, true, true, 6);
    MapHeadLiteral("acheivementsworld", level.levelName);
    PapyrusRowLiteral("acheivementsworld");
    BrvRowLiteral("acheivementsworld");
  }

  // ---------------------------------------------------------------------------
  // The application object: option fields that `run()` fills in, then the output

  class App {
    var worldName: Option<string>
    var worldPath: Option<string>
    var basePath: Option<string>

    /** The options as the command line set them; an absent option is null. */
    constructor (worldName: Option<string>, worldPath: Option<string>, basePath: Option<string>)
      ensures this.worldName == worldName && this.worldPath == worldPath && this.basePath == basePath
    {
      this.worldName := worldName;
      this.worldPath := worldPath;
      this.basePath := basePath;
    }

    /**
      `run()`: on a compound root, fills in the missing fields in order (the name, then the
      path from the resolved name, then the base), checks the two directories and writes
      the fragment to `out`; on any other root, writes the diagnostic line to `err` and
      ends with exit status 2.
    */
    method Run(root: Root, userDir: string, dirs: set<string>, out: Writer, err: Writer)
      returns (exitCode: int)
      requires out != err
      modifies this, out, err
      ensures var r := SnippetOutput(Options(old(worldName), old(worldPath), old(basePath)), root, userDir, dirs);
        (r.Success? ==> exitCode == 0 && out.written == old(out.written) + r.value && err.written == old(err.written))
        && (r.Failure? ==> exitCode == r.exitCode && out.written == old(out.written)
                           && err.written == old(err.written) + r.message + "\n")
      ensures root.CompoundRoot? ==>
        && worldName == Some(Override(old(worldName), root.level.levelName))
        && worldPath == Some(ResolvePath(old(worldPath), worldName.value))
        && basePath == Some(Override(old(basePath), userDir))
      ensures root.OtherTag? ==>
        worldName == old(worldName) && worldPath == old(worldPath) && basePath == old(basePath)
    {
      ghost var given := Options(worldName, worldPath, basePath);
      match root
      case OtherTag =>
        err.Append(NotCompoundMessage + "\n");
        exitCode := 2;
      case CompoundRoot(level) =>
        if worldName.None? {
          worldName := Some(level.levelName);
        }
        if worldPath.None? {
          worldPath := Some(Slug(worldName.value));
        }
        if basePath.None? {
          basePath := Some(userDir);
        }
        var papyrusPath := CheckPath(PapyrusDir, MapDir(basePath.value, worldPath.value, PapyrusDir) in dirs);
        var brvPath := CheckPath(BrvDir, MapDir(basePath.value, worldPath.value, BrvDir) in dirs);
        var fragment := Fragment(worldName.value, worldPath.value, level, papyrusPath, brvPath);
        assert SnippetOutput(given, root, userDir, dirs) == Success(Render(fragment));
        Accept(fragment, out);
        exitCode := 0;
    }
  }
}
