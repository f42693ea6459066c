# levelsnippet in Dafny

levelsnippet is a small command-line program. It reads a Minecraft Bedrock `level.dat` file and writes one HTML `<li>` fragment describing the world to standard output:
- the world's name, linked to a rendered map when one exists;
- its seed, game type, difficulty and last-played date;
- a link to each renderer's output directory ("map" for Papyrus, "index" for Bedrock-viz) that exists under the world's web path.

This project models the core of `App.java`. Each core file keeps its own form:

- `html.dfy` (module `Html`) covers the HTML builder. It holds:
  - the tree of `t`, `tag`, `ifNotNull`, `a`, `div` and `span` values as a `Node` datatype;
  - their serialisation as the function `Render`;
  - the Java closures that append to a `java.io.Writer`, modelled as a `Writer` class and the methods `Accept`/`AcceptChildren`/`AcceptOpen`/`AcceptAttr`/`AcceptClose`, with loops over the attributes and the children. These are proved to append exactly `Render`.

  The rendering is also read as a stream of open/text/close events. Every rendered node is proved to be tag-balanced.
- `world.dfy` (module `World`) covers the world descriptor:
  - the game-type and difficulty labels;
  - the slug that turns a world name into a web path (`replaceAll("[^A-Za-z0-9_]", "")`);
  - the precedence of the command-line options over the values read from the file.
- `maplinks.dfy` (module `MapLinks`) covers `checkPath`: the directory it looks at, and what it returns. It also covers the default-map choice, which prefers "map" over "index".
- `snippet.dfy` (module `Snippet`) covers the `<li>` that `run()` builds and the text it renders to. It also holds the run as a whole: an `App` class whose `Run` method fills in the missing option fields in place and writes to the two writers, plus statements of the test suite's expectations.
- `wrappers.dfy` (module `Wrappers`) holds `Option` (Java's null) and the `Result` of a run.

## Model

| member | source | states |
|---|---|---|
| World.GameTypeLabel | src/main/java/org/ethelred/levelsnippet/App.java:141-150 | total over all ints. The result is "Survival" iff the code is 0, "Creative" iff it is 1, and "Unknown" iff it is neither |
| World.DifficultyLabel | src/main/java/org/ethelred/levelsnippet/App.java:152-165 | total over all ints. Its four iff clauses map 0..3 to Peaceful/Easy/Normal/Hard, and "Unknown" is the result iff the code is outside 0..3 |
| World.Slug | src/main/java/org/ethelred/levelsnippet/App.java:84 | every character kept is in `[A-Za-z0-9_]`, and the slug is never longer than the name |
| World.SlugAppend | src/main/java/org/ethelred/levelsnippet/App.java:84 | the slug of a concatenation is the concatenation of the slugs: the filter works character by character |
| World.SlugChar | src/main/java/org/ethelred/levelsnippet/App.java:84 | a single character is kept iff it is in `[A-Za-z0-9_]` |
| World.SlugFixedPoint | src/main/java/org/ethelred/levelsnippet/App.java:84 | a string is its own slug iff every character is in `[A-Za-z0-9_]` (both directions) |
| World.SlugIdempotent | src/main/java/org/ethelred/levelsnippet/App.java:84 | slugging a slug changes nothing |
| World.SlugCounts | src/main/java/org/ethelred/levelsnippet/App.java:84 | each allowed character occurs in the slug exactly as often as in the name, and each other character not at all |
| World.SlugIsSubsequence | src/main/java/org/ethelred/levelsnippet/App.java:84 | the slug is a subsequence of the name: characters are only removed, never reordered or added |
| World.Override | src/main/java/org/ethelred/levelsnippet/App.java:79-89 | a given option wins; without one, the fallback is used: `LevelName` from the file for the name, the working directory for the base |
| World.ResolvePath | src/main/java/org/ethelred/levelsnippet/App.java:83-85 | a given `--world-path` is used verbatim and unsanitised; without one, the path is the slug of the resolved name, made only of slug characters |
| World.NameOverrideIgnoresLevelName | src/main/java/org/ethelred/levelsnippet/App.java:79-85 | with a given name, the level file's `LevelName` can change neither the name nor the derived path |
| World.SlugDropsSpace | src/main/java/org/ethelred/levelsnippet/App.java:84 | two slug-clean words joined by a space slug to the two words run together |
| World.AchievementsWorldSlug | src/test/java/org/ethelred/levelsnippet/AppTest.java:85 | "acheivements world" slugs to "acheivementsworld", the path the tests create directories under |
| MapLinks.Resolve | src/main/java/org/ethelred/levelsnippet/App.java:125 | an empty child leaves the base unchanged. A non-empty child always ends the result, and a relative child keeps the base as its prefix |
| MapLinks.MapDirJoins | src/main/java/org/ethelred/levelsnippet/App.java:125 | for a base without a trailing slash and relative segments, the examined directory is `base/worldPath/dir` |
| MapLinks.CheckPath | src/main/java/org/ethelred/levelsnippet/App.java:124-127 | the result is non-null iff the directory exists, and when non-null it is the directory's own name |
| MapLinks.DefaultMap | src/main/java/org/ethelred/levelsnippet/App.java:93 | the result is present iff either link is present. It is always one of the two, and it is the Papyrus one whenever that is present |
| MapLinks.DefaultMapPriority | src/main/java/org/ethelred/levelsnippet/App.java:91-93 | the default link is "map" if that directory exists, otherwise "index" if that one exists, otherwise none |
| Html.RenderAttrsAppend | src/main/java/org/ethelred/levelsnippet/App.java:178-182 | the attributes render one after another in iteration order |
| Html.RenderAllAppend | src/main/java/org/ethelred/levelsnippet/App.java:184-186 | the rendering of a concatenation of children is the concatenation of their renderings |
| Html.RenderAllAt | src/main/java/org/ethelred/levelsnippet/App.java:184-186 | each child's text sits between the text of the children before it and the text of those after it |
| Html.TextRenders | src/main/java/org/ethelred/levelsnippet/App.java:167-169 | `t` writes its text verbatim |
| Html.TagRenders | src/main/java/org/ethelred/levelsnippet/App.java:171-189 | `tag` writes `<name`, the attributes, `>`, the children in argument order, and then `</name>` |
| Html.PlainTagRenders | src/main/java/org/ethelred/levelsnippet/App.java:203-205 | `tag` without attributes writes `<name>`, the children, then `</name>` |
| Html.IfNotNullRenders | src/main/java/org/ethelred/levelsnippet/App.java:191-197 | `ifNotNull` writes nothing for null and exactly the wrapped node otherwise |
| Html.AnchorRenders | src/main/java/org/ethelred/levelsnippet/App.java:199-201 | `a` writes `<a href="…">`, the children, then `</a>` |
| Html.AnchorOpen | src/main/java/org/ethelred/levelsnippet/App.java:200 | the single `href` attribute opens the anchor as `<a href="…">` |
| Html.DivRenders | src/main/java/org/ethelred/levelsnippet/App.java:207-209 | `div` wraps its children in `<div>`…`</div>` |
| Html.SpanRenders | src/main/java/org/ethelred/levelsnippet/App.java:211-213 | `span` wraps its children in `<span>`…`</span>` |
| Html.NoEscaping | src/main/java/org/ethelred/levelsnippet/App.java:168 | text is written unchanged, even when it contains markup |
| Html.Writer.Append | src/main/java/org/ethelred/levelsnippet/App.java:177 | appending adds exactly the given characters at the end |
| Html.AcceptAttr | src/main/java/org/ethelred/levelsnippet/App.java:179-181 | one attribute is written as ` k="v"` |
| Html.AcceptOpen | src/main/java/org/ethelred/levelsnippet/App.java:177-183 | the attribute loop writes the opening tag, attributes in iteration order |
| Html.AcceptClose | src/main/java/org/ethelred/levelsnippet/App.java:187 | the closing tag `</name>` is appended |
| Html.Accept | src/main/java/org/ethelred/levelsnippet/App.java:176-188 | accepting a node appends exactly its rendering to the writer |
| Html.AcceptChildren | src/main/java/org/ethelred/levelsnippet/App.java:184-186 | the child loop appends exactly the children's renderings, in order |
| Html.RenderIsEmitted | src/main/java/org/ethelred/levelsnippet/App.java:171-189 | the rendering is the emission of the node's open/text/close events |
| Html.RenderAllIsEmitted | src/main/java/org/ethelred/levelsnippet/App.java:184-186 | the same for a list of children |
| Html.EventsNeutral | src/main/java/org/ethelred/levelsnippet/App.java:176-188 | a node's events leave any surrounding stack of open elements as they found it: every open is closed by a matching close |
| Html.RenderBalanced | src/main/java/org/ethelred/levelsnippet/App.java:171-189 | every built node's output is a tag-balanced event stream |
| Snippet.RowRenders | src/main/java/org/ethelred/levelsnippet/App.java:102 | a caption/value row renders as `<div><span>caption</span><span>value</span></div>` |
| Snippet.LinkRenders | src/main/java/org/ethelred/levelsnippet/App.java:108 | a link row renders as `<div><a href="path/dir/">caption</a></div>` |
| Snippet.HeadRenders | src/main/java/org/ethelred/levelsnippet/App.java:97-101 | the first div is the plain name without maps, otherwise the name linked to the default map |
| Snippet.TrailerRenders | src/main/java/org/ethelred/levelsnippet/App.java:106-113 | a renderer link row is written exactly when its directory exists |
| Snippet.FragmentText | src/main/java/org/ethelred/levelsnippet/App.java:95-114 | the `<li>` holds, in this order: the name div; the Seed, Type, Difficulty and Last Played rows; the Papyrus link iff "map" exists; the Bedrock-viz link iff "index" exists |
| Snippet.ChildRenders | src/main/java/org/ethelred/levelsnippet/App.java:97-113 | each of the seven children renders as its piece of the expected text |
| Snippet.RenderAllConcat | src/main/java/org/ethelred/levelsnippet/App.java:184-186 | children whose renderings are given pieces render as those pieces concatenated |
| Snippet.ListItemText | src/main/java/org/ethelred/levelsnippet/App.java:203-205 | the `<li>` wraps its children's text in `<li>`…`</li>` |
| Snippet.SnippetText | src/main/java/org/ethelred/levelsnippet/App.java:73-114 | a non-compound root fails with status 2 and the CompoundTag message. Otherwise the output is the expected `<li>`, for the resolved name and path, with links chosen by which directories exist under the resolved base and path |
| Snippet.FragmentIsOneListItem | src/main/java/org/ethelred/levelsnippet/App.java:95-115 | the output is a single `li` element around a balanced inner stream |
| Snippet.ContainsPart | src/main/java/org/ethelred/levelsnippet/App.java:95-114 | each piece of the fragment occurs in the output |
| Snippet.ExpectedHasPart | src/main/java/org/ethelred/levelsnippet/App.java:95-114 | the expected `<li>` contains each of its seven pieces |
| Snippet.TestWorld | src/test/java/org/ethelred/levelsnippet/AppTest.java:66-79 | for the test level with no options, each run succeeds and derives the path "acheivementsworld" |
| Snippet.OutputWithoutMaps | src/test/java/org/ethelred/levelsnippet/AppTest.java:77 | with no map directory, the output contains `<div><span>acheivements world</span></div>` and ends after the Last Played row, with no link rows |
| Snippet.OutputWithPapyrusMap | src/test/java/org/ethelred/levelsnippet/AppTest.java:96 | with `map`, the output contains the name linked to `acheivementsworld/map/` and the Papyrus row |
| Snippet.OutputWithBrvMap | src/test/java/org/ethelred/levelsnippet/AppTest.java:118 | with only `index`, the output contains the name linked to `acheivementsworld/index/` and the Bedrock-viz row |
| Snippet.OutputWithBothMaps | src/test/java/org/ethelred/levelsnippet/AppTest.java:141 | with both directories, the name links to `map` and both renderer rows are present |
| Snippet.App.constructor | src/main/java/org/ethelred/levelsnippet/App.java:43-45 | the three option fields hold what the command line gave, with null for an absent option |
| Snippet.App.Run | src/main/java/org/ethelred/levelsnippet/App.java:51-122 | see below |

`Snippet.App.Run` states the following:
- On success, the exit status is 0, exactly the expected text is appended to `out`, and `err` is untouched.
- On a non-compound root, the exit status is 2, the diagnostic line is appended to `err`, and `out` is untouched.
- The three option fields are filled in place with the resolved name, path and base, and are unchanged on failure.

## Left out

- Decoding the NBT file (lines 53-71: little-endian, uncompressed, an 8-byte header skipped) is left out. The model starts from the decoded root: either a compound tag with its fields or some other tag.
- The name read from the file: `compoundTag.getString("LevelName")` is taken to yield a string. The library's behaviour for a missing key is not part of this model.
- The seed is taken as already formatted text. `Objects.toString` of a `long` is Java's decimal formatting, which is not modelled.
- The last-played date: `_lastPlayed` (lines 129-139) depends on the system time zone and locale (a localised medium date), so the date arrives as text.
- The game type and difficulty codes are unbounded ints. `getInt`'s 32-bit range makes no difference to the labels.
- Command-line parsing is left out: args4j, the required `LEVEL_FILE` argument and the usage error with status 1 that `AppTest.java:55-63` checks. `App.constructor` takes the three parsed options.
- The filesystem is modelled as a set of paths that are directories, and `user.dir` as a string. `MapLinks.Resolve` does not model `Path`'s normalisation of repeated or trailing slashes.
- Only the ordering of output is modelled: stream buffering, `flush`, `close`, and the `IOException` handler that prints a stack trace are left out. `System.exit(2)` is the exit status that `Run` returns.
- `println` on standard error is modelled as the message plus `"\n"`; the platform line separator is not modelled.
- The model keeps attributes as a sequence in iteration order. The source only ever builds maps with zero entries or one entry (`Map.of`), so the unspecified iteration order of larger maps never arises.
- `Html.RenderBalanced` proves balance on the event stream. The text itself is not parsed back: text and attribute values are not escaped (see `Html.NoEscaping`), so a name containing markup would not read back as the same events.
