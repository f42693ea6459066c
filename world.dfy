/**
  World-descriptor derivation in App.java: the game-type and difficulty labels, the
  `worldPath` slug, and the precedence of caller overrides over decoded fields.
*/
module World {
  import opened Wrappers

  // ---------------------------------------------------------------------------
  // Labels

  /** `_gameType`: total over the decoded `GameType` integer. */
  function GameTypeLabel(code: int): (r: string)
    ensures r == "Survival" <==> code == 0
    ensures r == "Creative" <==> code == 1
    ensures r == "Unknown" <==> code != 0 && code != 1
  {
    match code
    case 1 => "Creative"
    case 0 => "Survival"
    case _ => "Unknown"
  }

  /** `_difficulty`: total over the decoded `Difficulty` integer. */
  function DifficultyLabel(code: int): (r: string)
    ensures r == "Peaceful" <==> code == 0
    ensures r == "Easy" <==> code == 1
    ensures r == "Normal" <==> code == 2
    ensures r == "Hard" <==> code == 3
    ensures r == "Unknown" <==> !(0 <= code <= 3)
  {
    match code
    case 0 => "Peaceful"
    case 1 => "Easy"
    case 2 => "Normal"
    case 3 => "Hard"
    case _ => "Unknown"
  }

  // ---------------------------------------------------------------------------
  // The worldPath slug: `replaceAll("[^A-Za-z0-9_]", "")`

  /** The characters the slug keeps. */
  predicate IsSlugChar(c: char) {
    'A' <= c <= 'Z' || 'a' <= c <= 'z' || '0' <= c <= '9' || c == '_'
  }

  /** `s` with every character outside `[A-Za-z0-9_]` removed. */
  function Slug(s: string): (r: string)
    ensures forall i :: 0 <= i < |r| ==> IsSlugChar(r[i])
    ensures |r| <= |s|
  {
    if s == [] then [] else (if IsSlugChar(s[0]) then [s[0]] else []) + Slug(s[1..])
  }

  /** The slug works character by character: it distributes over concatenation. */
  lemma {:induction false} SlugAppend(a: string, b: string)
    ensures Slug(a + b) == Slug(a) + Slug(b)
  {
    if a == [] {
      assert a + b == b;
    } else {
      assert (a + b)[0] == a[0];
      assert (a + b)[1..] == a[1..] + b;
      SlugAppend(a[1..], b);
    }
  }

  /** A single character is kept exactly when it is in `[A-Za-z0-9_]`. */
  lemma SlugChar(c: char)
    ensures Slug([c]) == if IsSlugChar(c) then [c] else []
  {
  }

  /** Every character of `s` is a slug character. */
  predicate AllSlugChars(s: string) {
    forall i :: 0 <= i < |s| ==> IsSlugChar(s[i])
  }

  lemma AllSlugCharsCons(s: string)
    requires s != []
    ensures AllSlugChars(s) <==> IsSlugChar(s[0]) && AllSlugChars(s[1..])
  {
  }

  /** A string is its own slug exactly when every character is already a slug character. */
  lemma {:induction false} SlugFixedPoint(s: string)
    ensures Slug(s) == s <==> AllSlugChars(s)
  {
    if s != [] {
      SlugFixedPoint(s[1..]);
      AllSlugCharsCons(s);
      if IsSlugChar(s[0]) {
        assert Slug(s) == [s[0]] + Slug(s[1..]);
        assert Slug(s) == s <==> Slug(s[1..]) == s[1..] by {
          assert s == [s[0]] + s[1..];
          if Slug(s) == s {
            assert Slug(s)[1..] == Slug(s[1..]);
          }
        }
      } else {
        // the first character is dropped, so the slug is strictly shorter
        assert |Slug(s)| == |Slug(s[1..])| < |s|;
      }
    }
  }

  /** Deriving the slug again changes nothing. */
  lemma SlugIdempotent(s: string)
    ensures Slug(Slug(s)) == Slug(s)
  {
    SlugFixedPoint(Slug(s));
  }

  /** Every slug character of `s` is kept as often as it occurs, every other character is gone. */
  lemma {:induction false} SlugCounts(s: string, c: char)
    ensures multiset(Slug(s))[c] == if IsSlugChar(c) then multiset(s)[c] else 0
  {
    if s != [] {
      SlugCounts(s[1..], c);
      assert s == [s[0]] + s[1..];
      assert multiset(s) == multiset([s[0]]) + multiset(s[1..]);
    }
  }

  /** `r` can be obtained from `s` by deleting characters, keeping the rest in order. */
  predicate IsSubsequence(r: string, s: string)
    decreases |s|
  {
    if r == [] then true
    else if s == [] then false
    else if r[0] == s[0] then IsSubsequence(r[1..], s[1..])
    else IsSubsequence(r, s[1..])
  }

  /** The slug is a subsequence of the name: characters keep their order. */
  lemma {:induction false} SlugIsSubsequence(s: string)
    ensures IsSubsequence(Slug(s), s)
  {
    if s != [] {
      SlugIsSubsequence(s[1..]);
      var rest := Slug(s[1..]);
      if IsSlugChar(s[0]) {
        assert Slug(s) == [s[0]] + rest;
        assert ([s[0]] + rest)[1..] == rest;
      } else {
        assert Slug(s) == rest;
        SkipStep(rest, s);
      }
    }
  }

  /** Skipping a leading character of `s` keeps a subsequence of the tail a subsequence of `s`. */
  lemma {:induction false} SkipStep(r: string, s: string)
    requires s != [] && IsSubsequence(r, s[1..])
    ensures IsSubsequence(r, s)
    decreases |s|, |r|
  {
    if r != [] && r[0] == s[0] {
      // r[1..] is a subsequence of r, which is a subsequence of s[1..]
      TailSubsequence(r, s[1..]);
    }
  }

  /** Dropping the first character of a non-empty subsequence keeps it a subsequence. */
  lemma {:induction false} TailSubsequence(r: string, s: string)
    requires r != [] && IsSubsequence(r, s)
    ensures IsSubsequence(r[1..], s)
    decreases |s|, |r|
  {
    if r[0] == s[0] {
      SkipStep(r[1..], s);
    } else {
      TailSubsequence(r, s[1..]);
      SkipStep(r[1..], s);
    }
  }

  // ---------------------------------------------------------------------------
  // Override precedence (App.run, the three `if (... == null)` assignments)

  /**
    The rule of all three `if (field == null)` assignments: an option the caller gave wins,
    otherwise the fallback is used (`LevelName` for the name, `user.dir` for the base).
  */
  function Override(given: Option<string>, fallback: string): (r: string)
    ensures given.Some? ==> r == given.value
    ensures given.None? ==> r == fallback
  {
    if given.Some? then given.value else fallback
  }

  /** `worldPath`: the caller's path verbatim if given, otherwise the slug of the resolved name. */
  function ResolvePath(given: Option<string>, worldName: string): (r: string)
    ensures given.Some? ==> r == given.value
    ensures given.None? ==> r == Slug(worldName) && AllSlugChars(r)
  {
    Override(given, Slug(worldName))
  }

  /** With a caller-supplied name, the decoded `LevelName` cannot influence the name or the derived path. */
  lemma NameOverrideIgnoresLevelName(name: string, path: Option<string>, levelA: string, levelB: string)
    ensures Override(Some(name), levelA) == Override(Some(name), levelB)
    ensures ResolvePath(path, Override(Some(name), levelA)) == ResolvePath(path, Override(Some(name), levelB))
  {
  }

  /** Two slug words joined by a space: the space is the only thing removed. */
  lemma SlugDropsSpace(a: string, b: string)
    requires AllSlugChars(a) && AllSlugChars(b)
    ensures Slug(a + " " + b) == a + b
  {
    SlugAppend(a + " ", b);
    SlugAppend(a, " ");
    SlugChar(' ');
    SlugFixedPoint(a);
    SlugFixedPoint(b);
  }

  /** The derivation in the tests: "acheivements world" becomes "acheivementsworld". */
  lemma AchievementsWorldSlug(name: string)
    requires name == "acheivements world"
    ensures Slug(name) == "acheivementsworld"
  {
    var a, b := "acheivements", "world";
    assert AllSlugChars(a);
    assert AllSlugChars(b);
    SlugDropsSpace(a, b);
    assert a + " " + b == name;
  }
}
