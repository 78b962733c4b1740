/**
 * The parser at the head of `handleSearch`: the raw search text is trimmed
 * and split on `#`; it names a player only when that gives exactly two
 * non-empty parts, the game name and the tag line. The parts themselves are
 * not trimmed again.
 */
module RiotId {
  import opened JsText

  /** What one submission of the search box amounts to. */
  datatype Submission =
    | Blank                                      // nothing but white space: ignored
    | BadFormat                                  // not `name#tag`: reported
    | Player(gameName: string, tagLine: string)  // a lookup to issue

  /** The message shown for text that is not of the form `name#tag`. */
  const BadFormatMessage := "Formato inválido. Usa Nombre#TAG"

  function ParseRiotId(raw: string): (r: Submission)
    ensures r.Player? ==> r.gameName != "" && r.tagLine != ""
    ensures r.Player? ==> '#' !in r.gameName && '#' !in r.tagLine
  {
    var trimmed := Trim(raw);
    if trimmed == "" then Blank
    else
      var parts := Split(trimmed, '#');
      if |parts| != 2 || parts[0] == "" || parts[1] == "" then BadFormat
      else Player(parts[0], parts[1])
  }

  /** `s` is a game name and a tag line, both non-empty, around a single `#`. */
  ghost predicate IsRiotIdText(s: string, gameName: string, tagLine: string) {
    && s == gameName + "#" + tagLine
    && gameName != "" && tagLine != ""
    && '#' !in gameName && '#' !in tagLine
  }

  /**
   * Acceptance, both ways: the parser names exactly the player whose game
   * name and tag line make up the trimmed input around its one `#`.
   */
  lemma ParseAcceptsExactlyRiotIds(raw: string, gameName: string, tagLine: string)
    ensures ParseRiotId(raw) == Player(gameName, tagLine)
        <==> IsRiotIdText(Trim(raw), gameName, tagLine)
  {
    var trimmed := Trim(raw);
    if ParseRiotId(raw) == Player(gameName, tagLine) {
      var parts := Split(trimmed, '#');
      JoinSplit(trimmed, '#');
      assert parts == [gameName, tagLine];
      assert parts[1..] == [tagLine];
      assert trimmed == gameName + "#" + tagLine;
    }
    if IsRiotIdText(trimmed, gameName, tagLine) {
      SplitTwo(gameName, tagLine, '#');
      assert gameName + "#" + tagLine == gameName + ['#'] + tagLine;
    }
  }

  /** Input that is blank once trimmed is ignored, and only that input. */
  lemma ParseBlankIffAllSpace(raw: string)
    ensures ParseRiotId(raw) == Blank <==> AllSpace(raw)
  {
    TrimEmptyIffAllSpace(raw);
  }

  /**
   * Everything else is reported as a bad format: non-blank text that is
   * not a game name and a tag line around a single `#`.
   */
  lemma ParseRejectsTheRest(raw: string)
    ensures ParseRiotId(raw) == BadFormat
        <==> !AllSpace(raw) && forall g, t :: !IsRiotIdText(Trim(raw), g, t)
  {
    ParseBlankIffAllSpace(raw);
    var r := ParseRiotId(raw);
    if r.Player? {
      ParseAcceptsExactlyRiotIds(raw, r.gameName, r.tagLine);
    }
    forall g, t ensures IsRiotIdText(Trim(raw), g, t) ==> r == Player(g, t) {
      ParseAcceptsExactlyRiotIds(raw, g, t);
    }
  }

  /**
   * White space around the whole text is removed, white space beside the
   * `#` is kept: `"  a #b\n"` names the game name `"a "` and the tag `"b"`.
   */
  lemma InnerSpaceIsKept(pre: string, gameName: string, tagLine: string, post: string)
    requires AllSpace(pre) && AllSpace(post)
    requires gameName != "" && tagLine != "" && '#' !in gameName && '#' !in tagLine
    requires !IsJsSpace(gameName[0]) && !IsJsSpace(tagLine[|tagLine| - 1])
    ensures ParseRiotId(pre + gameName + "#" + tagLine + post) == Player(gameName, tagLine)
  {
    var core := gameName + "#" + tagLine;
    assert core[0] == gameName[0];
    assert core[|core| - 1] == tagLine[|tagLine| - 1];
    assert pre + gameName + "#" + tagLine + post == pre + core + post;
    TrimRemovesSurroundingSpace(pre, core, post);
    ParseAcceptsExactlyRiotIds(pre + core + post, gameName, tagLine);
  }

  /** In a Riot-ID text, the one `#` sits right after the game name. */
  lemma HashPosition(s: string, gameName: string, tagLine: string)
    ensures IsRiotIdText(s, gameName, tagLine) ==>
              forall k :: 0 <= k < |s| ==> (s[k] == '#' <==> k == |gameName|)
  {
    if IsRiotIdText(s, gameName, tagLine) {
      forall k | 0 <= k < |s| ensures s[k] == '#' <==> k == |gameName| {
        if k < |gameName| {
          assert s[k] == gameName[k];
        } else if k > |gameName| {
          assert s[k] == tagLine[k - |gameName| - 1];
        }
      }
    }
  }

  /** Trimmed text holding a second `#` is a bad format. */
  lemma SecondHashRejected(raw: string, i: int, j: int)
    requires 0 <= i < j < |Trim(raw)| && Trim(raw)[i] == '#' && Trim(raw)[j] == '#'
    ensures ParseRiotId(raw) == BadFormat
  {
    TrimEmptyIffAllSpace(raw);
    forall g, t ensures !IsRiotIdText(Trim(raw), g, t) {
      HashPosition(Trim(raw), g, t);
    }
    ParseRejectsTheRest(raw);
  }

  /** Trimmed text that starts or ends with the `#` leaves a side empty: a bad format. */
  lemma EmptySideRejected(raw: string)
    requires Trim(raw) != "" && (Trim(raw)[0] == '#' || Trim(raw)[|Trim(raw)| - 1] == '#')
    ensures ParseRiotId(raw) == BadFormat
  {
    TrimEmptyIffAllSpace(raw);
    forall g, t ensures !IsRiotIdText(Trim(raw), g, t) {
      HashPosition(Trim(raw), g, t);
    }
    ParseRejectsTheRest(raw);
  }

  /** Text that is not blank and has no `#` at all is a bad format. */
  lemma MissingHashRejected(raw: string)
    requires !AllSpace(raw) && '#' !in raw
    ensures ParseRiotId(raw) == BadFormat
  {
    TrimEmptyIffAllSpace(raw);
    var start := TrimStart(raw);
    var s := Trim(raw);
    assert '#' !in s by {
      forall k | 0 <= k < |s| ensures s[k] != '#' {
        assert s[k] == start[k];
        assert start[k] == raw[|raw| - |start| + k];
      }
    }
    SplitWithoutSeparator(s, '#');
  }
}
