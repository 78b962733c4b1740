/**
 * The three panels drawn from a profile: `ProfileHeader`,
 * `ChampionStats` and `SimpleMatchHistory`. Each is the text the panel
 * shows, with the `||` fallbacks and "no data" checks of the page.
 */
module Presenters {
  import opened Wrappers
  import opened JsValue
  import opened PlayerData

  /* ---------------------------------------------------------------------
   * ProfileHeader
   * ------------------------------------------------------------------- */

  const IconPlaceholderPrefix := "https://placehold.co/128x128/cccccc/ffffff?text="

  /** `data.gameName?.[0]`: the first character of a string, `undefined` otherwise. */
  function FirstLetter(v: Value): (r: Value)
    ensures r.Str? <==> v.Str? && v.s != ""
    ensures r.Str? ==> r.s == [v.s[0]]
    ensures !r.Str? ==> r == Undefined
  {
    match v
    case Str(s) => if s != "" then Str([s[0]]) else Undefined
    case _ => Undefined
  }

  /**
   * The icon's `src`: the profile's own icon when it is truthy, otherwise a
   * placeholder image labelled with the first letter of the game name, or
   * with `?` when there is none.
   */
  function IconSource(p: Profile): (r: Value)
    ensures Truthy(p.profileIconUrl) ==> r == p.profileIconUrl
    ensures !Truthy(p.profileIconUrl) && p.gameName.Str? && p.gameName.s != "" ==>
              r == Str(IconPlaceholderPrefix + [p.gameName.s[0]])
    ensures !Truthy(p.profileIconUrl) && !(p.gameName.Str? && p.gameName.s != "") ==>
              r == Str(IconPlaceholderPrefix + "?")
  {
    Or(p.profileIconUrl, Str(IconPlaceholderPrefix + ToText(Or(FirstLetter(p.gameName), Str("?")))))
  }

  /** `name#tag`, each side falling back on its own when it is falsy. */
  function TitleLine(p: Profile): (r: string)
    ensures r == (if Truthy(p.gameName) then RenderText(p.gameName) else "Desconocido")
                 + "#" + (if Truthy(p.tagLine) then RenderText(p.tagLine) else "???")
    ensures p.gameName.Str? && p.gameName.s != "" && p.tagLine.Str? && p.tagLine.s != "" ==>
              r == p.gameName.s + "#" + p.tagLine.s
    ensures !Truthy(p.gameName) && !Truthy(p.tagLine) ==> r == "Desconocido#???"
  {
    RenderOr(p.gameName, "Desconocido") + "#" + RenderOr(p.tagLine, "???")
  }

  /** `Nivel …`: a falsy level, `0` included, reads `N/A`. */
  function LevelLine(p: Profile): (r: string)
    ensures !Truthy(p.summonerLevel) ==> r == "Nivel N/A"
    ensures p.summonerLevel.Num? && p.summonerLevel.n != 0 ==>
              r == "Nivel " + JsText.IntText(p.summonerLevel.n)
  {
    "Nivel " + RenderOr(p.summonerLevel, "N/A")
  }

  /** `data.ranking && data.ranking.tier !== 'UNRANKED'`. */
  predicate IsRanked(ranking: Option<Ranking>) {
    ranking.Some? && ranking.value.tier != Str("UNRANKED")
  }

  /**
   * The rank line. It reads `Unranked` exactly when the player is not
   * ranked; otherwise it is the tier, the division and the league points.
   */
  function RankLabel(ranking: Option<Ranking>): (text: string)
    ensures text == "Unranked" <==> !IsRanked(ranking)
    ensures IsRanked(ranking) ==>
              text == ToText(ranking.value.tier) + " " + ToText(ranking.value.rank)
                      + " (" + ToText(ranking.value.leaguePoints) + " LP)"
  {
    if IsRanked(ranking) then
      var r := ranking.value;
      var t := ToText(r.tier) + " " + ToText(r.rank) + " (" + ToText(r.leaguePoints) + " LP)";
      assert t[|t| - 4..] == " LP)";
      assert "Unranked"[4..] != " LP)";
      t
    else "Unranked"
  }

  /**
   * What `ranking && ranking.tier !== 'UNRANKED' && ranking.winRate && <p>…</p>`
   * puts on the page: nothing, a stray text (React prints a falsy number
   * operand of `&&`), or the win-rate paragraph.
   */
  datatype WinRateChild =
    | Hidden
    | StrayText(text: string)
    | WinRateParagraph(text: string)

  /**
   * The win-rate paragraph shows exactly for a ranked player whose win rate
   * is truthy. A ranked win rate of the number `0` leaves the text `0`
   * instead; any other falsy win rate, and an unranked player, show nothing.
   */
  function WinRateLine(ranking: Option<Ranking>): (shown: WinRateChild)
    ensures shown.WinRateParagraph? <==> IsRanked(ranking) && Truthy(ranking.value.winRate)
    ensures shown.WinRateParagraph? ==> shown.text == "Winrate: " + RenderText(ranking.value.winRate)
    ensures shown.StrayText? <==> IsRanked(ranking) && ranking.value.winRate == Num(0)
    ensures shown.StrayText? ==> shown.text == "0"
  {
    if !IsRanked(ranking) then Hidden
    else
      var w := ranking.value.winRate;
      if Truthy(w) then WinRateParagraph("Winrate: " + RenderText(w))
      else if RenderText(w) != "" then StrayText(RenderText(w))
      else Hidden
  }

  datatype Header = Header(
    iconSource: Value,
    title: string,
    level: string,
    rank: string,
    winRate: WinRateChild)

  function ProfileHeader(p: Profile): (h: Header)
    ensures h.rank == "Unranked" <==> !IsRanked(p.ranking)
    ensures !h.winRate.Hidden? ==> h.rank != "Unranked"
  {
    Header(IconSource(p), TitleLine(p), LevelLine(p), RankLabel(p.ranking), WinRateLine(p.ranking))
  }

  /** A tier of `UNRANKED` reads `Unranked` whatever the other ranking fields say. */
  lemma UnrankedTierHidesRanking(p: Profile, q: Profile)
    requires p.ranking.Some? && p.ranking.value.tier == Str("UNRANKED")
    requires q.ranking.Some? && q.ranking.value.tier == Str("UNRANKED")
    ensures ProfileHeader(p).rank == ProfileHeader(q).rank == "Unranked"
    ensures ProfileHeader(p).winRate == ProfileHeader(q).winRate == Hidden
  {
  }

  /**
   * A ranking object with no tier is still "ranked" (`undefined` is not
   * `'UNRANKED'`), so its line spells out the missing fields.
   */
  lemma MissingTierIsShownAsUndefined(winRate: Value)
    ensures RankLabel(Some(Ranking(Undefined, Undefined, Undefined, winRate)))
         == "undefined undefined (undefined LP)"
  {
  }

  /* ---------------------------------------------------------------------
   * ChampionStats
   * ------------------------------------------------------------------- */

  const NoChampionsMessage := "No hay datos de campeones principales disponibles."

  datatype ChampionRow = ChampionRow(name: string, games: string, winRate: string, kda: string)

  datatype ChampionPanel =
    | NoChampions(message: string)
    | ChampionTable(rows: seq<ChampionRow>)

  /** One table row: the name as it is, the other cells `N/A` when falsy. */
  function ChampionRowOf(c: Champion): (row: ChampionRow)
    ensures row.name == RenderText(c.name)
    ensures !Truthy(c.games) ==> row.games == "N/A"
    ensures !Truthy(c.winRate) ==> row.winRate == "N/A"
    ensures !Truthy(c.kda) ==> row.kda == "N/A"
    ensures Truthy(c.games) && (c.games.Str? || c.games.Num?) ==> row.games == ToText(c.games)
    ensures Truthy(c.winRate) && (c.winRate.Str? || c.winRate.Num?) ==> row.winRate == ToText(c.winRate)
    ensures Truthy(c.kda) && (c.kda.Str? || c.kda.Num?) ==> row.kda == ToText(c.kda)
  {
    ChampionRow(RenderText(c.name), RenderOr(c.games, "N/A"), RenderOr(c.winRate, "N/A"), RenderOr(c.kda, "N/A"))
  }

  /** `champions.map(...)`: one row per champion, in order. */
  function ChampionRows(cs: seq<Champion>): (rows: seq<ChampionRow>)
    ensures |rows| == |cs|
    ensures forall i :: 0 <= i < |cs| ==> rows[i] == ChampionRowOf(cs[i])
    decreases |cs|
  {
    if cs == [] then [] else [ChampionRowOf(cs[0])] + ChampionRows(cs[1..])
  }

  /**
   * The champion panel: the "no data" message exactly when the list is
   * absent or empty, otherwise one row per champion.
   */
  function ChampionStats(champions: Option<seq<Champion>>): (panel: ChampionPanel)
    ensures panel.NoChampions? <==> champions.None? || champions.value == []
    ensures panel.NoChampions? ==> panel.message == NoChampionsMessage
    ensures panel.ChampionTable? ==>
              && |panel.rows| == |champions.value|
              && forall i :: 0 <= i < |panel.rows| ==> panel.rows[i] == ChampionRowOf(champions.value[i])
  {
    if champions.None? || |champions.value| == 0 then NoChampions(NoChampionsMessage)
    else ChampionTable(ChampionRows(champions.value))
  }

  /** A champion with zero games played shows `N/A` in that cell. */
  lemma ZeroGamesShowsPlaceholder(c: Champion)
    requires c.games == Num(0)
    ensures ChampionRowOf(c).games == "N/A"
  {
  }

  /* ---------------------------------------------------------------------
   * SimpleMatchHistory
   * ------------------------------------------------------------------- */

  const NoMatchesMessage := "No hay historial reciente disponible."

  datatype MatchPanel =
    | NoMatches(message: string)
    | MatchList(items: seq<string>)

  /** One list item: the fixed label followed by the match id as JSX prints it. */
  function MatchItem(m: Match): (item: string)
    ensures |item| >= 12 && item[..12] == "ID Partida: " && item[12..] == RenderText(m.matchId)
  {
    "ID Partida: " + RenderText(m.matchId)
  }

  /** `matches.map(...)`: one list item per match, in order. */
  function MatchItems(ms: seq<Match>): (items: seq<string>)
    ensures |items| == |ms|
    ensures forall i :: 0 <= i < |ms| ==> items[i] == MatchItem(ms[i])
    decreases |ms|
  {
    if ms == [] then [] else [MatchItem(ms[0])] + MatchItems(ms[1..])
  }

  /**
   * The match panel: the "no data" message exactly when the history is
   * absent or empty, otherwise one item per match showing its id.
   */
  function SimpleMatchHistory(matches: Option<seq<Match>>): (panel: MatchPanel)
    ensures panel.NoMatches? <==> matches.None? || matches.value == []
    ensures panel.NoMatches? ==> panel.message == NoMatchesMessage
    ensures panel.MatchList? ==>
              && |panel.items| == |matches.value|
              && forall i :: 0 <= i < |panel.items| ==> panel.items[i] == MatchItem(matches.value[i])
  {
    if matches.None? || |matches.value| == 0 then NoMatches(NoMatchesMessage)
    else MatchList(MatchItems(matches.value))
  }
}
