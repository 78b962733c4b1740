/**
 * The profile the backend returns, as the page reads it. Every scalar field
 * is a JavaScript value, because the page applies `||` and `&&` to them and
 * nothing checks their types; `ranking`, `mainChampions` and `matchHistory`
 * are absent (`null`/`undefined`) or present.
 */
module PlayerData {
  import opened Wrappers
  import opened JsValue

  datatype Ranking = Ranking(tier: Value, rank: Value, leaguePoints: Value, winRate: Value)

  datatype Champion = Champion(name: Value, games: Value, winRate: Value, kda: Value)

  datatype Match = Match(matchId: Value)

  datatype Profile = Profile(
    puuid: Value,
    gameName: Value,
    tagLine: Value,
    summonerLevel: Value,
    profileIconUrl: Value,
    ranking: Option<Ranking>,
    mainChampions: Option<seq<Champion>>,
    matchHistory: Option<seq<Match>>)
}
