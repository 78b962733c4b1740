/**
 * The `App` component: its five state fields, the search handler as two
 * events, and the conditions that decide which parts of the page are drawn.
 * `Submit` is everything up to the `await fetch` that issues the request;
 * `Resolve` is the `try`/`catch`/`finally` once the request has ended, with
 * the later `await response.json()` steps taken as one, since no state
 * changes between them.
 */
module App {
  import opened Wrappers
  import opened JsText
  import opened RiotId
  import opened PlayerData
  import opened Presenters
  import opened ProfileService

  /** The region every request goes to; nothing in the page changes it. */
  const DefaultRegion := "las"

  /* ---------------------------------------------------------------------
   * what the page shows
   * ------------------------------------------------------------------- */

  datatype Results = Results(header: Header, champions: ChampionPanel, matches: MatchPanel)

  datatype Page = Page(
    inputDisabled: bool,
    submitDisabled: bool,
    loadingNotice: bool,
    errorBanner: Option<string>,
    placeholder: bool,
    results: Option<Results>)

  /** The truthiness of the `error` state: a message that is truthy as a JavaScript string. */
  predicate HasError(error: Option<string>) {
    error.Some? && JsValue.Truthy(JsValue.Str(error.value))
  }

  /** `!searchInput.trim() || isLoading`: the button is disabled, and the handler returns at once. */
  predicate SearchBlocked(searchInput: string, isLoading: bool) {
    Trim(searchInput) == "" || isLoading
  }

  /** A search is blocked exactly when the input is all white space or a request is pending. */
  lemma SearchBlockedIffSpaceOrLoading(searchInput: string, isLoading: bool)
    ensures SearchBlocked(searchInput, isLoading) <==> AllSpace(searchInput) || isLoading
  {
    TrimEmptyIffAllSpace(searchInput);
  }

  /** The results block: the header, the champion panel and the match panel of one profile. */
  function ResultsOf(data: Profile): Results {
    Results(ProfileHeader(data), ChampionStats(data.mainChampions), SimpleMatchHistory(data.matchHistory))
  }

  /**
   * The page for a given state. A disabled input always comes with a
   * disabled button; the loading notice excludes everything else; a banner
   * never shows an empty message; the placeholder never shows beside a
   * banner or results.
   */
  function RenderPage(searchInput: string, playerData: Option<Profile>, isLoading: bool,
                      error: Option<string>): (page: Page)
    ensures page.inputDisabled ==> page.submitDisabled
    ensures page.loadingNotice ==> page.errorBanner.None? && !page.placeholder && page.results.None?
    ensures page.errorBanner.Some? ==> page.errorBanner.value != ""
    ensures page.placeholder ==> page.errorBanner.None? && page.results.None?
  {
    Page(
      inputDisabled := isLoading,
      submitDisabled := SearchBlocked(searchInput, isLoading),
      loadingNotice := isLoading,
      errorBanner := if HasError(error) && !isLoading then error else None,
      placeholder := playerData.None? && !isLoading && !HasError(error),
      results := if playerData.Some? && !isLoading then Some(ResultsOf(playerData.value)) else None)
  }

  /** The page is never empty: one of the notice, the banner, the placeholder or the results shows. */
  lemma PageNeverBlank(searchInput: string, playerData: Option<Profile>, isLoading: bool, error: Option<string>)
    ensures var page := RenderPage(searchInput, playerData, isLoading, error);
            page.loadingNotice || page.errorBanner.Some? || page.placeholder || page.results.Some?
  {
  }

  /** While loading, only the loading notice shows and both controls are disabled. */
  lemma LoadingShowsOnlyTheNotice(searchInput: string, playerData: Option<Profile>, error: Option<string>)
    ensures var page := RenderPage(searchInput, playerData, true, error);
            && page.loadingNotice && page.inputDisabled && page.submitDisabled
            && page.errorBanner.None? && !page.placeholder && page.results.None?
  {
  }

  /** The idle placeholder shows exactly when there is no data, no error and no request. */
  lemma PlaceholderOnlyWhenIdle(searchInput: string, playerData: Option<Profile>, isLoading: bool, error: Option<string>)
    ensures var page := RenderPage(searchInput, playerData, isLoading, error);
            page.placeholder <==> playerData.None? && !isLoading && !HasError(error)
    ensures var page := RenderPage(searchInput, playerData, isLoading, error);
            page.placeholder ==> page.errorBanner.None? && page.results.None? && !page.loadingNotice
  {
  }

  /** Results show exactly when there is data and no request, and they present that data. */
  lemma ResultsPresentTheProfile(searchInput: string, playerData: Option<Profile>, isLoading: bool, error: Option<string>)
    ensures var page := RenderPage(searchInput, playerData, isLoading, error);
            page.results.Some? <==> playerData.Some? && !isLoading
    ensures var page := RenderPage(searchInput, playerData, isLoading, error);
            page.results.Some? ==> page.results.value == ResultsOf(playerData.value)
  {
  }

  /**
   * The banner shows `{error}` exactly when the error is truthy and nothing
   * is loading; the loading notice and the disabled input appear exactly
   * while a request is pending.
   */
  lemma BannerAndNoticeRule(searchInput: string, playerData: Option<Profile>, isLoading: bool, error: Option<string>)
    ensures var page := RenderPage(searchInput, playerData, isLoading, error);
            page.errorBanner == (if HasError(error) && !isLoading then error else None)
    ensures var page := RenderPage(searchInput, playerData, isLoading, error);
            (page.loadingNotice <==> isLoading) && (page.inputDisabled <==> isLoading)
  {
  }

  /** Blank text and a pending request are the two reasons the button is disabled. */
  lemma SubmitDisabledWhenBlankOrLoading(searchInput: string, playerData: Option<Profile>, isLoading: bool, error: Option<string>)
    ensures RenderPage(searchInput, playerData, isLoading, error).submitDisabled
        <==> ParseRiotId(searchInput) == Blank || isLoading
  {
  }

  /* ---------------------------------------------------------------------
   * the state and its events
   * ------------------------------------------------------------------- */

  class SearchController {
    var searchInput: string
    var playerData: Option<Profile>
    var isLoading: bool
    var error: Option<string>
    const region: string

    /**
     * The invariant the handler keeps: the region never changes, an error
     * is never the empty string, and while a request is pending neither old
     * data nor an old error is kept.
     */
    ghost predicate Valid()
      reads this
    {
      && region == DefaultRegion
      && (error.Some? ==> error.value != "")
      && (isLoading ==> playerData.None? && error.None?)
    }

    constructor ()
      ensures Valid()
      ensures searchInput == "" && playerData.None? && !isLoading && error.None?
    {
      searchInput := "";
      playerData := None;
      isLoading := false;
      error := None;
      region := DefaultRegion;
    }

    function View(): Page
      reads this
    {
      RenderPage(searchInput, playerData, isLoading, error)
    }

    /** `handleInputChange`. */
    method ChangeInput(value: string)
      requires Valid()
      modifies this
      ensures Valid()
      ensures searchInput == value
      ensures playerData == old(playerData) && isLoading == old(isLoading) && error == old(error)
    {
      searchInput := value;
    }

    /**
     * `handleSearch` up to the request. Blank text or a pending request:
     * nothing changes and nothing is requested. Text that is not
     * `name#tag`: the format error is set, the old data stays. A Riot ID:
     * loading starts with the old data and error cleared, and the request
     * for that player is issued.
     */
    method Submit() returns (request: Option<string>)
      requires Valid()
      modifies this
      ensures Valid()
      ensures searchInput == old(searchInput)
      ensures old(isLoading) || ParseRiotId(searchInput).Blank? ==>
                && request.None?
                && playerData == old(playerData) && isLoading == old(isLoading) && error == old(error)
      ensures !old(isLoading) && ParseRiotId(searchInput).BadFormat? ==>
                && request.None?
                && error == Some(BadFormatMessage) && playerData == old(playerData) && !isLoading
      ensures !old(isLoading) && ParseRiotId(searchInput).Player? ==>
                && isLoading && error.None? && playerData.None?
                && request == Some(RequestUrl(region, ParseRiotId(searchInput).gameName,
                                                      ParseRiotId(searchInput).tagLine))
      ensures request.Some? <==> !old(isLoading) && ParseRiotId(searchInput).Player?
    {
      var submission := ParseRiotId(searchInput);
      request := None;
      // `SearchBlocked` tested through the parser's `Blank`, which is the same
      // condition (`SubmitDisabledWhenBlankOrLoading`) and much cheaper to verify here.
      if submission.Blank? || isLoading {
      } else if submission.BadFormat? {
        error := Some(BadFormatMessage);
      } else {
        request := Begin(submission.gameName, submission.tagLine);
      }
    }

    /** Lines 197-214: loading starts, the old data and error are cleared, and the request goes out. */
    method Begin(gameName: string, tagLine: string) returns (request: Option<string>)
      requires Valid()
      modifies this
      ensures Valid() && searchInput == old(searchInput)
      ensures isLoading && error.None? && playerData.None?
      ensures request == Some(RequestUrl(region, gameName, tagLine))
    {
      isLoading := true;
      error := None;
      playerData := None;
      request := Some(RequestUrl(region, gameName, tagLine));
    }

    /**
     * The end of the request. Loading always ends; a profile replaces the
     * data, any failure sets the (non-empty) error message.
     */
    method Resolve(outcome: Outcome)
      requires Valid()
      modifies this
      ensures Valid()
      ensures !isLoading && searchInput == old(searchInput)
      ensures Settle(outcome).Loaded? ==>
                playerData == Some(Settle(outcome).data) && error == old(error)
      ensures Settle(outcome).Failed? ==>
                error == Some(Settle(outcome).message) && playerData == old(playerData)
    {
      match Settle(outcome) {
        case Loaded(data) =>
          playerData := Some(data);
        case Failed(message) =>
          error := Some(message);
      }
      isLoading := false;
    }
  }

  /* ---------------------------------------------------------------------
   * whole searches
   * ------------------------------------------------------------------- */

  /**
   * One search from a fresh page: type, submit, and (when a request went
   * out) its end. A Riot ID asks for exactly that player in region `las`
   * and finishes with the profile and no error, or with an error and no
   * profile.
   */
  method SearchOnce(input: string, outcome: Outcome) returns (c: SearchController, request: Option<string>)
    ensures fresh(c) && c.Valid() && !c.isLoading && c.searchInput == input
    ensures ParseRiotId(input).Player? ==>
              && request == Some(RequestUrl(DefaultRegion, ParseRiotId(input).gameName, ParseRiotId(input).tagLine))
              && (Settle(outcome).Loaded? ==>
                    && c.playerData == Some(Settle(outcome).data) && c.error.None?
                    && c.View().results == Some(ResultsOf(Settle(outcome).data))
                    && c.View().errorBanner.None?)
              && (Settle(outcome).Failed? ==>
                    && c.error == Some(Settle(outcome).message) && c.playerData.None?
                    && c.View().errorBanner == Some(Settle(outcome).message)
                    && c.View().results.None? && !c.View().loadingNotice)
    ensures ParseRiotId(input).BadFormat? ==>
              && request.None? && c.error == Some(BadFormatMessage) && c.playerData.None?
              && c.View().errorBanner == Some(BadFormatMessage)
    ensures ParseRiotId(input).Blank? ==>
              request.None? && c.error.None? && c.playerData.None? && c.View().placeholder
  {
    c := new SearchController();
    c.ChangeInput(input);
    request := c.Submit();
    if request.Some? {
      c.Resolve(outcome);
    }
  }

  /**
   * A malformed search after a successful one: the old results stay and
   * the format error shows beside them.
   */
  method StaleResultsBesideError(first: string, data: Profile, second: string) returns (c: SearchController)
    requires ParseRiotId(first).Player? && ParseRiotId(second).BadFormat?
    ensures fresh(c) && c.Valid()
    ensures c.View().results == Some(ResultsOf(data))
    ensures c.View().errorBanner == Some(BadFormatMessage)
  {
    c := new SearchController();
    c.ChangeInput(first);
    var request := c.Submit();
    c.Resolve(Received(Response(200, "OK", Json(data, JsValue.Undefined))));
    c.ChangeInput(second);
    request := c.Submit();
  }

  /**
   * Searching again after a failure clears the error before the new
   * request is pending.
   */
  method RetryAfterFailure(input: string, outcome: Outcome) returns (c: SearchController)
    requires ParseRiotId(input).Player? && Settle(outcome).Failed?
    ensures fresh(c) && c.Valid()
    ensures c.isLoading && c.error.None? && c.View().loadingNotice && c.View().errorBanner.None?
  {
    var request;
    c, request := SearchOnce(input, outcome);
    request := c.Submit();
  }
}
