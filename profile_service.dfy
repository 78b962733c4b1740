/**
 * The page's side of the call to the profile backend: the request URL it
 * builds, how the backend's route `/api/profile/:region/:gameName/:tagLine`
 * reads that URL back, and how the end of the request (a response, or a
 * failure of the `fetch` itself) becomes either profile data or the text of
 * the error banner.
 */
module ProfileService {
  import opened Wrappers
  import opened JsText
  import opened JsValue
  import opened PlayerData
  import UriComponent

  /* ---------------------------------------------------------------------
   * the request URL
   * ------------------------------------------------------------------- */

  const ProfileEndpoint := "https://lol-profile-backend.onrender.com/api/profile/"

  /** The URL fetched for a player: region as it is, name and tag percent-encoded. */
  function RequestUrl(region: string, gameName: string, tagLine: string): (url: string)
    ensures |url| > |ProfileEndpoint| && url[..|ProfileEndpoint|] == ProfileEndpoint
    ensures url[|ProfileEndpoint|..] ==
            region + "/" + UriComponent.Encode(gameName) + "/" + UriComponent.Encode(tagLine)
  {
    var tail := region + "/" + UriComponent.Encode(gameName) + "/" + UriComponent.Encode(tagLine);
    assert (ProfileEndpoint + tail)[|ProfileEndpoint|..] == tail;
    ProfileEndpoint + tail
  }

  datatype Target = Target(region: string, gameName: string, tagLine: string)

  /**
   * How the backend's route reads a URL: after the endpoint prefix, exactly
   * three `/`-separated segments, the last two percent-decoded.
   */
  function RouteProfile(url: string): Option<Target> {
    if |url| < |ProfileEndpoint| || url[..|ProfileEndpoint|] != ProfileEndpoint then None
    else
      var segments := Split(url[|ProfileEndpoint|..], '/');
      if |segments| != 3 then None
      else
        match (UriComponent.Decode(segments[1]), UriComponent.Decode(segments[2]))
        case (Some(g), Some(t)) => Some(Target(segments[0], g, t))
        case _ => None
  }

  /**
   * The URL round trip, on the URL string as built: whatever the game name
   * and tag line hold (`/`, `#`, `?`, spaces, any Unicode), reading that
   * string back recovers exactly the region, game name and tag line the
   * page asked for. What a URL parser does to the path before it is sent
   * (resolving `.` and `..` segments) is not part of this statement.
   */
  lemma RequestUrlRoundTrip(region: string, gameName: string, tagLine: string)
    requires '/' !in region
    ensures RouteProfile(RequestUrl(region, gameName, tagLine)) == Some(Target(region, gameName, tagLine))
  {
    var url := RequestUrl(region, gameName, tagLine);
    var eg, et := UriComponent.Encode(gameName), UriComponent.Encode(tagLine);
    UriComponent.EncodeHasNoDelimiters(gameName);
    UriComponent.EncodeHasNoDelimiters(tagLine);
    assert region + "/" + eg + "/" + et == region + ['/'] + eg + ['/'] + et;
    SplitThree(region, eg, et, '/');
    UriComponent.DecodeEncode(gameName);
    UriComponent.DecodeEncode(tagLine);
  }

  /**
   * A game name and tag line made of unescaped characters only appear in the
   * URL as they are. So the dot segments `.` and `..` reach the URL
   * unchanged, where a URL parser would resolve them.
   */
  lemma UnreservedNamesSentVerbatim(region: string, gameName: string, tagLine: string)
    requires forall i :: 0 <= i < |gameName| ==> UriComponent.IsUnescaped(gameName[i])
    requires forall i :: 0 <= i < |tagLine| ==> UriComponent.IsUnescaped(tagLine[i])
    ensures RequestUrl(region, gameName, tagLine) == ProfileEndpoint + region + "/" + gameName + "/" + tagLine
  {
    UriComponent.EncodeKeepsUnescaped(gameName);
    UriComponent.EncodeKeepsUnescaped(tagLine);
  }

  /**
   * Nothing of the name or tag can end up as a query string or a fragment:
   * past the fixed endpoint, the URL holds no `?` and no `#`.
   */
  lemma RequestUrlHasNoQueryOrFragment(region: string, gameName: string, tagLine: string)
    requires '?' !in region && '#' !in region
    ensures var url := RequestUrl(region, gameName, tagLine);
            '?' !in url[|ProfileEndpoint|..] && '#' !in url[|ProfileEndpoint|..]
  {
    UriComponent.EncodeHasNoDelimiters(gameName);
    UriComponent.EncodeHasNoDelimiters(tagLine);
  }

  /* ---------------------------------------------------------------------
   * the end of the request
   * ------------------------------------------------------------------- */

  /** The body as `response.json()` leaves it. */
  datatype Body =
    | Unparsable(reason: string)           // `response.json()` rejected, with this message
    | Json(data: Profile, message: Value)  // an object: read as a profile; its `message` property

  datatype Response = Response(status: int, statusText: string, body: Body)

  /** What awaiting `fetch` produced. */
  datatype Outcome =
    | Received(response: Response)
    | NetworkFailure(reason: string)       // `fetch` rejected, with this message

  /** What the page keeps: the profile, or the text of the error banner. */
  datatype Settlement = Loaded(data: Profile) | Failed(message: string)

  const FetchFailedMessage := "No se pudieron obtener los datos."

  /** `response.ok`. */
  predicate IsOk(status: int) {
    200 <= status <= 299
  }

  /** `err.message || 'No se pudieron obtener los datos.'`. */
  function ErrorText(message: string): (text: string)
    ensures text != ""
    ensures message != "" ==> text == message
    ensures message == "" ==> text == FetchFailedMessage
  {
    if message != "" then message else FetchFailedMessage
  }

  /**
   * The message thrown for a response that is not ok: the body's `message`
   * when the body parses and that property is truthy, a message naming the
   * status otherwise.
   */
  function StatusErrorMessage(r: Response): (message: string)
    ensures message != ""
  {
    var errorData := match r.body
      case Unparsable(_) =>
        Str("Error del servidor: " + r.statusText + " (" + IntText(r.status) + ")")
      case Json(_, m) => m;
    if Truthy(errorData) then
      TruthyTextNonEmpty(errorData);
      ToText(errorData)
    else "Error " + IntText(r.status) + " al contactar el backend"
  }

  /**
   * The outcome of the request, as the `try`/`catch` leaves it: the profile
   * exactly for an ok status with a body that parses; otherwise a non-empty
   * error message.
   */
  function Settle(o: Outcome): (s: Settlement)
    ensures s.Loaded? <==> o.Received? && IsOk(o.response.status) && o.response.body.Json?
    ensures s.Loaded? ==> s.data == o.response.body.data
    ensures s.Failed? ==> s.message != ""
    ensures o.NetworkFailure? ==> s == Failed(ErrorText(o.reason))
    ensures o.Received? && IsOk(o.response.status) && o.response.body.Unparsable? ==>
              s == Failed(ErrorText(o.response.body.reason))
    ensures o.Received? && !IsOk(o.response.status) ==> s == Failed(StatusErrorMessage(o.response))
  {
    match o
    case NetworkFailure(reason) => Failed(ErrorText(reason))
    case Received(r) =>
      if !IsOk(r.status) then Failed(ErrorText(StatusErrorMessage(r)))
      else match r.body
        case Json(data, _) => Loaded(data)
        case Unparsable(reason) => Failed(ErrorText(reason))
  }

  /** A rejected request whose body names a truthy `message` shows that message. */
  lemma BodyMessageIsShown(status: int, statusText: string, data: Profile, message: Value)
    requires !IsOk(status) && Truthy(message)
    ensures Settle(Received(Response(status, statusText, Json(data, message)))) == Failed(ToText(message))
  {
    TruthyTextNonEmpty(message);
  }

  /** A rejected request whose body does not parse names its status text and code. */
  lemma UnparsableBodyNamesStatus(status: int, statusText: string, reason: string)
    requires !IsOk(status)
    ensures Settle(Received(Response(status, statusText, Unparsable(reason))))
         == Failed("Error del servidor: " + statusText + " (" + IntText(status) + ")")
  {
  }

  /** A rejected request whose parsed body has no truthy `message` names its code. */
  lemma MissingMessageNamesStatus(status: int, statusText: string, data: Profile, message: Value)
    requires !IsOk(status) && !Truthy(message)
    ensures Settle(Received(Response(status, statusText, Json(data, message))))
         == Failed("Error " + IntText(status) + " al contactar el backend")
  {
  }

  /** The status code can be read back from the message of every rejected request the body does not explain. */
  lemma StatusCanBeReadBack(status: int, statusText: string, data: Profile, message: Value)
    requires !IsOk(status) && !Truthy(message)
    ensures var m := Settle(Received(Response(status, statusText, Json(data, message)))).message;
            var digits := m[6..|m| - |" al contactar el backend"|];
            |digits| >= 1 && (digits[0] == '-' || IsDigit(digits[0])) &&
            (forall i :: 1 <= i < |digits| ==> IsDigit(digits[i])) &&
            ParseInt(digits) == status
  {
    var m := Settle(Received(Response(status, statusText, Json(data, message)))).message;
    var code := IntText(status);
    assert m == "Error " + code + " al contactar el backend";
    assert m[6..|m| - |" al contactar el backend"|] == code;
    IntTextRoundTrip(status);
  }

  /** A not-found response with a `message` body shows exactly that message. */
  lemma NotFoundExample(data: Profile)
    ensures Settle(Received(Response(404, "Not Found", Json(data, Str("not found"))))) == Failed("not found")
  {
  }
}
