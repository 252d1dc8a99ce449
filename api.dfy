/** The pure parts of the REST client: the API origin, media-URL rewriting, the error message of a
    failed request, the test that sends `getHomeTasks` to its fallback, and the notifications query. */
module Api {
  import opened Base
  import opened Text

  const DefaultApiBaseUrl: string := "http://localhost:3000/api"

  /** `VITE_API_URL ?? default`: only a missing setting falls back, an empty one is kept. */
  function ApiBaseUrl(configured: Option<string>): (r: string)
    ensures configured.Some? ==> r == configured.value
    ensures configured.None? ==> r == DefaultApiBaseUrl
  {
    configured.GetOr(DefaultApiBaseUrl)
  }

  /** `base.replace(/\/api\/?$/, "")`: a prefix of `base`, shorter exactly when `base` ends in
      `/api` or `/api/`, and then what was removed is that ending. */
  function ApiOrigin(base: string): (r: string)
    ensures StartsWith(base, r)
    ensures r == base <==> !EndsWith(base, "/api") && !EndsWith(base, "/api/")
    ensures r != base ==> base[|r|..] == "/api" || base[|r|..] == "/api/"
  {
    if EndsWith(base, "/api/") then base[..|base| - 5]
    else if EndsWith(base, "/api") then base[..|base| - 4]
    else base
  }

  /** The default base URL gives the origin `http://localhost:3000`. */
  lemma DefaultOrigin()
    ensures ApiOrigin(ApiBaseUrl(None)) == "http://localhost:3000"
  {
    assert EndsWith(DefaultApiBaseUrl, "/api");
    assert !EndsWith(DefaultApiBaseUrl, "/api/");
  }

  predicate IsAbsoluteUrl(url: string) {
    StartsWith(url, "http://") || StartsWith(url, "https://")
  }

  /** `url` without one leading `/`, if it has one. */
  function WithoutLeadingSlash(url: string): string {
    if StartsWith(url, "/") then url[1..] else url
  }

  /** `toMediaUrl(url)`: empty for a missing or empty URL, an absolute URL unchanged, a URL starting
      with `/` appended to the origin as is, and any other URL appended after a `/`. */
  function ToMediaUrl(origin: string, url: Option<string>): (r: string)
    ensures url.None? || url.value == [] ==> r == []
    ensures url.Some? && IsAbsoluteUrl(url.value) ==> r == url.value
    ensures url.Some? && url.value != [] && !IsAbsoluteUrl(url.value) ==>
              r == origin + "/" + WithoutLeadingSlash(url.value)
  {
    match url
    case None => ""
    case Some(u) =>
      if u == [] then ""
      else if IsAbsoluteUrl(u) then u
      else if StartsWith(u, "/") then
        assert u == "/" + u[1..];
        origin + u
      else origin + "/" + u
  }

  /** With an absolute origin every non-empty media URL is absolute. */
  lemma MediaUrlAbsolute(origin: string, url: Option<string>)
    requires IsAbsoluteUrl(origin)
    requires url.Some? && url.value != []
    ensures IsAbsoluteUrl(ToMediaUrl(origin, url))
  {
    var r := ToMediaUrl(origin, url);
    if !IsAbsoluteUrl(url.value) {
      assert r[..|origin|] == origin;
      if StartsWith(origin, "http://") {
        assert r[..7] == origin[..7];
      } else {
        assert r[..8] == origin[..8];
      }
    }
  }

  /** Rewriting is idempotent once the origin is absolute: a rewritten URL is left alone. */
  lemma MediaUrlIdempotent(origin: string, url: Option<string>)
    requires IsAbsoluteUrl(origin)
    ensures ToMediaUrl(origin, Some(ToMediaUrl(origin, url))) == ToMediaUrl(origin, url)
  {
    if url.Some? && url.value != [] {
      MediaUrlAbsolute(origin, url);
    }
  }

  /** The message `apiFetch` throws for a non-2xx response: `${status} ${statusText}` and, when the
      body is not empty, ` - ${body}`. */
  function FetchErrorMessage(status: nat, statusText: string, body: string): (r: string)
    ensures StartsWith(r, DecimalString(status) + " " + statusText)
    ensures body == [] <==> r == DecimalString(status) + " " + statusText
    ensures body != [] ==> r == DecimalString(status) + " " + statusText + " - " + body
  {
    var head := DecimalString(status) + " " + statusText;
    var r := head + (if body == [] then "" else " - " + body);
    assert r[..|head|] == head;
    r
  }

  /** `getHomeTasks` builds the view itself exactly when the error message mentions the missing route
      or the status 404 anywhere. */
  function IsFallbackTrigger(message: string): (r: bool)
    ensures r <==> (exists i :: OccursAt(message, "Cannot GET /home/tasks", i))
                   || (exists i :: OccursAt(message, "404", i))
  {
    ContainsIff(message, "Cannot GET /home/tasks");
    ContainsIff(message, "404");
    Contains(message, "Cannot GET /home/tasks") || Contains(message, "404")
  }

  /** A 404 from `/home/tasks` always sends `getHomeTasks` to the fallback. */
  lemma NotFoundTriggersFallback(statusText: string, body: string)
    ensures IsFallbackTrigger(FetchErrorMessage(404, statusText, body))
  {
    var m := FetchErrorMessage(404, statusText, body);
    assert DecimalString(404) == "404" by {
      assert DecimalString(4) == "4";
      assert DecimalString(40) == DecimalString(4) + "0";
    }
    assert OccursAt(m, "404", 0);
  }

  /** A failed `/home/tasks` whose body names the missing route sends `getHomeTasks` to the fallback,
      whatever the status. */
  lemma {:induction false} MissingRouteBodyTriggersFallback(status: nat, statusText: string, body: string, i: nat)
    requires OccursAt(body, "Cannot GET /home/tasks", i)
    ensures IsFallbackTrigger(FetchErrorMessage(status, statusText, body))
  {
    var head := DecimalString(status) + " " + statusText + " - ";
    var m := FetchErrorMessage(status, statusText, body);
    assert m == head + body;
    var k := |head| + i;
    assert m[k..k + 22] == body[i..i + 22];
    assert OccursAt(m, "Cannot GET /home/tasks", k);
  }

  /** The path `getNotifications` requests: the `unreadOnly=true` query only when asked for. */
  function NotificationsPath(unreadOnly: bool): (r: string)
    ensures StartsWith(r, "/notifications")
    ensures unreadOnly <==> r != "/notifications"
    ensures unreadOnly ==> EndsWith(r, "?unreadOnly=true")
    ensures unreadOnly ==> r == "/notifications?unreadOnly=true"
  {
    "/notifications" + (if unreadOnly then "?unreadOnly=true" else "")
  }
}
