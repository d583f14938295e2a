/** tfc_go_handle_redirect(): the decision the handler takes for the value of
    the tfc_go query variable, given the transient table and the clock. The
    headers and status it would send are returned as a value. */
module Redirect {
  import opened PhpStrings
  import opened WordPress
  import opened GoLink

  datatype Header = Header(name: string, value: string)

  /** `Continue`: the handler returned and WordPress goes on rendering the
      page. `Respond`: the handler sent a status and headers and ended the
      request. */
  datatype Response = Continue | Respond(status: int, headers: seq<Header>)

  const ROBOTS: Header := Header("X-Robots-Tag", "noindex, nofollow, noarchive")

  /** wp_redirect($location, 302, 'GO Redirect') after the robots header. */
  function Found(location: string): Response {
    Respond(302, [ROBOTS, Header("X-Redirect-By", "GO Redirect"), Header("Location", location)])
  }

  /** status_header(404) after the robots header. */
  function NotFound(): Response {
    Respond(404, [ROBOTS])
  }

  /** The handler. A falsy query variable leaves the request alone; any other
      token always gets the robots header, and then a 302 to the stored URL
      exactly when get_transient() yields a truthy value, a 404 otherwise. */
  function HandleRedirect(queryVar: string, entries: map<string, Transient>, now: int): (r: Response)
    ensures r == Continue <==> !Truthy(queryVar)
    ensures r.Respond? ==> |r.headers| >= 1 && r.headers[0] == ROBOTS
    ensures r.Respond? ==> (r.status == 302 || r.status == 404)
    ensures r.Respond? && r.status == 302 ==>
              KeyOf(queryVar) in entries && now <= entries[KeyOf(queryVar)].expiry
              && Truthy(entries[KeyOf(queryVar)].value)
              && r.headers == [ROBOTS, Header("X-Redirect-By", "GO Redirect"),
                               Header("Location", entries[KeyOf(queryVar)].value)]
    ensures r.Respond? && r.status == 404 ==>
              (KeyOf(queryVar) !in entries || now > entries[KeyOf(queryVar)].expiry
               || !Truthy(entries[KeyOf(queryVar)].value))
              && r.headers == [ROBOTS]
  {
    if !Truthy(queryVar) then Continue
    else
      match GetTransient(entries, KEY_PREFIX + queryVar, now)
      case Some(realUrl) => if Truthy(realUrl) then Found(realUrl) else NotFound()
      case None => NotFound()
  }

  /** Round trip: after tfc_go_link($u) at time t0, the request /go/{token}/
      at time `now` is redirected to esc_url_raw($u) exactly while
      now <= t0 + 30 days (and the sanitised URL is truthy); otherwise it is a
      404. */
  lemma RoundTrip(entries: map<string, Transient>, host: Host, t0: int, now: int, u: string)
    requires |host.md5(u)| == 32
    ensures HandleRedirect(Token(host, u), Linked(entries, host, t0, u), now)
            == if now <= t0 + TTL && Truthy(host.escUrlRaw(u)) then Found(host.escUrlRaw(u)) else NotFound()
  {
    TokenShape(host, u);
  }

  /** A token nobody linked is a 404 on an empty table. */
  lemma UnknownToken(token: string, now: int)
    requires Truthy(token)
    ensures HandleRedirect(token, map[], now) == NotFound()
  {
  }

  /** Collision: when two URLs share a token, the redirect goes to the one
      linked last. */
  lemma CollisionRedirectsToLater(entries: map<string, Transient>, host: Host, t1: int, t2: int, now: int, u1: string, u2: string)
    requires |host.md5(u1)| == 32 && |host.md5(u2)| == 32
    requires host.md5(u1)[..TOKEN_LENGTH] == host.md5(u2)[..TOKEN_LENGTH]
    requires now <= t2 + TTL && Truthy(host.escUrlRaw(u2))
    ensures HandleRedirect(Token(host, u1), Linked(Linked(entries, host, t1, u1), host, t2, u2), now)
            == Found(host.escUrlRaw(u2))
  {
    LastWriterWins(entries, host, t1, t2, u1, u2);
    RoundTrip(entries, host, t2, now, u2);
  }

  /** After a batch of tfc_go_link() calls at time t0, each URL of the batch
      that no later URL collides with is redirected to its sanitised value for
      the next 30 days; every URL of the batch has a live mapping then. */
  lemma BatchRoundTrip(entries: map<string, Transient>, host: Host, t0: int, now: int, urls: seq<string>, i: nat)
    requires i < |urls| && |host.md5(urls[i])| == 32
    requires forall j :: i < j < |urls| ==> Token(host, urls[j]) != Token(host, urls[i])
    requires now <= t0 + TTL
    ensures HandleRedirect(Token(host, urls[i]), LinkedAll(entries, host, t0, urls), now)
            == if Truthy(host.escUrlRaw(urls[i])) then Found(host.escUrlRaw(urls[i])) else NotFound()
  {
    TokenShape(host, urls[i]);
    LinkedAllLastWriter(entries, host, t0, urls, i);
  }
}
