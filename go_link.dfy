/** tfc_go_link(): derive the 10-character token of a destination URL, store
    the mapping token -> sanitised URL as a transient that lives 30 days, and
    return the public short link home/go/{token}/. */
module GoLink {
  import opened PhpStrings
  import opened WordPress

  const TTL: int := DAY_IN_SECONDS * 30
  const KEY_PREFIX: string := "tfc_go_"
  const TOKEN_LENGTH: nat := 10

  /** substr(md5($realUrl), 0, 10). */
  function Token(host: Host, realUrl: string): string {
    Prefix(host.md5(realUrl), TOKEN_LENGTH)
  }

  /** The transient name under which a token's destination is kept. */
  function KeyOf(token: string): string {
    KEY_PREFIX + token
  }

  /** home_url('/go/' . $token . '/'). */
  function ShortLink(host: Host, token: string): string {
    HomeUrl(host, "/go/" + token + "/")
  }

  /** The transient table after tfc_go_link($realUrl) at time `now`. */
  function Linked(entries: map<string, Transient>, host: Host, now: int, realUrl: string): map<string, Transient> {
    entries[KeyOf(Token(host, realUrl)) := Transient(host.escUrlRaw(realUrl), now + TTL)]
  }

  /** The transient table after tfc_go_link() was called, at time `now`, for
      each of `urls` in order. */
  function LinkedAll(entries: map<string, Transient>, host: Host, now: int, urls: seq<string>): map<string, Transient>
  {
    if urls == [] then entries
    else Linked(LinkedAll(entries, host, now, urls[..|urls| - 1]), host, now, urls[|urls| - 1])
  }

  /** A batch extended by one URL is that URL linked after the batch. */
  lemma LinkedAllSnoc(entries: map<string, Transient>, host: Host, now: int, urls: seq<string>, u: string)
    ensures LinkedAll(entries, host, now, urls + [u]) == Linked(LinkedAll(entries, host, now, urls), host, now, u)
  {
    assert (urls + [u])[..|urls|] == urls;
  }

  /** tfc_go_link($realUrl): upserts the mapping into `store` and returns the
      short link. */
  method Link(store: TransientStore, host: Host, now: int, realUrl: string) returns (short: string)
    modifies store
    ensures store.entries == Linked(old(store.entries), host, now, realUrl)
    ensures short == ShortLink(host, Token(host, realUrl))
  {
    var hash := Prefix(host.md5(realUrl), TOKEN_LENGTH);
    store.Set(KEY_PREFIX + hash, host.escUrlRaw(realUrl), DAY_IN_SECONDS * 30, now);
    short := HomeUrl(host, "/go/" + hash + "/");
  }

  /** The characters the rewrite rule ^go/([a-zA-Z0-9]+)/?$ accepts in a token. */
  predicate IsAlnum(c: char) {
    'a' <= c <= 'z' || 'A' <= c <= 'Z' || '0' <= c <= '9'
  }

  predicate IsLowerHex(s: string) {
    forall k :: 0 <= k < |s| ==> '0' <= s[k] <= '9' || 'a' <= s[k] <= 'f'
  }

  /** With a 32-character digest, the token is its first ten characters;
      with a lower-case hexadecimal digest it is a path segment the rewrite
      rule routes back to the redirect handler, and it is truthy there. */
  lemma TokenShape(host: Host, realUrl: string)
    requires |host.md5(realUrl)| == 32
    ensures |Token(host, realUrl)| == TOKEN_LENGTH
    ensures Token(host, realUrl) == host.md5(realUrl)[..TOKEN_LENGTH]
    ensures Truthy(Token(host, realUrl))
    ensures IsLowerHex(host.md5(realUrl)) ==>
              forall k :: 0 <= k < TOKEN_LENGTH ==> IsAlnum(Token(host, realUrl)[k])
  {
  }

  /** The returned link is exactly home + '/go/' + token + '/'. */
  lemma ShortLinkShape(host: Host, token: string)
    ensures ShortLink(host, token) == host.home + "/go/" + token + "/"
  {
    var path := "/go/" + token + "/";
    var rest := "go/" + token + "/";
    assert path[1..] == rest;
    assert TrimStart(path, IsSlash) == rest by {
      assert path[0] == '/';
      assert rest[0] == 'g';
      assert TrimStart(rest, IsSlash) == rest;
    }
    assert Truthy(path) by { assert |path| >= 5; }
    assert host.home + "/" + rest == host.home + "/go/" + token + "/";
  }

  /** Distinct tokens live under distinct transient names. */
  lemma KeyOfInjective(a: string, b: string)
    ensures KeyOf(a) == KeyOf(b) <==> a == b
  {
    if KeyOf(a) == KeyOf(b) {
      assert a == KeyOf(a)[|KEY_PREFIX|..];
      assert b == KeyOf(b)[|KEY_PREFIX|..];
    }
  }

  /** tfc_go_link() touches one transient only: every other name keeps its
      entry, or its absence. */
  lemma LinkFrame(entries: map<string, Transient>, host: Host, now: int, realUrl: string, key: string)
    requires key != KeyOf(Token(host, realUrl))
    ensures key in Linked(entries, host, now, realUrl) <==> key in entries
    ensures key in entries ==> Linked(entries, host, now, realUrl)[key] == entries[key]
  {
  }

  /** Calling tfc_go_link() for the same URL twice leaves the same table as
      the later call alone: one entry for the token, the same value, the
      expiry counted from the later call. */
  lemma LinkIdempotent(entries: map<string, Transient>, host: Host, t1: int, t2: int, realUrl: string)
    ensures Linked(Linked(entries, host, t1, realUrl), host, t2, realUrl) == Linked(entries, host, t2, realUrl)
  {
  }

  /** Two URLs whose digests share the first ten characters share a token,
      and the later call's mapping replaces the earlier one entirely. */
  lemma LastWriterWins(entries: map<string, Transient>, host: Host, t1: int, t2: int, u1: string, u2: string)
    requires |host.md5(u1)| == 32 && |host.md5(u2)| == 32
    requires host.md5(u1)[..TOKEN_LENGTH] == host.md5(u2)[..TOKEN_LENGTH]
    ensures Token(host, u1) == Token(host, u2)
    ensures Linked(Linked(entries, host, t1, u1), host, t2, u2) == Linked(entries, host, t2, u2)
  {
  }

  /** After a batch of tfc_go_link() calls at time `now`, each URL's token
      holds a transient that expires 30 days after `now`. */
  lemma {:induction false} LinkedAllLive(entries: map<string, Transient>, host: Host, now: int, urls: seq<string>, i: nat)
    requires i < |urls|
    ensures KeyOf(Token(host, urls[i])) in LinkedAll(entries, host, now, urls)
    ensures LinkedAll(entries, host, now, urls)[KeyOf(Token(host, urls[i]))].expiry == now + TTL
  {
    if i < |urls| - 1 {
      LinkedAllLive(entries, host, now, urls[..|urls| - 1], i);
    }
  }

  /** The value a token holds after a batch is that of the last URL in the
      batch with that token. */
  lemma {:induction false} LinkedAllLastWriter(entries: map<string, Transient>, host: Host, now: int, urls: seq<string>, i: nat)
    requires i < |urls|
    requires forall j :: i < j < |urls| ==> Token(host, urls[j]) != Token(host, urls[i])
    ensures KeyOf(Token(host, urls[i])) in LinkedAll(entries, host, now, urls)
    ensures LinkedAll(entries, host, now, urls)[KeyOf(Token(host, urls[i]))]
            == Transient(host.escUrlRaw(urls[i]), now + TTL)
  {
    if i < |urls| - 1 {
      var init := urls[..|urls| - 1];
      LinkedAllLastWriter(entries, host, now, init, i);
      KeyOfInjective(Token(host, urls[|urls| - 1]), Token(host, urls[i]));
    }
  }

  /** A transient whose name no URL of the batch maps to is left as it was. */
  lemma {:induction false} LinkedAllFrame(entries: map<string, Transient>, host: Host, now: int, urls: seq<string>, key: string)
    requires forall j :: 0 <= j < |urls| ==> KeyOf(Token(host, urls[j])) != key
    ensures key in LinkedAll(entries, host, now, urls) <==> key in entries
    ensures key in entries ==> LinkedAll(entries, host, now, urls)[key] == entries[key]
  {
    if urls != [] {
      LinkedAllFrame(entries, host, now, urls[..|urls| - 1], key);
    }
  }
}
