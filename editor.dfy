/** The row list tfc_go_metabox_cb() prepares for the editor: the stored
    destination URLs (falling back to the legacy single URL, then to one blank
    row), each non-empty one with its short link, refreshed on the way. */
module Editor {
  import opened PhpStrings
  import opened WordPress
  import opened GoLink
  import opened Save

  /** One editor row: the destination URL and the short link shown beside it. */
  datatype Row = Row(url: string, short: string)

  /** The stored list, or [] when the meta value is missing or not an array. */
  function StoredList(v: Option<MetaValue>): seq<string> {
    match v
    case Some(List(items)) => items
    case _ => []
  }

  /** The legacy single URL, or '' when it is missing. */
  function LegacyUrl(v: Option<MetaValue>): string {
    match v
    case Some(Text(url)) => url
    case _ => ""
  }

  /** The URLs the editor shows, one per row. There is always at least one
      row; a non-empty stored list is shown as it is; otherwise a truthy
      legacy URL is the only row; otherwise a single blank row. */
  function RowUrls(list: Option<MetaValue>, legacy: Option<MetaValue>): (r: seq<string>)
    ensures |r| >= 1
    ensures StoredList(list) != [] ==> r == StoredList(list)
    ensures StoredList(list) == [] && Truthy(LegacyUrl(legacy)) ==> r == [LegacyUrl(legacy)]
    ensures StoredList(list) == [] && !Truthy(LegacyUrl(legacy)) ==> r == [""]
  {
    var urls := StoredList(list);
    var urls := if Truthy(LegacyUrl(legacy)) && urls == [] then [LegacyUrl(legacy)] else urls;
    if urls == [] then [""] else urls
  }

  /** The rows' URLs that get a short link: the truthy ones, in order. */
  function Linkable(urls: seq<string>): (r: seq<string>)
    ensures |r| <= |urls|
    ensures forall k :: 0 <= k < |r| ==> Truthy(r[k])
  {
    if urls == [] then []
    else
      var init := Linkable(urls[..|urls| - 1]);
      if Truthy(urls[|urls| - 1]) then init + [urls[|urls| - 1]] else init
  }

  /** The short link of a row: tfc_go_link() of a truthy URL, '' otherwise. */
  function ShortFor(host: Host, url: string): string {
    if Truthy(url) then ShortLink(host, Token(host, url)) else ""
  }

  /** The rows for `urls`: each URL with its short link, in order. */
  function RowsFor(host: Host, urls: seq<string>): seq<Row> {
    if urls == [] then []
    else RowsFor(host, urls[..|urls| - 1]) + [Row(urls[|urls| - 1], ShortFor(host, urls[|urls| - 1]))]
  }

  /** Row k of RowsFor(urls) is the k-th URL with its short link. */
  lemma {:induction false} RowsForRows(host: Host, urls: seq<string>)
    ensures |RowsFor(host, urls)| == |urls|
    ensures forall k :: 0 <= k < |urls| ==> RowsFor(host, urls)[k] == Row(urls[k], ShortFor(host, urls[k]))
  {
    if urls != [] {
      RowsForRows(host, urls[..|urls| - 1]);
    }
  }

  /** The row loop of tfc_go_metabox_cb(): each URL with its short link,
      calling tfc_go_link() for the truthy ones only. */
  method LinkRows(store: TransientStore, host: Host, now: int, urls: seq<string>) returns (rows: seq<Row>)
    modifies store
    ensures |rows| == |urls|
    ensures forall k :: 0 <= k < |rows| ==> rows[k] == Row(urls[k], ShortFor(host, urls[k]))
    ensures store.entries == LinkedAll(old(store.entries), host, now, Linkable(urls))
  {
    rows := [];
    for i := 0 to |urls|
      invariant rows == RowsFor(host, urls[..i])
      invariant store.entries == LinkedAll(old(store.entries), host, now, Linkable(urls[..i]))
    {
      assert urls[..i + 1][..i] == urls[..i];
      LinkableStep(urls, i);
      var short := "";
      if Truthy(urls[i]) {
        short := Link(store, host, now, urls[i]);
        LinkedAllSnoc(old(store.entries), host, now, Linkable(urls[..i]), urls[i]);
      }
      rows := rows + [Row(urls[i], short)];
    }
    assert urls[..|urls|] == urls;
    RowsForRows(host, urls);
  }

  /** One more row: its URL joins the linkable ones exactly when it is truthy. */
  lemma LinkableStep(urls: seq<string>, i: nat)
    requires i < |urls|
    ensures Linkable(urls[..i + 1]) == if Truthy(urls[i]) then Linkable(urls[..i]) + [urls[i]] else Linkable(urls[..i])
  {
    assert urls[..i + 1][..i] == urls[..i];
  }

  /** tfc_go_metabox_cb() without its HTML: the rows it renders for `postId`,
      refreshing the transient of every non-empty row at time `now`. */
  method PrepareRows(store: TransientStore, meta: PostMeta, host: Host, now: int, postId: int)
    returns (rows: seq<Row>)
    modifies store
    ensures var urls := RowUrls(meta.Get(postId, URLS_KEY), meta.Get(postId, LEGACY_KEY));
            |rows| == |urls|
            && (forall k :: 0 <= k < |rows| ==> rows[k] == Row(urls[k], ShortFor(host, urls[k])))
            && store.entries == LinkedAll(old(store.entries), host, now, Linkable(urls))
    ensures var urls := RowUrls(meta.Get(postId, URLS_KEY), meta.Get(postId, LEGACY_KEY));
            forall k :: 0 <= k < |urls| && Truthy(urls[k]) ==>
              KeyOf(Token(host, urls[k])) in store.entries
              && store.entries[KeyOf(Token(host, urls[k]))].expiry == now + TTL
  {
    var realUrls := StoredList(meta.Get(postId, URLS_KEY));
    var legacy := LegacyUrl(meta.Get(postId, LEGACY_KEY));
    if Truthy(legacy) && realUrls == [] {
      realUrls := [legacy];
    }
    if realUrls == [] {
      realUrls := realUrls + [""];
    }
    rows := LinkRows(store, host, now, realUrls);
    forall k | 0 <= k < |realUrls| && Truthy(realUrls[k])
      ensures KeyOf(Token(host, realUrls[k])) in store.entries
      ensures store.entries[KeyOf(Token(host, realUrls[k]))].expiry == now + TTL
    {
      RowsRefreshed(old(store.entries), host, now, realUrls, k);
    }
  }

  /** What the editor shows after a save: exactly the cleaned list, or one
      blank row when the cleaned list was empty (both keys deleted). */
  lemma RowsAfterSave(rows: map<(int, string), MetaValue>, postId: int, clean: seq<string>)
    ensures clean != [] ==>
              var saved := rows[(postId, URLS_KEY) := List(clean)][(postId, LEGACY_KEY) := Text(clean[0])];
              RowUrls(Some(saved[(postId, URLS_KEY)]), Some(saved[(postId, LEGACY_KEY)])) == clean
    ensures clean == [] ==>
              var saved := rows - {(postId, URLS_KEY), (postId, LEGACY_KEY)};
              (postId, URLS_KEY) !in saved && (postId, LEGACY_KEY) !in saved
              && RowUrls(None, None) == [""]
  {
  }

  /** Every truthy row is among the linked URLs. */
  lemma {:induction false} TruthyIsLinked(urls: seq<string>, k: nat)
    requires k < |urls| && Truthy(urls[k])
    ensures urls[k] in Linkable(urls)
  {
    if k < |urls| - 1 {
      TruthyIsLinked(urls[..|urls| - 1], k);
    }
  }

  /** Every linked URL is one of the rows. */
  lemma {:induction false} LinkableSubset(urls: seq<string>, x: string)
    ensures x in Linkable(urls) ==> x in urls
  {
    if urls != [] {
      LinkableSubset(urls[..|urls| - 1], x);
    }
  }

  /** The linked URLs are exactly the truthy rows: only non-empty rows call
      tfc_go_link(), and each of them does. */
  lemma LinkableMembers(urls: seq<string>, x: string)
    ensures x in Linkable(urls) <==> x in urls && Truthy(x)
  {
    LinkableSubset(urls, x);
    if x in urls && Truthy(x) {
      var k :| 0 <= k < |urls| && urls[k] == x;
      TruthyIsLinked(urls, k);
    }
  }

  /** Preparing the rows leaves alone every transient whose name is the
      token name of no truthy row. */
  lemma RowsFrame(entries: map<string, Transient>, host: Host, now: int, urls: seq<string>, key: string)
    requires forall j :: 0 <= j < |urls| && Truthy(urls[j]) ==> KeyOf(Token(host, urls[j])) != key
    ensures key in LinkedAll(entries, host, now, Linkable(urls)) <==> key in entries
    ensures key in entries ==> LinkedAll(entries, host, now, Linkable(urls))[key] == entries[key]
  {
    var linked := Linkable(urls);
    forall j | 0 <= j < |linked|
      ensures KeyOf(Token(host, linked[j])) != key
    {
      LinkableSubset(urls, linked[j]);
    }
    LinkedAllFrame(entries, host, now, linked, key);
  }

  /** After the editor is prepared at time `now`, the token of every
      non-empty row holds a transient that expires 30 days after `now`. */
  lemma RowsRefreshed(entries: map<string, Transient>, host: Host, now: int, urls: seq<string>, k: nat)
    requires k < |urls| && Truthy(urls[k])
    ensures KeyOf(Token(host, urls[k])) in LinkedAll(entries, host, now, Linkable(urls))
    ensures LinkedAll(entries, host, now, Linkable(urls))[KeyOf(Token(host, urls[k]))].expiry == now + TTL
  {
    TruthyIsLinked(urls, k);
    var i :| 0 <= i < |Linkable(urls)| && Linkable(urls)[i] == urls[k];
    LinkedAllLive(entries, host, now, Linkable(urls), i);
  }

  /** Every row the save path wrote gets its link refreshed: a saved list is
      all truthy, so Linkable keeps it whole. */
  lemma {:induction false} LinkableKeepsTruthy(urls: seq<string>)
    requires forall k :: 0 <= k < |urls| ==> Truthy(urls[k])
    ensures Linkable(urls) == urls
  {
    if urls != [] {
      LinkableKeepsTruthy(urls[..|urls| - 1]);
      assert urls[..|urls| - 1] + [urls[|urls| - 1]] == urls;
    }
  }
}
