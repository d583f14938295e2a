/** tfc_go_save_metabox(): on saving a post, clean the submitted destination
    URLs, persist them as post meta (plus the legacy single-URL key) and
    create or refresh the short link of each. */
module Save {
  import opened PhpStrings
  import opened WordPress
  import opened GoLink

  const URLS_KEY: string := "_tfc_go_real_urls"
  const LEGACY_KEY: string := "_tfc_go_real_url"
  const SCHEME_SEPARATOR: string := "://"
  const HTTPS: string := "https://"

  /** The server's scheme rule: a URL without "://" anywhere in it gets
      "https://" in front. Afterwards it always contains "://". */
  function WithScheme(s: string): (r: string)
    ensures Contains(r, SCHEME_SEPARATOR)
    ensures Contains(s, SCHEME_SEPARATOR) ==> r == s
    ensures !Contains(s, SCHEME_SEPARATOR) ==> r == HTTPS + s
  {
    if Contains(s, SCHEME_SEPARATOR) then s
    else
      ContainsAt(HTTPS + s, SCHEME_SEPARATOR, 5);
      HTTPS + s
  }

  /** Coercing twice is coercing once. */
  lemma WithSchemeIdempotent(s: string)
    ensures WithScheme(WithScheme(s)) == WithScheme(s)
  {
  }

  /** array_map('trim', ...): every submitted entry trimmed, in order. */
  function TrimAll(posted: seq<string>): (r: seq<string>)
    ensures |r| == |posted|
  {
    seq(|posted|, i requires 0 <= i < |posted| => PhpTrim(posted[i]))
  }

  /** What one trimmed entry becomes: scheme-coerced, then sanitised. */
  function Sanitise(host: Host, raw: string): string {
    host.escUrlRaw(WithScheme(raw))
  }

  /** Whether the loop keeps a trimmed entry: it is not empty and
      esc_url_raw() leaves something truthy. */
  predicate Kept(host: Host, raw: string) {
    raw != "" && Truthy(Sanitise(host, raw))
  }

  /** The cleaned list built from the trimmed entries: the sanitised form of
      every kept entry, in input order. Every entry of it is truthy. */
  function Cleaned(host: Host, raws: seq<string>): (r: seq<string>)
    ensures |r| <= |raws|
    ensures forall k :: 0 <= k < |r| ==> Truthy(r[k])
  {
    if raws == [] then []
    else
      var init := Cleaned(host, raws[..|raws| - 1]);
      var last := raws[|raws| - 1];
      if Kept(host, last) then init + [Sanitise(host, last)] else init
  }

  /** Cleaning distributes over concatenation: input order is kept, and each
      entry is cleaned independently of its neighbours. */
  lemma {:induction false} CleanedAppend(host: Host, a: seq<string>, b: seq<string>)
    ensures Cleaned(host, a + b) == Cleaned(host, a) + Cleaned(host, b)
  {
    if b == [] {
      assert a + b == a;
    } else {
      var b' := b[..|b| - 1];
      assert (a + b)[..|a + b| - 1] == a + b';
      CleanedAppend(host, a, b');
    }
  }

  /** One entry is either dropped or becomes its sanitised form. */
  lemma CleanedSingle(host: Host, raw: string)
    ensures Cleaned(host, [raw]) == if Kept(host, raw) then [Sanitise(host, raw)] else []
  {
    assert [raw][..0] == [];
  }

  /** Some kept entry of `raws` sanitises to `x`. */
  ghost predicate SanitisedFrom(host: Host, raws: seq<string>, x: string) {
    exists j :: 0 <= j < |raws| && Kept(host, raws[j]) && x == Sanitise(host, raws[j])
  }

  /** Splitting off the last entry: a kept entry of `raws` is a kept entry of
      its prefix or the last one. */
  lemma SanitisedFromLast(host: Host, raws: seq<string>, x: string)
    requires raws != []
    ensures SanitisedFrom(host, raws, x) <==>
            SanitisedFrom(host, raws[..|raws| - 1], x)
            || (Kept(host, raws[|raws| - 1]) && x == Sanitise(host, raws[|raws| - 1]))
  {
    var n := |raws| - 1;
    var init := raws[..n];
    if SanitisedFrom(host, raws, x) {
      var j :| 0 <= j < |raws| && Kept(host, raws[j]) && x == Sanitise(host, raws[j]);
      if j < n {
        assert init[j] == raws[j];
      }
    }
    if SanitisedFrom(host, init, x) {
      var j :| 0 <= j < n && Kept(host, init[j]) && x == Sanitise(host, init[j]);
      assert init[j] == raws[j];
    }
  }

  /** A URL is in the cleaned list exactly when some kept entry sanitises to it. */
  lemma {:induction false} CleanedMembers(host: Host, raws: seq<string>, x: string)
    ensures x in Cleaned(host, raws) <==> SanitisedFrom(host, raws, x)
  {
    if raws == [] {
      assert Cleaned(host, raws) == [];
    } else {
      var n := |raws| - 1;
      CleanedMembers(host, raws[..n], x);
      SanitisedFromLast(host, raws, x);
      var last := if Kept(host, raws[n]) then [Sanitise(host, raws[n])] else [];
      assert Cleaned(host, raws) == Cleaned(host, raws[..n]) + last;
      assert x in Cleaned(host, raws) <==> x in Cleaned(host, raws[..n]) || x in last;
    }
  }

  /** The cleaning loop of tfc_go_save_metabox(). */
  method CleanUrls(host: Host, posted: seq<string>) returns (clean: seq<string>)
    ensures clean == Cleaned(host, TrimAll(posted))
  {
    var reals := TrimAll(posted);
    clean := [];
    for i := 0 to |reals|
      invariant clean == Cleaned(host, reals[..i])
    {
      assert reals[..i + 1][..i] == reals[..i];
      var url := reals[i];
      if url == "" {
        continue;
      }
      if !Contains(url, SCHEME_SEPARATOR) {
        url := HTTPS + url;
      }
      url := host.escUrlRaw(url);
      if Truthy(url) {
        clean := clean + [url];
      }
    }
    assert reals[..|reals|] == reals;
  }

  /** The submitted field: absent or not an array reads as no entries. */
  function Submitted(posted: Option<seq<string>>): seq<string> {
    match posted
    case Some(items) => items
    case None => []
  }

  /** The save hook. The nonce check, the autosave flag and the capability
      check are inputs; `posted` is $_POST['tfc_go_real_urls'] when it is an
      array. */
  method SaveMetabox(store: TransientStore, meta: PostMeta, host: Host, now: int, postId: int,
                     nonceValid: bool, autosave: bool, canEdit: bool, posted: Option<seq<string>>)
    modifies store, meta
    ensures !(nonceValid && !autosave && canEdit) ==>
              store.entries == old(store.entries) && meta.rows == old(meta.rows)
    ensures nonceValid && !autosave && canEdit && Cleaned(host, TrimAll(Submitted(posted))) == [] ==>
              store.entries == old(store.entries)
              && meta.rows == old(meta.rows) - {(postId, URLS_KEY), (postId, LEGACY_KEY)}
    ensures nonceValid && !autosave && canEdit && Cleaned(host, TrimAll(Submitted(posted))) != [] ==>
              var clean := Cleaned(host, TrimAll(Submitted(posted)));
              store.entries == LinkedAll(old(store.entries), host, now, clean)
              && meta.rows == old(meta.rows)[(postId, URLS_KEY) := List(clean)]
                                            [(postId, LEGACY_KEY) := Text(clean[0])]
  {
    if !nonceValid {
      return;
    }
    if autosave {
      return;
    }
    if !canEdit {
      return;
    }
    var clean := CleanUrls(host, Submitted(posted));
    if clean == [] {
      meta.Delete(postId, URLS_KEY);
      meta.Delete(postId, LEGACY_KEY);
      return;
    }
    meta.Update(postId, URLS_KEY, List(clean));
    for i := 0 to |clean|
      invariant store.entries == LinkedAll(old(store.entries), host, now, clean[..i])
      invariant meta.rows == old(meta.rows)[(postId, URLS_KEY) := List(clean)]
    {
      assert clean[..i + 1][..i] == clean[..i];
      var _ := Link(store, host, now, clean[i]);
    }
    assert clean[..|clean|] == clean;
    meta.Update(postId, LEGACY_KEY, Text(clean[0]));
  }
}
