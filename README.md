# Encrypted Links — a Dafny model of the short-link core

Encrypted Links is a WordPress plugin. It turns destination URLs entered in
a post's editor into short links of the form `home/go/{token}/`. The token
is the first ten characters of the URL's MD5 digest. The mapping from token
to URL is kept as a WordPress transient that lives for 30 days. A request
for `/go/{token}/` is answered with a 302 to the stored URL, or with a 404.

This project models the plugin's core and proves properties of the model:

- `GoLink` (`go_link.dfy`) models `tfc_go_link()`. It derives the token,
  upserts the transient, and returns the short link.
- `Redirect` (`redirect.dfy`) models `tfc_go_handle_redirect()`. The headers
  and status it sends are returned as a `Response` value.
- `Save` (`save.dfy`) models `tfc_go_save_metabox()`. The guards are
  followed by four steps:
  - trimming the submitted entries;
  - the scheme coercion;
  - `esc_url_raw()`;
  - persisting the cleaned list and refreshing every short link.
- `Editor` (`editor.dfy`) models how `tfc_go_metabox_cb()` prepares the
  editor's rows. This covers the fallback to the legacy single-URL key and
  to one blank row. It also covers refreshing the link of every non-empty
  row.
- `Client` (`client.dfy`) models the editor script's `onInput()` and
  `ensureScheme()`. The preview it shows is compared with what the server
  computes on save.
- `WordPress` (`wordpress.dfy`) models the host services the plugin uses:
  - `home_url()`;
  - the transient store, as a class with a map field updated in place;
  - the post-meta table, also a class.

  `md5()`, `esc_url_raw()` and the site's home option are fields of a
  `Host` value. They are left uninterpreted, so every property holds for
  every choice of them.
- `PhpStrings` (`php_strings.dfy`) models the PHP string primitives with
  their edge cases:
  - truthiness, where `""` and `"0"` are false;
  - `trim()` and its character set;
  - `substr($s, 0, $n)`;
  - the `stripos()` search for `"://"`.

Where the code changes state, the model is imperative:

- `TransientStore.Set`, `PostMeta.Update` and `PostMeta.Delete` change
  class fields.
- `GoLink.Link`, `Save.SaveMetabox`, `Editor.PrepareRows` and
  `Editor.LinkRows` are methods.
- The loops of `tfc_go_save_metabox()` and `tfc_go_metabox_cb()` are `for`
  loops with invariants.

Each method is proved against a pure specification function:

- `Linked` and `LinkedAll` for the transient table;
- `Cleaned` for the cleaning loop;
- `RowUrls` and `Linkable` for the editor rows.

The lemmas are stated about those functions.

Three facts about the code shape what the model proves:

- **`tfc_go_link()` hashes its argument as given.** Only the save path adds
  `https://`, so a URL without a scheme and the same URL with `https://` are
  hashed as different strings when `tfc_go_link()` is called directly, and so
  generally get different tokens.
- **The redirect target is `esc_url_raw($u)`.** On the save path the value is
  sanitised twice, because `tfc_go_link()` applies `esc_url_raw()` again to
  the already cleaned URL.
- **The preview can differ from the save.**
  - `Client.MailtoDisagrees` and `Client.EmbeddedUrlDisagrees` give inputs
    on which the script's scheme rule and the server's produce different
    strings.
  - `Client.TrimRulesDisagree` gives characters that the two `trim()`
    functions treat differently.
  - `Client.PreviewMatchesSave` states when the preview equals the short
    link the server issues.

## Model

| member | source | states |
|---|---|---|
| GoLink.Link | encrypted-links.php:16-20 | The transient table afterwards is the old one with the token's name mapped to (esc_url_raw(u), now + 30 days) and nothing else changed; the result is home_url('/go/' . token . '/') |
| GoLink.TokenShape | encrypted-links.php:17 | For a 32-character digest the token is its first 10 characters, is truthy, and is alphanumeric (so the rewrite rule of line 25 routes it) when the digest is lower-case hex |
| GoLink.ShortLinkShape | encrypted-links.php:19 | The short link is exactly home + "/go/" + token + "/" |
| GoLink.KeyOfInjective | encrypted-links.php:18 | Two tokens share a transient name exactly when they are equal |
| GoLink.LinkFrame | encrypted-links.php:18 | Linking a URL leaves every other transient name, and its presence or absence, unchanged |
| GoLink.LinkIdempotent | encrypted-links.php:16-18 | Linking the same URL twice equals linking it once at the later time: one entry, same value, expiry from the later call |
| GoLink.LastWriterWins | encrypted-links.php:17-18 | Two URLs whose digests share the first 10 characters share a token, and the later link replaces the earlier mapping entirely |
| GoLink.LinkedAllSnoc | encrypted-links.php:225-227 | Linking a batch and then one more URL is linking the extended batch |
| GoLink.LinkedAllLive | encrypted-links.php:225-227 | After linking a batch at time now, every URL of the batch has a transient that expires at now + 30 days |
| GoLink.LinkedAllLastWriter | encrypted-links.php:225-227 | After a batch, a URL that no later URL of the batch collides with maps to its own esc_url_raw value |
| GoLink.LinkedAllFrame | encrypted-links.php:225-227 | After a batch, a transient name no URL of the batch maps to keeps its entry, or its absence |
| Redirect.HandleRedirect | encrypted-links.php:42-55 | A falsy query variable continues the request; otherwise the robots header always comes first, and the response is a 302 with exactly the robots, X-Redirect-By and Location = stored value headers exactly when the transient is present, unexpired and truthy, else a 404 carrying the robots header only |
| Redirect.RoundTrip | encrypted-links.php:16-20 | After linking u at t0, requesting its token at time now redirects to esc_url_raw(u) exactly when now <= t0 + 30 days and that value is truthy, otherwise a 404 |
| Redirect.UnknownToken | encrypted-links.php:47-54 | Any truthy token on an empty transient table is a 404 |
| Redirect.CollisionRedirectsToLater | encrypted-links.php:17-18 | When two URLs share a token, the redirect goes to the one linked later |
| Redirect.BatchRoundTrip | encrypted-links.php:222-227 | After a save-time batch of links, each URL not shadowed by a later collision redirects to its sanitised value for 30 days |
| WordPress.HomeUrl | encrypted-links.php:19 | home_url(path): home followed by "/" for a truthy path, home alone for a falsy one |
| WordPress.GetTransient | encrypted-links.php:47 | get_transient yields a value exactly when the entry exists and has not expired, and then the stored value |
| WordPress.TransientStore.Set | encrypted-links.php:18 | set_transient replaces or creates one entry with expiry now + ttl and changes nothing else |
| WordPress.PostMeta.Get | encrypted-links.php:80 | get_post_meta yields the stored value exactly when the (post, key) row exists |
| WordPress.PostMeta.Update | encrypted-links.php:222 | update_post_meta sets one (post, key) row and changes nothing else |
| WordPress.PostMeta.Delete | encrypted-links.php:216-218 | delete_post_meta removes one (post, key) row and changes nothing else |
| Save.WithScheme | encrypted-links.php:206-208 | The coerced URL always contains "://"; a URL containing it anywhere is kept, any other gets "https://" in front |
| Save.WithSchemeIdempotent | encrypted-links.php:206-208 | Coercing twice equals coercing once |
| Save.TrimAll | encrypted-links.php:200 | array_map('trim', ...) keeps the number of entries |
| Save.Cleaned | encrypted-links.php:203-213 | The cleaned list is never longer than the input and every entry of it is truthy |
| Save.CleanedAppend | encrypted-links.php:204-213 | Cleaning keeps input order and cleans each entry independently: cleaning a + b is cleaning a then b |
| Save.CleanedSingle | encrypted-links.php:205-212 | One entry is dropped (empty, or falsy after esc_url_raw) or becomes esc_url_raw of its coerced form |
| Save.SanitisedFromLast | encrypted-links.php:204-213 | A kept entry of a list is a kept entry of its prefix or its last entry |
| Save.CleanedMembers | encrypted-links.php:204-213 | A URL is in the cleaned list exactly when some non-empty trimmed entry sanitises to it and that value is truthy |
| Save.CleanUrls | encrypted-links.php:200-213 | The cleaning loop returns exactly the cleaned list of the trimmed submitted entries |
| Save.SaveMetabox | encrypted-links.php:185-231 | A failed nonce, autosave or capability check changes nothing; an empty cleaned list deletes both meta keys and leaves the transients; otherwise both keys are written (the list, and its first entry under the legacy key) and every cleaned URL is linked in order |
| Editor.RowUrls | encrypted-links.php:80-95 | There is always at least one row; a non-empty stored list is shown as it is, otherwise a truthy legacy URL alone, otherwise one blank row |
| Editor.Linkable | encrypted-links.php:97-101 | The URLs that get a link are no more than the rows and all truthy; LinkableSubset and LinkableMembers give membership |
| Editor.LinkableStep | encrypted-links.php:99-101 | One more row joins the linked URLs exactly when it is truthy |
| Editor.TruthyIsLinked | encrypted-links.php:97-101 | Every truthy row is among the URLs that get a link (the converse of Linkable's contract) |
| Editor.LinkableSubset | encrypted-links.php:97-101 | Every linked URL is one of the rows |
| Editor.LinkableMembers | encrypted-links.php:97-101 | A URL is linked exactly when it is a row and truthy: only non-empty rows call tfc_go_link(), and each does |
| Editor.RowsFrame | encrypted-links.php:97-101 | Preparing the rows leaves every transient whose name belongs to no truthy row as it was, present or absent |
| Editor.RowsRefreshed | encrypted-links.php:97-101 | After the rows are prepared at time now, the token of every truthy row holds a transient that expires at now + 30 days |
| Editor.LinkableKeepsTruthy | encrypted-links.php:99-101 | When every row is truthy, every row is linked |
| Editor.RowsForRows | encrypted-links.php:97-103 | Row k carries the k-th URL and its short link, or '' for a falsy URL |
| Editor.LinkRows | encrypted-links.php:97-103 | Row k is the k-th URL with its short link; the transient table afterwards is the old one with the truthy URLs linked in order |
| Editor.PrepareRows | encrypted-links.php:80-103 | The rows are those of RowUrls for the post's stored keys, each with its short link, and the truthy ones have been re-linked in order, so each truthy row's token is live until now + 30 days |
| Editor.RowsAfterSave | encrypted-links.php:215-230 | After a save, the editor shows exactly the cleaned list, or one blank row when that list was empty and both keys were deleted |
| Client.SchemeRestIff | encrypted-links.php:129 | The scan matches the pattern ^[a-zA-Z][a-zA-Z0-9+.-]*: read as a definition: some colon is preceded only by scheme characters |
| Client.EnsureScheme | encrypted-links.php:128-130 | The result always starts with a scheme and a colon; a URL that does is kept, any other gets "https://" in front |
| Client.EnsureSchemeIdempotent | encrypted-links.php:128-130 | Applying ensureScheme twice equals applying it once |
| Client.ScriptHomeIsHome | encrypted-links.php:116 | The script's home (data-home-url without its trailing slash) is the site's home address |
| Client.NoSlashNoSeparator | encrypted-links.php:206 | A string without a slash contains no "://" |
| Client.SlashSecondNoScheme | encrypted-links.php:129 | A string whose second character is a slash has no scheme prefix |
| Client.SchemeRulesAgreeIff | encrypted-links.php:124 | The client's and the server's scheme rules give the same string exactly when "starts with scheme:" and "contains ://" agree |
| Client.MailtoHasScheme | encrypted-links.php:129 | "mailto:x" starts with a scheme and a colon |
| Client.MailtoDisagrees | encrypted-links.php:124 | The two scheme rules produce different strings for "mailto:x": the script keeps it, the server puts "https://" in front |
| Client.EmbeddedUrlDisagrees | encrypted-links.php:124 | "a/?u=http://b" gets "https://" from the client but is kept by the server |
| Client.TrimRulesDisagree | encrypted-links.php:121 | PHP's trim() strips NUL and JavaScript's does not; JavaScript's strips U+00A0 and PHP's does not |
| Client.OnInput | encrypted-links.php:119-127 | A blank typed value (after the script's trim) clears the short-link field; any other value shows the short link tfc_go_link() returns for the trimmed value after ensureScheme |
| Client.PreviewMatchesSave | encrypted-links.php:119-127 | When both trims and both scheme rules agree on the typed value and esc_url_raw keeps the coerced URL, saving keeps exactly that URL and the preview is the short link the server issues for it |
| PhpStrings.TrimStart | encrypted-links.php:200 | The result is a suffix of the input that does not start with a space character |
| PhpStrings.TrimEnd | encrypted-links.php:200 | The result is a prefix of the input that does not end with a space character |
| PhpStrings.TrimBy | encrypted-links.php:200 | The trimmed string neither starts nor ends with a space character |
| PhpStrings.TrimStartDropsSpaces | encrypted-links.php:200 | Everything the left trim removes is a space character |
| PhpStrings.TrimEndDropsSpaces | encrypted-links.php:200 | Everything the right trim removes is a space character |
| PhpStrings.TrimEndDropsSpacesAfter | encrypted-links.php:200 | Right-trimming a suffix of s removes space characters of s only |
| PhpStrings.TrimByShape | encrypted-links.php:200 | The trimmed string is the part of the input between a run of leading and a run of trailing space characters |
| PhpStrings.TrimSingle | encrypted-links.php:200 | A one-character string trims to nothing exactly when the character is a space character |
| PhpStrings.TrimIdempotent | encrypted-links.php:200 | Trimming twice equals trimming once |
| PhpStrings.Prefix | encrypted-links.php:17 | substr($s, 0, $n) is a prefix of s whose length is the smaller of n and the length of s |
| PhpStrings.ContainsIff | encrypted-links.php:206 | The search succeeds exactly when the needle occurs at some position |
| PhpStrings.ContainsAt | encrypted-links.php:206 | An occurrence at a given position makes the search succeed |

## Left out

- The MD5 computation itself is not modelled; `md5()` is an uninterpreted field of `Host`. The same function stands for PHP's `md5()` and the script's `md5()`. The script hashes the UTF-8 encoding of a UTF-16 string and PHP hashes the bytes of its string, and those are assumed to agree.
- `esc_url_raw()` and `wp_sanitize_redirect()` are not part of this model. `esc_url_raw()` is an uninterpreted field of `Host`, and `wp_redirect()` is taken to send its location unchanged.
- The site's home option is a field of `Host`. The `home_url` filter and the scheme `home_url()` may rewrite are not modelled.
- Rewrite registration, activation and deactivation flushes (lines 24-39) are routing configuration with no state the core reads. Their only effect modelled is that the token is alphanumeric (`GoLink.TokenShape`).
- Meta-box registration (lines 59-74), the nonce field and all HTML output, including `tfc_go_render_row()` (lines 164-183) and `esc_attr()`/`esc_html__()`, are rendering only.
- The script's `addRow()` and `onClick()` handlers and the event wiring (lines 131-146) are DOM manipulation only.
- `header()`, `status_header()`, `wp_redirect()` and `exit` are not performed. `Redirect.HandleRedirect` returns them as a `Response` value.
- `get_query_var('tfc_go')` is a parameter of `Redirect.HandleRedirect`.
- The clock is a parameter `now`. The transient store is taken to keep every entry until it expires; eviction by a persistent object cache, which can make `get_transient()` return false earlier, is not modelled. Deleting an expired transient on read is not modelled either.
- The nonce check, `DOING_AUTOSAVE` and `current_user_can()` are boolean parameters of `Save.SaveMetabox`.
- Concurrent requests are not modelled. Each call runs alone on the store.
- The `function_exists()` override of `tfc_go_link()` (line 15) is not modelled. The plugin's own definition is.
- Save.SaveMetabox: `$_POST['tfc_go_real_urls']` is taken to be absent or an array of strings. Non-string elements and PHP's casts of them are not modelled.
- Editor.StoredList: a stored list value is taken to hold strings. A legacy meta value that is an array is read as '' (the model stores only text there).
- Editor.PrepareRows: a post is taken to have at most one meta row per key, which is all `update_post_meta()` creates.
- Client.JsTrim: JavaScript strings are sequences of UTF-16 code units. The model uses Unicode scalar values, which makes no difference to the characters `trim()` strips.
- Save.SaveMetabox: WordPress's slashing of `$_POST` (a backslash before quotes and backslashes, and NUL turned into a backslash and `0`) is not modelled. Submitted strings are taken as already unslashed and free of NUL. On strings without those characters slashing changes nothing.
- WordPress.PostMeta.Update: the `wp_unslash()` that `update_post_meta()` applies to the stored value is taken to change nothing. That holds for what the plugin stores, because WordPress's `esc_url_raw()` removes backslashes, but the model leaves `esc_url_raw()` uninterpreted.
- Client.TrimRulesDisagree: on the save path a typed NUL reaches `trim()` as a backslash and `0`, because of the slashing above. Only the U+00A0 half of this lemma is therefore a difference between preview and save.
