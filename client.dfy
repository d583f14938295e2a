/** The editor's in-browser preview: onInput() and ensureScheme() compute the
    short link of what is typed, before anything is saved. The model compares
    them with what the server computes on save. */
module Client {
  import opened PhpStrings
  import opened WordPress
  import opened GoLink
  import opened Save

  /** ECMAScript WhiteSpace and LineTerminator: what String.prototype.trim()
      strips. */
  predicate IsJsSpace(c: char) {
    c == '\t' || c == '\n' || c == '\U{B}' || c == '\U{C}' || c == '\r' || c == ' '
    || c == '\U{A0}' || c == '\U{1680}' || '\U{2000}' <= c <= '\U{200A}'
    || c == '\U{2028}' || c == '\U{2029}' || c == '\U{202F}' || c == '\U{205F}'
    || c == '\U{3000}' || c == '\U{FEFF}'
  }

  /** JavaScript's s.trim(). */
  function JsTrim(s: string): string {
    TrimBy(s, IsJsSpace)
  }

  predicate IsAsciiLetter(c: char) {
    'a' <= c <= 'z' || 'A' <= c <= 'Z'
  }

  /** The class [a-zA-Z0-9+.-] of the scheme pattern. */
  predicate IsSchemeChar(c: char) {
    IsAsciiLetter(c) || '0' <= c <= '9' || c == '+' || c == '.' || c == '-'
  }

  /** [a-zA-Z0-9+.-]*: at the start of `s`. */
  predicate SchemeRest(s: string)
    decreases |s|
  {
    s != [] && (s[0] == ':' || (IsSchemeChar(s[0]) && SchemeRest(s[1..])))
  }

  /** The test /^[a-zA-Z][a-zA-Z0-9+.-]*:/ of ensureScheme(). */
  predicate HasSchemePrefix(u: string) {
    u != [] && IsAsciiLetter(u[0]) && SchemeRest(u[1..])
  }

  /** The scan agrees with the pattern read as a definition: some colon is
      preceded by scheme characters only. */
  lemma {:induction false} SchemeRestIff(s: string)
    ensures SchemeRest(s) <==>
            exists k :: 0 <= k < |s| && s[k] == ':' && forall j :: 0 <= j < k ==> IsSchemeChar(s[j])
  {
    if s != [] && s[0] != ':' {
      SchemeRestIff(s[1..]);
      if SchemeRest(s) {
        var k :| 0 <= k < |s| - 1 && s[1..][k] == ':' && forall j :: 0 <= j < k ==> IsSchemeChar(s[1..][j]);
        assert s[k + 1] == ':';
        assert forall j :: 0 <= j < k + 1 ==> IsSchemeChar(s[j]) by {
          forall j | 0 < j < k + 1
            ensures IsSchemeChar(s[j])
          {
            assert s[j] == s[1..][j - 1];
          }
        }
      }
      if exists k :: 0 <= k < |s| && s[k] == ':' && forall j :: 0 <= j < k ==> IsSchemeChar(s[j]) {
        var k :| 0 <= k < |s| && s[k] == ':' && forall j :: 0 <= j < k ==> IsSchemeChar(s[j]);
        assert k != 0;
        assert s[1..][k - 1] == ':';
        assert forall j :: 0 <= j < k - 1 ==> IsSchemeChar(s[1..][j]) by {
          forall j | 0 <= j < k - 1
            ensures IsSchemeChar(s[1..][j])
          {
            assert s[1..][j] == s[j + 1];
          }
        }
      }
    }
  }

  /** ensureScheme(u): "https://" in front unless `u` starts with a scheme and
      a colon. Afterwards the result always starts with one. */
  function EnsureScheme(u: string): (r: string)
    ensures HasSchemePrefix(r)
    ensures HasSchemePrefix(u) ==> r == u
    ensures !HasSchemePrefix(u) ==> r == HTTPS + u
  {
    if HasSchemePrefix(u) then u
    else
      var r := HTTPS + u;
      assert SchemeRest(r[5..]) by { assert r[5] == ':'; }
      assert SchemeRest(r[4..]) by { assert r[4..][1..] == r[5..]; }
      assert SchemeRest(r[3..]) by { assert r[3..][1..] == r[4..]; }
      assert SchemeRest(r[2..]) by { assert r[2..][1..] == r[3..]; }
      assert SchemeRest(r[1..]) by { assert r[1..][1..] == r[2..]; }
      r
  }

  /** Applying ensureScheme() twice is applying it once. */
  lemma EnsureSchemeIdempotent(u: string)
    ensures EnsureScheme(EnsureScheme(u)) == EnsureScheme(u)
  {
  }

  /** home: the data-home-url attribute, home_url('/'), with one trailing
      slash removed. */
  function ScriptHome(host: Host): string {
    var h := HomeUrl(host, "/");
    if h != [] && h[|h| - 1] == '/' then h[..|h| - 1] else h
  }

  /** The value onInput() puts into the short-link field for the typed value:
      empty for a blank value, otherwise the short link tfc_go_link() would
      return for the trimmed, scheme-coerced value. */
  function OnInput(host: Host, value: string): (r: string)
    ensures JsTrim(value) == "" ==> r == ""
    ensures JsTrim(value) != "" ==> r == ShortLink(host, Token(host, EnsureScheme(JsTrim(value))))
  {
    var url := JsTrim(value);
    if url == "" then ""
    else
      ScriptHomeIsHome(host);
      ShortLinkShape(host, Token(host, EnsureScheme(url)));
      ScriptHome(host) + "/go/" + Prefix(host.md5(EnsureScheme(url)), TOKEN_LENGTH) + "/"
  }

  /** The script's home is the site's home address itself. */
  lemma ScriptHomeIsHome(host: Host)
    ensures ScriptHome(host) == host.home
  {
    assert TrimStart("/", IsSlash) == "" by {
      assert IsSlash('/');
      assert "/"[1..] == "";
    }
    assert Truthy("/");
    var h := HomeUrl(host, "/");
    assert h == host.home + "/";
    assert h[..|h| - 1] == host.home;
  }

  /** A string without a slash contains no "://". */
  lemma {:induction false} NoSlashNoSeparator(s: string)
    requires forall k :: 0 <= k < |s| ==> s[k] != '/'
    ensures !Contains(s, SCHEME_SEPARATOR)
  {
    if s != [] {
      if |s| >= 3 {
        assert s[1] != '/';
      }
      NoSlashNoSeparator(s[1..]);
    }
  }

  /** The client's and the server's scheme rules produce the same string
      exactly when "starts with scheme:" and "contains ://" agree. */
  lemma SchemeRulesAgreeIff(u: string)
    ensures EnsureScheme(u) == WithScheme(u) <==> (HasSchemePrefix(u) <==> Contains(u, SCHEME_SEPARATOR))
  {
    if HasSchemePrefix(u) != Contains(u, SCHEME_SEPARATOR) {
      assert |EnsureScheme(u)| != |WithScheme(u)|;
    }
  }

  /** A string whose second character is a slash has no scheme prefix. */
  lemma SlashSecondNoScheme(u: string)
    requires |u| >= 2 && u[1] == '/'
    ensures !HasSchemePrefix(u)
  {
    assert u[1..][0] == '/';
  }

  /** A scheme without "//" (mailto:x) is kept by the client but gets
      "https://" in front on the server. */
  lemma MailtoDisagrees()
    ensures EnsureScheme("mailto:x") == "mailto:x"
    ensures WithScheme("mailto:x") == HTTPS + "mailto:x"
  {
    MailtoHasScheme();
    NoSlashNoSeparator("mailto:x");
  }

  /** "mailto:" is a scheme followed by a colon. */
  lemma MailtoHasScheme()
    ensures HasSchemePrefix("mailto:x")
  {
    SchemeRestIff("mailto:x"[1..]);
    assert "mailto:x"[1..][5] == ':';
  }

  /** A bare host whose query holds a URL ("a/?u=http://b") gets "https://"
      in front from the client but is kept as it is by the server. */
  lemma EmbeddedUrlDisagrees()
    ensures EnsureScheme("a/?u=http://b") == HTTPS + "a/?u=http://b"
    ensures WithScheme("a/?u=http://b") == "a/?u=http://b"
  {
    SlashSecondNoScheme("a/?u=http://b");
    assert "a/?u=http://b"[9..][..3] == SCHEME_SEPARATOR;
    ContainsAt("a/?u=http://b", SCHEME_SEPARATOR, 9);
  }

  /** PHP's trim() strips NUL and JavaScript's does not; JavaScript's strips
      the no-break space and PHP's does not. */
  lemma TrimRulesDisagree()
    ensures PhpTrim("\0") == "" && JsTrim("\0") == "\0"
    ensures PhpTrim("\U{A0}") == "\U{A0}" && JsTrim("\U{A0}") == ""
  {
    TrimSingle('\0', IsPhpSpace);
    TrimSingle('\0', IsJsSpace);
    TrimSingle('\U{A0}', IsPhpSpace);
    TrimSingle('\U{A0}', IsJsSpace);
  }

  /** When both trims and both scheme rules agree on the typed value and
      esc_url_raw() leaves the coerced URL as it is, saving keeps exactly that
      URL and the preview equals the short link the server issues for it. */
  lemma PreviewMatchesSave(host: Host, value: string)
    requires JsTrim(value) == PhpTrim(value) != ""
    requires HasSchemePrefix(PhpTrim(value)) <==> Contains(PhpTrim(value), SCHEME_SEPARATOR)
    requires host.escUrlRaw(WithScheme(PhpTrim(value))) == WithScheme(PhpTrim(value))
    ensures Cleaned(host, TrimAll([value])) == [WithScheme(PhpTrim(value))]
    ensures OnInput(host, value) == ShortLink(host, Token(host, WithScheme(PhpTrim(value))))
  {
    var url := WithScheme(PhpTrim(value));
    assert TrimAll([value]) == [PhpTrim(value)];
    assert url != "" && url != "0" by {
      ContainsIff(url, SCHEME_SEPARATOR);
    }
    CleanedSingle(host, PhpTrim(value));
    SchemeRulesAgreeIff(PhpTrim(value));
    ScriptHomeIsHome(host);
    ShortLinkShape(host, Token(host, url));
  }
}
