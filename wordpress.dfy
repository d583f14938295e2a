/** The parts of WordPress the plugin talks to: the library calls whose code
    is not part of this model (md5, esc_url_raw, the site's home option),
    home_url(), the transient store and the post-meta table. */
module WordPress {
  import opened PhpStrings

  const DAY_IN_SECONDS: int := 86400

  /** What the host supplies. `md5` is PHP's md5() (RFC 1321, lower-case hex),
      `escUrlRaw` is esc_url_raw(), `home` is the site's home option. All are
      left uninterpreted: the model proves its properties for every choice. */
  datatype Host = Host(md5: string -> string, escUrlRaw: string -> string, home: string)

  predicate IsSlash(c: char) {
    c == '/'
  }

  /** home_url($path): the home address, then, for a truthy path, one slash
      and the path without its leading slashes. */
  function HomeUrl(host: Host, path: string): (r: string)
    ensures Truthy(path) ==> host.home + "/" <= r
    ensures !Truthy(path) ==> r == host.home
  {
    if Truthy(path) then host.home + "/" + TrimStart(path, IsSlash) else host.home
  }

  /** One transient: its value and the time after which it has expired. */
  datatype Transient = Transient(value: string, expiry: int)

  /** get_transient($key) at time `now`: the value while the entry is live,
      None (PHP's false) for a missing or expired one. */
  function GetTransient(entries: map<string, Transient>, key: string, now: int): (r: Option<string>)
    ensures r.Some? <==> key in entries && now <= entries[key].expiry
    ensures r.Some? ==> r.value == entries[key].value
  {
    if key in entries && now <= entries[key].expiry then Some(entries[key].value) else None
  }

  /** The transient store, keyed by transient name. */
  class TransientStore {
    var entries: map<string, Transient>

    constructor ()
      ensures entries == map[]
    {
      entries := map[];
    }

    /** set_transient($key, $value, $ttl) at time `now`: the entry is created
        or replaced and expires `ttl` seconds from now; nothing else changes.
        (A zero time-to-live means "never expires" to WordPress; the plugin
        never passes one.) */
    method Set(key: string, value: string, ttl: int, now: int)
      requires ttl > 0
      modifies this
      ensures entries == old(entries)[key := Transient(value, now + ttl)]
    {
      entries := entries[key := Transient(value, now + ttl)];
    }
  }

  /** A post-meta value: the plugin stores either a string or a list of strings. */
  datatype MetaValue = Text(text: string) | List(items: seq<string>)

  /** The post-meta table, one value per (post ID, meta key). */
  class PostMeta {
    var rows: map<(int, string), MetaValue>

    constructor ()
      ensures rows == map[]
    {
      rows := map[];
    }

    /** get_post_meta($post, $key, true): the stored value, None when the key
        is absent (WordPress then returns ''). */
    function Get(post: int, key: string): (r: Option<MetaValue>)
      reads this
      ensures r.Some? <==> (post, key) in rows
      ensures r.Some? ==> r.value == rows[(post, key)]
    {
      if (post, key) in rows then Some(rows[(post, key)]) else None
    }

    /** update_post_meta($post, $key, $value): the key now holds `value`. */
    method Update(post: int, key: string, value: MetaValue)
      modifies this
      ensures rows == old(rows)[(post, key) := value]
    {
      rows := rows[(post, key) := value];
    }

    /** delete_post_meta($post, $key): the key is gone. */
    method Delete(post: int, key: string)
      modifies this
      ensures rows == old(rows) - {(post, key)}
    {
      rows := rows - {(post, key)};
    }
  }
}
