/**
 * The in-memory cookie jar: per host, a list of cookies that a response
 * replaces by (name, domain) and a request reads with the expired ones left out.
 * The clock is a parameter: `now` is what `System.currentTimeMillis()` returned.
 */
module CookieManager {
  import opened Seqs

  /** An OkHttp cookie, reduced to the fields the jar looks at or hands back. */
  datatype Cookie = Cookie(name: string, value: string, domain: string, path: string, expiresAt: int)

  /** Two cookies the jar treats as the same one. */
  predicate SameKey(a: Cookie, b: Cookie) {
    a.name == b.name && a.domain == b.domain
  }

  /** `!expiresAt.isBefore(now)`: a cookie expiring exactly now is still valid. */
  function AliveAt(now: int): Cookie -> bool {
    (c: Cookie) => c.expiresAt >= now
  }

  /** Some incoming cookie has the same name and domain as `existing`. */
  predicate Replaced(incoming: seq<Cookie>, existing: Cookie) {
    exists i :: 0 <= i < |incoming| && SameKey(incoming[i], existing)
  }

  function NotReplacedBy(incoming: seq<Cookie>): Cookie -> bool {
    (c: Cookie) => !Replaced(incoming, c)
  }

  /** The host's list after `saveFromResponse`: the survivors of `removeAll`, then the valid incoming cookies. */
  function Saved(existing: seq<Cookie>, incoming: seq<Cookie>, now: int): seq<Cookie> {
    Filter(existing, NotReplacedBy(incoming)) + Filter(incoming, AliveAt(now))
  }

  /**
   * A cookie is kept exactly when it was stored and no incoming cookie shares its
   * name and domain, or it is an incoming cookie that has not expired.
   */
  lemma SavedMembership(existing: seq<Cookie>, incoming: seq<Cookie>, now: int, c: Cookie)
    ensures c in Saved(existing, incoming, now) <==>
      (c in existing && !Replaced(incoming, c)) || (c in incoming && c.expiresAt >= now)
  {
    var kept, added := Filter(existing, NotReplacedBy(incoming)), Filter(incoming, AliveAt(now));
    if c in kept {
      var i :| 0 <= i < |kept| && kept[i] == c;
      assert NotReplacedBy(incoming)(kept[i]);
    }
    if c in added {
      var i :| 0 <= i < |added| && added[i] == c;
      assert AliveAt(now)(added[i]);
    }
    if c in existing && !Replaced(incoming, c) {
      var i :| 0 <= i < |existing| && existing[i] == c;
      assert NotReplacedBy(incoming)(existing[i]);
    }
    if c in incoming && c.expiresAt >= now {
      var i :| 0 <= i < |incoming| && incoming[i] == c;
      assert AliveAt(now)(incoming[i]);
    }
  }

  /**
   * An incoming cookie removes every stored one with its name and domain even when
   * it has itself expired: what the host holds under that key afterwards is only
   * valid incoming cookies.
   */
  lemma SavedReplaces(existing: seq<Cookie>, incoming: seq<Cookie>, now: int, c: Cookie, x: Cookie)
    requires c in incoming
    requires x in Saved(existing, incoming, now) && SameKey(x, c)
    ensures x in incoming && x.expiresAt >= now
  {
    SavedMembership(existing, incoming, now, x);
    var i :| 0 <= i < |incoming| && incoming[i] == c;
    assert SameKey(incoming[i], x);
  }

  /** No two cookies of a list share a name and domain. */
  predicate UniqueKeys(cs: seq<Cookie>) {
    Pairwise(cs, (a: Cookie, b: Cookie) => !SameKey(a, b))
  }

  /** Saving keeps a host's keys unique when the response's own keys are. */
  lemma SavedUniqueKeys(existing: seq<Cookie>, incoming: seq<Cookie>, now: int)
    requires UniqueKeys(existing) && UniqueKeys(incoming)
    ensures UniqueKeys(Saved(existing, incoming, now))
  {
    var rel := (a: Cookie, b: Cookie) => !SameKey(a, b);
    var kept, added := Filter(existing, NotReplacedBy(incoming)), Filter(incoming, AliveAt(now));
    FilterPairwise(existing, NotReplacedBy(incoming), rel);
    FilterPairwise(incoming, AliveAt(now), rel);
    var r := kept + added;
    forall i, j | 0 <= i < j < |r|
      ensures rel(r[i], r[j])
    {
      if j < |kept| {
        assert r[i] == kept[i] && r[j] == kept[j];
      } else if i >= |kept| {
        assert r[i] == added[i - |kept|] && r[j] == added[j - |kept|];
      } else {
        assert r[i] == kept[i] && r[j] == added[j - |kept|];
        assert NotReplacedBy(incoming)(kept[i]);
        var k :| 0 <= k < |incoming| && incoming[k] == added[j - |kept|];
        assert !SameKey(incoming[k], kept[i]);
      }
    }
  }

  /** `loadForRequest` on a host's list: the valid cookies, in stored order. */
  function Load(cs: seq<Cookie>, now: int): (r: seq<Cookie>)
    ensures forall i :: 0 <= i < |r| ==> r[i] in cs && r[i].expiresAt >= now
    ensures forall i :: 0 <= i < |cs| && cs[i].expiresAt >= now ==> cs[i] in r
  {
    var r := Filter(cs, AliveAt(now));
    assert forall i :: 0 <= i < |r| ==> AliveAt(now)(r[i]);
    assert forall i :: 0 <= i < |cs| && cs[i].expiresAt >= now ==> AliveAt(now)(cs[i]);
    r
  }

  /**
   * Loading right after saving, with the same clock, returns the valid survivors
   * and then every valid incoming cookie in the response's order.
   */
  lemma LoadAfterSave(existing: seq<Cookie>, incoming: seq<Cookie>, now: int)
    ensures Load(Saved(existing, incoming, now), now)
      == Load(Filter(existing, NotReplacedBy(incoming)), now) + Filter(incoming, AliveAt(now))
  {
    FilterAppend(Filter(existing, NotReplacedBy(incoming)), Filter(incoming, AliveAt(now)), AliveAt(now));
    FilterTwice(incoming, AliveAt(now));
  }

  class SimpleCookieJar {
    var cookieStore: map<string, seq<Cookie>>

    constructor ()
      ensures cookieStore == map[]
    {
      cookieStore := map[];
    }

    /** The list `getOrPut` finds for `host`, or the empty one it creates. */
    function Stored(host: string): seq<Cookie>
      reads this
    {
      if host in cookieStore then cookieStore[host] else []
    }

    /** `saveFromResponse(url, cookies)` for `url.host == host` at time `now`. */
    method SaveFromResponse(host: string, cookies: seq<Cookie>, now: int)
      modifies this
      ensures cookieStore == old(cookieStore)[host := Saved(old(Stored(host)), cookies, now)]
    {
      var list := Stored(host);
      cookieStore := cookieStore[host := list];
      list := Filter(list, NotReplacedBy(cookies));
      list := list + Filter(cookies, AliveAt(now));
      cookieStore := cookieStore[host := list];
    }

    /** `loadForRequest(url)` for `url.host == host` at time `now`; an unknown host has no cookies. */
    function LoadForRequest(host: string, now: int): (r: seq<Cookie>)
      reads this
      ensures host !in cookieStore ==> r == []
      ensures forall i :: 0 <= i < |r| ==> r[i] in Stored(host) && r[i].expiresAt >= now
      ensures forall i :: 0 <= i < |Stored(host)| && Stored(host)[i].expiresAt >= now ==> Stored(host)[i] in r
    {
      if host in cookieStore then Load(cookieStore[host], now) else []
    }

    /** `clear()`. */
    method Clear()
      modifies this
      ensures cookieStore == map[]
    {
      cookieStore := map[];
    }

    /** `clearForHost(host)`: only that host's entry goes. */
    method ClearForHost(host: string)
      modifies this
      ensures cookieStore == old(cookieStore) - {host}
    {
      cookieStore := cookieStore - {host};
    }

    /** `getAllCookies()`: the store's hosts, each with its cookie list. */
    function GetAllCookies(): (r: map<string, seq<Cookie>>)
      reads this
      ensures r.Keys == cookieStore.Keys && forall h :: h in r ==> r[h] == cookieStore[h]
    {
      cookieStore
    }
  }
}
