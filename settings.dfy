/** What `start` does to the configuration before it begins watching: infer the store
    from the shape of the app id, default the region, and build the App Store feed URL. */
module Settings {
  import opened Js
  import opened Entities

  const DEFAULT_REGION: string := "us"
  const FEED_PREFIX: string := "https://itunes.apple.com/"
  const FEED_MIDDLE: string := "/rss/customerreviews/id="
  const FEED_SUFFIX: string := "/sortBy=mostRecent/xml"

  /** The store an unset `config.store` resolves to: an app id with a dot is a
      Google Play package name, anything else an App Store id. */
  function StoreForAppId(appId: string): (store: string)
    ensures store == GOOGLE_PLAY <==> '.' in appId
    ensures store == APP_STORE <==> '.' !in appId
  {
    if IndexOf(appId, '.') > -1 then GOOGLE_PLAY else APP_STORE
  }

  /** The App Store customer-review feed of one app in one region. */
  function FeedUrl(region: string, appId: string): (url: string)
    ensures |url| == |FEED_PREFIX| + |region| + |FEED_MIDDLE| + |appId| + |FEED_SUFFIX|
    ensures url[..|FEED_PREFIX|] == FEED_PREFIX
    ensures url[|FEED_PREFIX|..|FEED_PREFIX| + |region|] == region
    ensures url[|FEED_PREFIX| + |region|..|FEED_PREFIX| + |region| + |FEED_MIDDLE|] == FEED_MIDDLE
    ensures url[|url| - |FEED_SUFFIX| - |appId|..|url| - |FEED_SUFFIX|] == appId
    ensures url[|url| - |FEED_SUFFIX|..] == FEED_SUFFIX
  {
    FEED_PREFIX + region + FEED_MIDDLE + appId + FEED_SUFFIX
  }

  /** The configuration rewrite at the head of `start`. The store is inferred only when
      unset; the region default and the feed URL apply only to the App Store branch,
      which is taken only when the store is exactly "app-store". */
  method ResolveSource(config: Config)
    requires Truthy(config.store) || config.appId.Some?
    modifies config
    ensures config.store == if Truthy(old(config.store)) then old(config.store)
                            else Some(StoreForAppId(config.appId.value))
    ensures config.store == Some(APP_STORE) ==>
              config.region == (if Truthy(old(config.region)) then old(config.region) else Some(DEFAULT_REGION)) &&
              config.feed == (if Truthy(old(config.feed)) then old(config.feed)
                              else Some(FeedUrl(config.region.value, Show(config.appId))))
    ensures config.store != Some(APP_STORE) ==>
              config.region == old(config.region) && config.feed == old(config.feed)
  {
    if !Truthy(config.store) {
      config.store := Some(StoreForAppId(config.appId.value));
    }
    if config.store == Some(APP_STORE) {
      if !Truthy(config.region) {
        config.region := Some(DEFAULT_REGION);
      }
      if !Truthy(config.feed) {
        config.feed := Some(FeedUrl(config.region.value, Show(config.appId)));
      }
    }
  }

  /** After resolution the store is always set; an explicit store is kept as given. */
  lemma ResolvedStoreIsSet(given: Option<string>, appId: string)
    ensures var store := if Truthy(given) then given else Some(StoreForAppId(appId));
            Truthy(store) && (Truthy(given) ==> store == given) &&
            (!Truthy(given) ==> (store == Some(GOOGLE_PLAY) <==> '.' in appId))
  {
  }

  /** Two concatenations that agree and split at the same length agree part by part. */
  lemma SplitAt(a: string, b: string, c: string, d: string)
    requires a + b == c + d && |a| == |c|
    ensures a == c && b == d
  {
    assert a == (a + b)[..|a|];
    assert c == (c + d)[..|c|];
    assert b == (a + b)[|a|..];
    assert d == (c + d)[|c|..];
  }

  /** When `r1 + t1 == r2 + t2` and `r1` is the shorter head, the first character of
      `t1` lies inside `r2`. */
  lemma DelimiterInsideLongerHead(r1: string, t1: string, r2: string, t2: string)
    requires r1 + t1 == r2 + t2 && |t1| > 0 && |r1| < |r2|
    ensures t1[0] in r2
  {
    assert r2[|r1|] == (r2 + t2)[|r1|] == (r1 + t1)[|r1|];
  }

  /** `p + r + m + a + s` determines `r` and `a` when `m` starts with a character that
      `r` never holds. */
  lemma DelimitedInjective(p: string, m: string, s: string, r1: string, a1: string, r2: string, a2: string)
    requires |m| > 0 && m[0] !in r1 && m[0] !in r2
    requires p + r1 + m + a1 + s == p + r2 + m + a2 + s
    ensures r1 == r2 && a1 == a2
  {
    var t1, t2 := m + a1 + s, m + a2 + s;
    assert p + (r1 + t1) == p + r1 + m + a1 + s;
    assert p + (r2 + t2) == p + r2 + m + a2 + s;
    SplitAt(p, r1 + t1, p, r2 + t2);
    if |r1| < |r2| {
      DelimiterInsideLongerHead(r1, t1, r2, t2);
      assert false;
    } else if |r2| < |r1| {
      DelimiterInsideLongerHead(r2, t2, r1, t1);
      assert false;
    }
    SplitAt(r1, t1, r2, t2);
    assert m + (a1 + s) == t1;
    assert m + (a2 + s) == t2;
    SplitAt(m, a1 + s, m, a2 + s);
    SplitAt(a1, s, a2, s);
  }

  /** A feed URL determines the region and the app id it was built from, as long as the
      region holds no slash. */
  lemma FeedUrlInjective(r1: string, a1: string, r2: string, a2: string)
    requires '/' !in r1 && '/' !in r2
    requires FeedUrl(r1, a1) == FeedUrl(r2, a2)
    ensures r1 == r2 && a1 == a2
  {
    assert FEED_MIDDLE[0] == '/';
    DelimitedInjective(FEED_PREFIX, FEED_MIDDLE, FEED_SUFFIX, r1, a1, r2, a2);
  }

  /** The test-suite scenario "resolves store to App Store", run through `ResolveSource`. */
  method ResolvesStoreToAppStore() returns (store: Option<string>)
    ensures store == Some(APP_STORE)
  {
    var config := new Config(Some("123"), None, None, None, None, None, None, None, None, None, false);
    assert '.' !in "123";
    ResolveSource(config);
    store := config.store;
  }

  /** The test-suite scenario "resolves store to Google Play", run through `ResolveSource`. */
  method ResolvesStoreToGooglePlay() returns (store: Option<string>)
    ensures store == Some(GOOGLE_PLAY)
  {
    var config := new Config(Some("com.google.play"), None, None, None, None, None, None, None, None, None, false);
    assert "com.google.play"[3] == '.';
    ResolveSource(config);
    store := config.store;
  }
}
