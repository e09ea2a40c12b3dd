/** Normalisation of one App Store feed entry into the canonical review:
    `parseAppStoreReview`, `reviewRating` and the string part of `reviewDate`. */
module AppStoreItem {
  import opened Js
  import opened Entities

  const APP_STORE_NAME: string := "App Store"
  /** `reviewDate` keeps `YYYY-MM-DD HH:MM`, the first 16 characters. */
  const DATE_LENGTH: nat := 16

  predicate IsDigit(c: char)
  {
    '0' <= c <= '9'
  }

  /** The strings this model treats as numeric: one or more decimal digits. */
  predicate IsNumeric(s: string)
  {
    |s| > 0 && forall i :: 0 <= i < |s| ==> IsDigit(s[i])
  }

  /** The value `parseInt` gives a string of decimal digits. */
  function DecimalValue(s: string): nat
    requires forall i :: 0 <= i < |s| ==> IsDigit(s[i])
    decreases |s|
  {
    if s == [] then 0
    else
      assert IsDigit(s[|s| - 1]);
      DecimalValue(s[..|s| - 1]) * 10 + (s[|s| - 1] as int - '0' as int)
  }

  function DigitChar(d: nat): (c: char)
    requires d < 10
    ensures IsDigit(c) && c as int - '0' as int == d
  {
    ('0' as int + d) as char
  }

  /** The decimal digits of `n`, the inverse of `DecimalValue`. */
  function Decimal(n: nat): (s: string)
    ensures IsNumeric(s)
    decreases n
  {
    if n < 10 then [DigitChar(n)] else Decimal(n / 10) + [DigitChar(n % 10)]
  }

  lemma {:induction false} DecimalRoundTrip(n: nat)
    ensures DecimalValue(Decimal(n)) == n
    decreases n
  {
    var s := Decimal(n);
    if n < 10 {
      assert s[..|s| - 1] == [];
    } else {
      assert s[..|s| - 1] == Decimal(n / 10);
      DecimalRoundTrip(n / 10);
    }
  }

  /** `r != null && !isNaN(r) ? parseInt(r) : -1` on a string that may be absent. */
  function ParseRating(s: Option<string>): (r: int)
    ensures r >= -1
    ensures r >= 0 <==> s.Some? && IsNumeric(s.value)
  {
    if s.Some? && IsNumeric(s.value) then DecimalValue(s.value) else -1
  }

  /** The rating of the App Store entry whose `im:rating['#']` is the decimal text of `n` is `n`. */
  lemma RatingRoundTrip(n: nat)
    ensures ParseRating(Some(Decimal(n))) == n
  {
    DecimalRoundTrip(n);
  }

  /** `s.substr(0, n)`: the first `n` characters, or all of a shorter string. */
  function Take(s: string, n: nat): (r: string)
    ensures |r| == if |s| < n then |s| else n
    ensures r <= s
  {
    if |s| < n then s else s[..n]
  }

  /** `s.replace(from, to)` with a one-character pattern: only the first occurrence changes. */
  function ReplaceFirst(s: string, from: char, to: char): (r: string)
    ensures |r| == |s|
    ensures from !in s ==> r == s
    ensures forall j :: 0 <= j < |s| ==> r[j] == if j == IndexOf(s, from) then to else s[j]
  {
    var i := IndexOf(s, from);
    if i < 0 then s else s[..i] + [to] + s[i + 1..]
  }

  /** `iso.replace("T", " ").substr(0, 16)`. */
  function DisplayDate(iso: string): (d: string)
    ensures |d| == if |iso| < DATE_LENGTH then |iso| else DATE_LENGTH
    ensures forall j :: 0 <= j < |d| ==> d[j] == if j == IndexOf(iso, 'T') then ' ' else iso[j]
  {
    Take(ReplaceFirst(iso, 'T', ' '), DATE_LENGTH)
  }

  /** For an ISO timestamp `YYYY-MM-DDTHH:mm...` the display date is the day, a space,
      and the hours and minutes. */
  lemma DisplayDateOfTimestamp(day: string, time: string)
    requires |day| == 10 && 'T' !in day && |time| >= 5
    ensures DisplayDate(day + "T" + time) == day + " " + time[..5]
  {
    var iso := day + "T" + time;
    IndexOfAfterPrefix(day, 'T', time);
    assert iso[..10] == day && iso[11..] == time;
    assert ReplaceFirst(iso, 'T', ' ') == day + " " + time;
    assert (day + " " + time)[..16] == day + " " + time[..5];
  }

  /** What `parseAppStoreReview` needs of an entry so that neither `reviewDate` nor
      `reviewRating` throws: a date in the App Store branch, a title in the Google Play one. */
  predicate CanParse(item: RssItem, config: Config)
    reads config
  {
    (config.store == Some(APP_STORE) ==> item.date.Some?) &&
    (config.store == Some(GOOGLE_PLAY) ==> item.title.Some?)
  }

  /** `reviewRating`: the App Store reads `im:rating['#']`, Google Play the first
      character of the title, any other store has no rating. */
  function ReviewRating(item: RssItem, config: Config): (r: int)
    reads config
    requires CanParse(item, config)
    ensures r >= -1
    ensures config.store == Some(APP_STORE) ==> r == ParseRating(item.imRating)
    ensures config.store != Some(APP_STORE) && config.store != Some(GOOGLE_PLAY) ==> r == -1
  {
    if config.store == Some(APP_STORE) then ParseRating(item.imRating)
    else if config.store == Some(GOOGLE_PLAY) then ParseRating(Some(Take(item.title.value, 1)))
    else -1
  }

  /** `reviewDate`: only App Store dates are kept; Google Play's are unreliable. */
  function ReviewDate(item: RssItem, config: Config): (d: Option<string>)
    reads config
    requires CanParse(item, config)
    ensures d.Some? <==> config.store == Some(APP_STORE)
    ensures d.Some? ==> |d.value| <= DATE_LENGTH && d.value == DisplayDate(item.date.value)
  {
    if config.store == Some(APP_STORE) then Some(DisplayDate(item.date.value)) else None
  }

  /** `parseAppStoreReview`: copy the entry's own fields, derive rating and date, take the
      link from the configuration before the discovered metadata. */
  function ParseAppStoreReview(item: RssItem, config: Config, info: AppInfo): (r: Review)
    reads config
    requires CanParse(item, config)
    ensures r.id == item.id && r.title == item.title && r.text == item.description
    ensures r.author == item.author && r.storeName == APP_STORE_NAME
    ensures r.rating == ReviewRating(item, config) && r.date == ReviewDate(item, config)
    ensures Truthy(config.appLink) ==> r.link == config.appLink
    ensures !Truthy(config.appLink) ==> r.link == info.appLink
  {
    Review(
      id := item.id,
      title := item.title,
      text := item.description,
      rating := ReviewRating(item, config),
      date := ReviewDate(item, config),
      author := item.author,
      link := OrElse(config.appLink, info.appLink),
      storeName := APP_STORE_NAME)
  }

  /** The test-suite timestamp splits at its 'T' into a day and a time of day
      (a separate lemma keeps the string unrolling out of the caller's proof). */
  lemma TestTimestampSplits(iso: string, day: string, time: string)
    requires iso == "2016-09-14T12:58:00.000Z" && day == "2016-09-14" && time == "12:58:00.000Z"
    ensures |day| == 10 && 'T' !in day && |time| >= 5 && iso == day + "T" + time
  {
  }

  /** The day and the hours and minutes of that timestamp, joined by a space. */
  lemma TestTimestampJoins(day: string, time: string, shown: string)
    requires day == "2016-09-14" && time == "12:58:00.000Z" && shown == "2016-09-14 12:58"
    ensures day + " " + time[..5] == shown
  {
    assert time[..5] == "12:58";
  }

  /** The timestamp of the test-suite entry, 2016-09-14T05:58:00-07:00, as `toISOString` writes it. */
  lemma DisplaysTestTimestamp(iso: string)
    requires iso == "2016-09-14T12:58:00.000Z"
    ensures DisplayDate(iso) == "2016-09-14 12:58"
  {
    var day, time, shown := "2016-09-14", "12:58:00.000Z", "2016-09-14 12:58";
    TestTimestampSplits(iso, day, time);
    TestTimestampJoins(day, time, shown);
    DisplayDateOfTimestamp(day, time);
  }

  /** The test-suite entry "parses App Store RSS item": rating 3, that timestamp, and an
      explicit app link. */
  lemma ParsesAppStoreRssItem(config: Config, info: AppInfo)
    requires config.store == Some(APP_STORE) && config.appLink == Some("http://www.google.com")
    ensures var item := RssItem(Some("123"), Some("the title of the review"), Some("the text of the review"),
                                Some("the author"), Some("2016-09-14T12:58:00.000Z"), Some("3"),
                                None, None, None);
            ParseAppStoreReview(item, config, info) ==
              Review(Some("123"), Some("the title of the review"), Some("the text of the review"), 3,
                     Some("2016-09-14 12:58"), Some("the author"), Some("http://www.google.com"), "App Store")
  {
    assert Decimal(3) == "3";
    RatingRoundTrip(3);
    DisplaysTestTimestamp("2016-09-14T12:58:00.000Z");
  }
}
