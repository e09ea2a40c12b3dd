/** Rendering of a review, and of the one-off welcome, as a Slack webhook message:
    `slackMessage` and `welcomeMessage`. */
module Slack {
  import opened Js
  import opened Entities

  const FILLED: char := '★'
  const EMPTY: char := '☆'
  const STAR_COUNT: nat := 5
  const REVIEW_MARKDOWN: seq<string> := ["text", "pretext", "title"]
  const WELCOME_MARKDOWN: seq<string> := ["pretext", "author_name"]
  const WELCOME_TEXT: string := "This channel will now receive "

  /** The glyph the star loop appends at position `i`. */
  function Glyph(rating: int, i: int): char
  {
    if i < rating then FILLED else EMPTY
  }

  /** The star string after the first `n` rounds of the loop in `slackMessage`. */
  function StarsUpTo(rating: int, n: nat): (s: string)
    ensures |s| == n
    ensures forall i :: 0 <= i < n ==> s[i] == Glyph(rating, i)
  {
    if n == 0 then "" else StarsUpTo(rating, n - 1) + [Glyph(rating, n - 1)]
  }

  /** The star string shown as the attachment's author name. */
  function Stars(rating: int): string
  {
    StarsUpTo(rating, STAR_COUNT)
  }

  /** How many of the five stars are filled: the rating, clamped to 0..5. */
  function FilledCount(rating: int): (k: nat)
    ensures k <= STAR_COUNT
  {
    if rating < 0 then 0 else if rating > STAR_COUNT then STAR_COUNT else rating
  }

  function Repeat(c: char, n: nat): (s: string)
    ensures |s| == n && forall i :: 0 <= i < n ==> s[i] == c
  {
    seq(n, _ => c)
  }

  /** Five glyphs, the filled ones first: a rating of -1 gives none, 2 gives two. */
  lemma StarsShape(rating: int)
    ensures Stars(rating) == Repeat(FILLED, FilledCount(rating)) + Repeat(EMPTY, STAR_COUNT - FilledCount(rating))
  {
    var k := FilledCount(rating);
    var expected := Repeat(FILLED, k) + Repeat(EMPTY, STAR_COUNT - k);
    forall i | 0 <= i < STAR_COUNT
      ensures Stars(rating)[i] == expected[i]
    {
      if i < k {
        assert expected[i] == FILLED;
      } else {
        assert expected[i] == EMPTY;
      }
    }
  }

  /** The attachment colour: good from 4, warning from 2, danger below. */
  function Color(rating: int): string
  {
    if rating >= 4 then "good" else if rating >= 2 then "warning" else "danger"
  }

  /** The colour agrees with the star string: good exactly when at least four stars are
      filled, danger exactly when fewer than two are. */
  lemma ColorAgreesWithStars(rating: int)
    ensures Color(rating) == "good" <==> FilledCount(rating) >= 4
    ensures Color(rating) == "warning" <==> 2 <= FilledCount(rating) < 4
    ensures Color(rating) == "danger" <==> FilledCount(rating) < 2
  {
  }

  /** "New review", then " for <name>" when either name is set, then "!". */
  function Pretext(config: Config, info: AppInfo): string
  {
    "New review"
      + (if config.appName.Some? || info.appName.Some? then " for " + Show(OrElse(config.appName, info.appName)) else "")
      + "!"
  }

  /** The app name a pretext announces, read back from the pretext. */
  function PretextName(pretext: string): Option<string>
  {
    if |pretext| >= 16 && pretext[..15] == "New review for " then Some(pretext[15..|pretext| - 1]) else None
  }

  /** The pretext names the configured app when that is set, else the discovered one, and
      names nothing when neither is known. */
  lemma PretextRoundTrip(config: Config, info: AppInfo)
    ensures PretextName(Pretext(config, info)) ==
              if config.appName.None? && info.appName.None? then None
              else if Truthy(config.appName) then config.appName
              else Some(Show(info.appName))
  {
    var p := Pretext(config, info);
    if config.appName.Some? || info.appName.Some? {
      var name := Show(OrElse(config.appName, info.appName));
      assert p == "New review for " + name + "!";
      assert p[..15] == "New review for ";
      assert p[15..|p| - 1] == name;
    } else {
      assert p == "New review!";
    }
  }

  /** The first line of a text. */
  function FirstLine(s: string): string
  {
    var i := IndexOf(s, '\n');
    if i < 0 then s else s[..i]
  }

  /** The message body: the review text, then "_by <author>", the date if any, a link to
      the store (or just its name), and a closing "_". */
  function BodyText(review: Review): string
  {
    Show(review.text) + "\n"
      + "_by " + Show(review.author)
      + (if Truthy(review.date) then ", " + review.date.value else "")
      + (if Truthy(review.link) then " - " + "<" + review.link.value + "|" + review.storeName + ">"
         else " - " + review.storeName)
      + "_"
  }

  /** A one-line review text is the first line of the body, and the body ends in "_". */
  lemma BodyTextFirstLine(review: Review)
    requires '\n' !in Show(review.text)
    ensures FirstLine(BodyText(review)) == Show(review.text)
    ensures BodyText(review)[|BodyText(review)| - 1] == '_'
  {
    var body := BodyText(review);
    var rest := body[|Show(review.text)| + 1..];
    assert body == Show(review.text) + ['\n'] + rest;
    IndexOfAfterPrefix(Show(review.text), '\n', rest);
  }

  /** The end of the body: with a truthy link, the store name is the label of that link;
      without one, the bare store name follows " - ". A truthy date comes just before
      that ending, after ", ". */
  lemma BodyTextEnding(review: Review)
    ensures var body := BodyText(review);
            var ending := if Truthy(review.link) then " - <" + review.link.value + "|" + review.storeName + ">_"
                          else " - " + review.storeName + "_";
            var dated := if Truthy(review.date) then ", " + review.date.value + ending else ending;
            |dated| <= |body| && body[|body| - |dated|..] == dated
  {
  }

  /** The plain-text fallback: pretext, title, stars and text. */
  function Fallback(pretext: string, review: Review, stars: string): string
  {
    pretext + ": " + Show(review.title) + " (" + stars + "): " + Show(review.text)
  }

  /** `slackMessage`: one attachment whose fields agree with each other and with the review. */
  function SlackMessage(review: Review, config: Config, info: AppInfo): (m: Message)
    ensures m.username == config.botUsername && m.iconUrl == config.botIcon && m.channel == config.channel
    ensures |m.attachments| == 1
    ensures var a := m.attachments[0];
            a.authorName == Some(Stars(review.rating)) && |a.authorName.value| == STAR_COUNT &&
            a.color == Some(Color(review.rating)) &&
            a.pretext == Pretext(config, info) &&
            a.fallback == a.pretext + ": " + Show(a.title) + " (" + a.authorName.value + "): " + Show(review.text) &&
            a.text == Some(BodyText(review)) &&
            a.title == review.title && a.titleLink == review.link &&
            a.authorIcon == OrElse(config.appIcon, info.appIcon) &&
            a.mrkdwnIn == REVIEW_MARKDOWN
  {
    var stars := Stars(review.rating);
    var pretext := Pretext(config, info);
    Message(
      username := config.botUsername,
      iconUrl := config.botIcon,
      channel := config.channel,
      attachments := [
        Attachment(
          mrkdwnIn := REVIEW_MARKDOWN,
          fallback := Fallback(pretext, review, stars),
          pretext := pretext,
          color := Some(Color(review.rating)),
          authorName := Some(stars),
          authorIcon := OrElse(config.appIcon, info.appIcon),
          title := review.title,
          titleLink := review.link,
          text := Some(BodyText(review)))])
  }

  /** The app name the welcome announces: configured, else discovered, else the app id. */
  function WelcomeAppName(config: Config, info: AppInfo): Option<string>
  {
    OrElse(config.appName, OrElse(info.appName, config.appId))
  }

  /** The store label of the welcome: "App Store" only for exactly "app-store". */
  function WelcomeStoreName(config: Config): (name: string)
    reads config
    ensures name == "App Store" <==> config.store == Some(APP_STORE)
    ensures name == "App Store" || name == "Google Play"
  {
    if config.store == Some(APP_STORE) then "App Store" else "Google Play"
  }

  /** `welcomeMessage`: the fallback is the pretext followed by the announced name, and
      that name follows the configured, discovered, app-id order. */
  function WelcomeMessage(config: Config, info: AppInfo): (m: Message)
    reads config
    ensures m.username == config.botUsername && m.iconUrl == config.botIcon && m.channel == config.channel
    ensures |m.attachments| == 1
    ensures var a := m.attachments[0];
            a.fallback == a.pretext + Show(a.authorName) &&
            a.pretext == WELCOME_TEXT + WelcomeStoreName(config) + " reviews for " &&
            (Truthy(config.appName) ==> a.authorName == config.appName) &&
            (!Truthy(config.appName) && Truthy(info.appName) ==> a.authorName == info.appName) &&
            (!Truthy(config.appName) && !Truthy(info.appName) ==> a.authorName == config.appId) &&
            a.color.None? && a.title.None? && a.titleLink.None? && a.text.None? &&
            a.authorIcon == OrElse(config.appIcon, info.appIcon) &&
            a.mrkdwnIn == WELCOME_MARKDOWN
  {
    var storeName := WelcomeStoreName(config);
    var appName := WelcomeAppName(config, info);
    Message(
      username := config.botUsername,
      iconUrl := config.botIcon,
      channel := config.channel,
      attachments := [
        Attachment(
          mrkdwnIn := WELCOME_MARKDOWN,
          fallback := WELCOME_TEXT + storeName + " reviews for " + Show(appName),
          pretext := WELCOME_TEXT + storeName + " reviews for ",
          color := None,
          authorName := appName,
          authorIcon := OrElse(config.appIcon, info.appIcon),
          title := None,
          titleLink := None,
          text := None)])
  }

  /** The test-suite review rated 2 renders as two filled and three empty stars. */
  lemma TwoStars()
    ensures Stars(2) == "★★☆☆☆"
  {
    StarsShape(2);
    assert Repeat(FILLED, 2) == "★★";
    assert Repeat(EMPTY, 3) == "☆☆☆";
  }

  /** The pretext of the test-suite case "generates Slack message from review". */
  lemma ExamplePretext(config: Config)
    requires config.appName == Some("the app name")
    ensures Pretext(config, AppInfo(None, None, None)) == "New review for the app name!"
  {
    assert Pretext(config, AppInfo(None, None, None)) == "New review" + " for " + "the app name" + "!";
  }

  /** The body of the test-suite case "generates Slack message from review". */
  lemma ExampleBody()
    ensures BodyText(Review(None, Some("the title"), Some("the text"), 2, None, Some("the author"),
                            Some("http://www.google.com"), "App Store"))
            == "the text\n_by the author - <http://www.google.com|App Store>_"
  {
    var review := Review(None, Some("the title"), Some("the text"), 2, None, Some("the author"),
                         Some("http://www.google.com"), "App Store");
    assert Truthy(review.link) && !Truthy(review.date);
    ExampleByline();
    ExampleLink();
    ExampleBodyEnd();
  }

  /** The pieces of that body, each in a lemma of its own so that no single proof
      unrolls the whole string. */
  lemma ExampleByline()
    ensures "the text" + "\n" + "_by " + "the author" == "the text\n_by the author"
  {
  }

  lemma ExampleLink()
    ensures " - " + "<" + "http://www.google.com" + "|" + "App Store" + ">" == " - <http://www.google.com|App Store>"
  {
  }

  lemma ExampleBodyEnd()
    ensures "the text\n_by the author" + "" + " - <http://www.google.com|App Store>" + "_"
            == "the text\n_by the author - <http://www.google.com|App Store>_"
  {
  }

  /** The fallback of the test-suite case "generates Slack message from review". */
  lemma ExampleFallback()
    ensures Fallback("New review for the app name!",
                     Review(None, Some("the title"), Some("the text"), 2, None, Some("the author"),
                            Some("http://www.google.com"), "App Store"),
                     "★★☆☆☆")
            == "New review for the app name!: the title (★★☆☆☆): the text"
  {
  }

  /** The test-suite case "generates Slack message from review". */
  lemma GeneratesSlackMessageFromReview(config: Config)
    requires config.appName == Some("the app name") && config.appIcon == Some("https://i.imgur.com/BoT.jpg")
    requires config.botUsername == Some("the bot's username") && config.botIcon == Some("http://i.imgur.com/asdF.jpg")
    requires config.channel == Some("#notestforthewicked")
    ensures var review := Review(None, Some("the title"), Some("the text"), 2, None, Some("the author"),
                                 Some("http://www.google.com"), "App Store");
            var a := SlackMessage(review, config, AppInfo(None, None, None)).attachments[0];
            a.mrkdwnIn == ["text", "pretext", "title"] &&
            a.fallback == "New review for the app name!: the title (★★☆☆☆): the text" &&
            a.pretext == "New review for the app name!" &&
            a.color == Some("warning") &&
            a.authorName == Some("★★☆☆☆") &&
            a.authorIcon == Some("https://i.imgur.com/BoT.jpg") &&
            a.title == Some("the title") && a.titleLink == Some("http://www.google.com") &&
            a.text == Some("the text\n_by the author - <http://www.google.com|App Store>_")
  {
    TwoStars();
    ExamplePretext(config);
    ExampleBody();
    ExampleFallback();
  }
}
