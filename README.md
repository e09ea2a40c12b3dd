# reviews-to-slack, modelled in Dafny

reviews-to-slack watches the customer reviews of one mobile app, on the App Store
(through the iTunes customer-review RSS feed) or on Google Play (by polling and
scraping its review listing). It posts every review it has not seen before to a
Slack channel through an incoming webhook. Reviews that already exist when watching
starts are marked as seen without being posted. An optional welcome message
announces the start.

This project models the core of `index.js`:

- the resolution of the configuration at the head of `start`: the store, the
  region and the feed URL;
- the normalisation of an App Store feed entry into the canonical review, with
  its rating and date;
- the merge of the app metadata that the feed carries in a special entry;
- the rendering of a review, and of the welcome, as a Slack message;
- the published-reviews ledger, that is the module-level `published_reviews`
  array and the functions that read and write it;
- the callbacks that drive the ledger and the posting: the per-item
  `onNewArticle`, the initial `run` pass over the feed, the first Google Play
  callback and `handleFetchedGooglePlayReviews`.

The modules follow the program's components:

| file | module | what it holds |
|---|---|---|
| `js.dfy` | `Js` | `undefined` as `Option.None`, JavaScript truthiness, string concatenation of `undefined`, `a ? a : b`, `indexOf` |
| `entities.dfy` | `Entities` | the configuration (a class: `start` rewrites `store`, `region` and `feed`), feed entries, reviews, Slack messages |
| `settings.dfy` | `Settings` | store inference, the region default and the feed URL |
| `app_store_item.dfy` | `AppStoreItem` | `parseAppStoreReview`, `reviewRating`, the string part of `reviewDate` |
| `app_metadata.dfy` | `AppMetadata` | the `appInformation` object (a class) with `isAppInformationEntry` and `updateAppInformation` |
| `slack.dfy` | `Slack` | `slackMessage` and `welcomeMessage` |
| `ledger.dfy` | `Ledger` | the ledger as values: marking, membership, and what a batch handled in order posts and leaves behind |
| `watch.dfy` | `Watch` | the `Publisher` class, which holds the ledger and an outbox of posted messages, with the ledger functions and the callbacks |
| `scenarios.dfy` | `Scenarios` | the test-suite cases that drive the state, replayed against the `Publisher` |

`postToSlack` appends the message to the `Publisher`'s `outbox` instead of calling
the webhook. Each callback is a method of `Publisher` that does, for one item or
one batch, what the callback does to the ledger, the app information and the
outbox. The imperative methods are proved against specification functions of the
`Ledger` module:

- `Marked`: the ledger after marking one id;
- `LedgerAfter`: the ledger after marking each id of a list in turn;
- `Posted`: the reviews a batch posts.

The lemmas beside those functions state what the program promises. A batch posts
exactly its fresh reviews: those with no id, or whose id is neither in the ledger
nor carried by an earlier review of the batch. A review without an id is posted
every time, even when it repeats. Reviews already seen post nothing. No id is posted twice.
The new ledger is the ids of the posted reviews, newest first, in front of the old
ledger.

### The ledger's capacity: the code does not enforce it

The code declares `REVIEWS_LIMIT = 50` (`index.js:21`), and `markReviewAsPublished`
tries to drop an old id once the ledger reaches that size (`index.js:206-207`). So
the evident intent is a ledger of at most 50 ids that evicts the oldest one. The
attempt never takes effect. Its guard
(`index.js:206`) reads `published_reviews.count`, which a JavaScript array does not
have. Comparing `undefined >= 50` is false, so the guard never fires and the ledger
only grows.

The model follows the code. `Watch.Publisher.MarkReviewAsPublished` keeps the
guard, but the guard is inert (`Watch.GuardedAsWritten`). `Ledger.LedgerExceedsLimit`
proves that 51 distinct ids leave 51 ids in the ledger.

The intended behaviour is modelled beside it and is not used by the callbacks:

- `Ledger.MarkedBounded`;
- `Watch.Publisher.MarkReviewAsPublishedBounded`.

Even if the guard fired, `pop` would drop one element whatever its argument.

## Model

| member | source | states |
|---|---|---|
| `Js.IndexOf` | index.js:214 | `indexOf`: -1 exactly when the element is absent, otherwise the first position holding it |
| `Settings.StoreForAppId` | index.js:28-31 | an unset store resolves to "google-play" exactly when the app id contains a dot, and to "app-store" exactly when it does not |
| `Settings.ResolveSource` | index.js:28-42 | a truthy store is kept, and an unset one is inferred from the app id. In the App Store branch only, a falsy region becomes "us" and a falsy feed becomes the iTunes URL built from the region and app id. Any other store leaves region and feed untouched |
| `Settings.FeedUrl` | index.js:41 | the URL is, in order, the iTunes prefix, the region, "/rss/customerreviews/id=", the app id and the sort-order suffix; its length is the sum of those parts |
| `Settings.ResolvedStoreIsSet` | index.js:28-31 | after resolution the store is always truthy; an explicit store is kept as given |
| `Settings.FeedUrlInjective` | index.js:41 | the feed URL determines the region and app id it was built from (for a region without a slash) |
| `Settings.ResolvesStoreToAppStore` | index.spec.js:63-73 | app id "123" resolves to "app-store" |
| `Settings.ResolvesStoreToGooglePlay` | index.spec.js:75-84 | app id "com.google.play" resolves to "google-play" |
| `AppStoreItem.ParseRating` | index.js:344 | the rating is non-negative exactly when the text is present and numeric, and is -1 otherwise |
| `AppStoreItem.RatingRoundTrip` | index.js:344 | the decimal text of any natural number `n` parses back to `n` |
| `AppStoreItem.DisplayDate` | index.js:355 | at most 16 characters; each is the timestamp's own character, except that the first "T" becomes a space |
| `AppStoreItem.ReplaceFirst` | index.js:355 | `replace` with a one-character pattern changes only the first occurrence, keeps the length, and is the identity when the pattern is absent |
| `AppStoreItem.DisplayDateOfTimestamp` | index.js:355 | for `YYYY-MM-DD` + "T" + a time, the display date is the day, a space, and `HH:MM` |
| `AppStoreItem.ReviewRating` | index.js:342-351 | App Store reads `im:rating['#']`; any store other than App Store and Google Play gives -1; never below -1 |
| `AppStoreItem.ReviewDate` | index.js:353-361 | a date exists exactly for the App Store. It is the display form of the entry's ISO timestamp and has at most 16 characters |
| `AppStoreItem.ParseAppStoreReview` | index.js:251-264 | id, title, text and author are copied; the store name is "App Store"; rating and date are derived; the link is the configured app link when truthy, else the discovered one |
| `AppStoreItem.DisplaysTestTimestamp` | index.spec.js:92-110 | "2016-09-14T12:58:00.000Z" displays as "2016-09-14 12:58" |
| `AppStoreItem.ParsesAppStoreRssItem` | index.spec.js:86-114 | the test entry parses to the expected review: rating 3, that date, the configured link |
| `AppMetadata.AppInformation.constructor` | index.js:33 | the app information starts empty |
| `AppMetadata.Updated` | index.js:227-249 | no change for an entry without `im:name`. A field whose config counterpart is set is never written. Otherwise each field is kept or taken from its own source: name from `im:name`, icon from the first element of a non-empty `im:image`, link from a truthy `link`. A metadata entry does write each field that the configuration leaves null and the entry supplies |
| `AppMetadata.IsAppInformationEntry` | index.js:227-230 | an entry is app information exactly when it carries `im:name` |
| `AppMetadata.UpdateAppInformation` | index.js:232-249 | writes the fields of the `appInformation` object in place to exactly `Updated` of the old value |
| `AppMetadata.NoMetadataKeepsInfo` | index.js:233 | a sequence of entries none of which is a metadata entry leaves the app information as it was |
| `AppMetadata.LastMetadataEntryNamesTheApp` | index.js:235-238 | with no configured name, the app is named by the last metadata entry in the sequence (no "first wins") |
| `AppMetadata.LastImageGivesTheIcon` | index.js:240-243 | with no configured icon, the icon is the first image of the last metadata entry that has a non-empty `im:image` |
| `AppMetadata.LastLinkGivesTheLink` | index.js:245-248 | with no configured link, the link is the one of the last metadata entry whose `link` is truthy |
| `AppMetadata.ConfigurationPrevails` | index.js:235-248 | configured name, icon and link survive any sequence of entries |
| `Slack.StarsUpTo` | index.js:271-274 | the star loop's string after `n` rounds has length `n`; glyph `i` is filled exactly when `i < rating` |
| `Slack.StarsShape` | index.js:271-274 | the five stars are the filled ones, as many as the rating clamped to 0..5, followed by the empty ones |
| `Slack.ColorAgreesWithStars` | index.js:282 | good exactly when at least four stars are filled, warning for two or three, danger below two |
| `Slack.PretextRoundTrip` | index.js:276-280 | the pretext names the configured app name when truthy, else the discovered one, and names nothing when neither is set |
| `Slack.BodyTextFirstLine` | index.js:284-295 | for a one-line review text, the body's first line is the text, and the body ends with "_" |
| `Slack.BodyTextEnding` | index.js:287-295 | with a truthy link the body ends in " - ", a Slack link to it labelled with the store name, and "_"; without one it ends in " - ", the store name and "_". A truthy date comes just before that ending, after ", " |
| `Slack.SlackMessage` | index.js:268-321 | one attachment. Its author name is the five-star string and its colour follows the rating. The fallback is pretext, title, stars and text. The body, title, title link and icon come from the review and the configuration-before-discovery choice. The markdown fields are text, pretext and title. Bot name, icon and channel come from the configuration |
| `Slack.WelcomeStoreName` | index.js:324 | "App Store" exactly for the store "app-store", "Google Play" for anything else |
| `Slack.WelcomeMessage` | index.js:323-340 | the fallback is the pretext followed by the announced name. The name is the configured one, else the discovered one, else the app id. The icon is the configured one, else the discovered one. The markdown fields are pretext and author name. There is no colour, title or text |
| `Slack.TwoStars` | index.spec.js:148 | a rating of 2 renders as ★★☆☆☆ |
| `Slack.GeneratesSlackMessageFromReview` | index.spec.js:116-155 | the test review renders to the expected attachment: markdown fields, fallback, pretext, colour, stars, icon, title, link and body |
| `Ledger.Marked` | index.js:203-210 | a truthy id is published afterwards. Membership grows by that id alone. Length grows by one exactly for a new truthy id. A well-formed ledger stays well formed |
| `Ledger.MarkedPublishesOnlyItsId` | index.spec.js:50-61 | marking one id publishes it and no other unpublished id |
| `Ledger.LedgerAfterMembership` | index.js:203-210 | an id is in the ledger after a sequence of marks exactly when it was before, or some mark carried it (and it is non-empty) |
| `Ledger.PostedAreFresh` | index.js:131-142 | the batch loop posts exactly the reviews with no id, or whose id is neither in the ledger nor carried by an earlier review of the batch, in order |
| `Ledger.LedgerAfterIsPostedIds` | index.js:131-142 | the ledger after a batch is the ids of the posted reviews, newest first, in front of the old ledger |
| `Ledger.SeenBatchPostsNothing` | index.js:134-136 | a batch whose every id is already published posts nothing and leaves the ledger unchanged |
| `Ledger.PostedFromBatch` | index.js:131-142 | every posted review comes from the batch |
| `Ledger.PostedAreUnseen` | index.js:134-136 | no posted review carries an id the ledger already held |
| `Ledger.PostedOncePerId` | index.js:131-142 | no id is posted twice, even when the batch repeats it |
| `Ledger.LedgerAfterConcat` | index.js:116-118 | two batches in a row leave the same ledger as the two run as one |
| `Ledger.LedgerAfterWellFormed` | index.js:203-210 | marking keeps the ledger free of empty and duplicate ids |
| `Ledger.LedgerGrowsByNewIds` | index.js:206-209 | marking distinct new truthy ids grows the ledger by one per id |
| `Ledger.LedgerExceedsLimit` | index.js:206-209 | as written, 51 distinct ids leave exactly 51 ids in the ledger, one more than `REVIEWS_LIMIT` |
| `Ledger.MarkedBounded` | index.js:206-209 | the intended marking: a ledger of at most 50 ids stays so, the new id goes to the front, and the oldest id is dropped when full |
| `Ledger.TestBatchesPostOnlyNewId` | index.spec.js:157-222 | for any three distinct ids: after the first two are marked, the same batch posts nothing, and adding the third posts only the third |
| `Watch.SlackMessagesAt` | index.js:138-139 | the messages of a list of reviews are their renderings, position by position |
| `Watch.GuardedAsWritten` | index.js:206-208 | the capacity guard as written never fires: the ledger is returned unchanged |
| `Watch.Publisher.constructor` | index.js:24 | the ledger starts empty (and the outbox too) |
| `Watch.Publisher.ReviewPublished` | index.js:212-215 | true exactly when the review and its id are truthy and the id is in the ledger |
| `Watch.Publisher.MarkReviewAsPublished` | index.js:203-210 | the ledger becomes `Marked` of the old ledger and the review's id; the outbox is untouched; the ledger stays well formed |
| `Watch.Publisher.MarkReviewAsPublishedBounded` | index.js:206-209 | the intended marking: the ledger becomes `MarkedBounded` of the old one and never holds more than 50 ids |
| `Watch.Publisher.PublishedReviews` | index.js:217-219 | returns the ledger, which holds no empty id and no id twice |
| `Watch.Publisher.ResetPublishedReviews` | index.js:221-223 | the ledger is empty and the empty ledger is returned |
| `Watch.Publisher.PostToSlack` | index.js:363-373 | the message is appended to the outbox; the ledger is untouched |
| `Watch.Publisher.PostUnlessPublished` | index.js:133-140 | an unpublished review is rendered, posted and marked; a published one changes nothing |
| `Watch.Publisher.HandleFetchedGooglePlayReviews` | index.js:131-142 | the new ledger is `LedgerAfter` the batch's ids; the outbox gains the renderings of `Posted` of the batch, in order |
| `Watch.Publisher.OnNewArticle` | index.js:53-75 | a missing item changes nothing; a metadata entry only updates the app information; any other entry is parsed, then posted and marked exactly when its id is unseen |
| `Watch.Publisher.OnInitialEntries` | index.js:81-103 | on error, or when `entries` is null, nothing changes. An empty list still posts the welcome when debugging. Otherwise every entry's id is marked, the app information becomes `UpdatedAll` of the entries, and the outbox gains only the welcome, when debugging |
| `Watch.Publisher.OnInitialGooglePlayReviews` | index.js:105-126 | every initial review's id is marked and nothing is posted but the welcome, when debugging |
| `Scenarios.MarksReviewAsPublished` | index.spec.js:32-61 | the ledger goes from 0 to 1 id; review 123 is published and 456 is not |
| `Scenarios.RecognizesNewGooglePlayReviews` | index.spec.js:157-222 | start-up, the same batch again, then the batch with 789 post 0, 0 and 1 messages; the ledger ends as 789, 456, 123 |
| `Scenarios.WelcomesDiscoveredApp` | index.js:81-103 | a first App Store run over a metadata entry and two reviews posts only the welcome, naming the discovered app, and marks all three ids |
| `Scenarios.PostsOnlyUnseenEntries` | index.js:53-103 | after that first run an entry seen at start-up posts nothing and a new entry posts once |
| `Scenarios.FeedsSeenArticle` | index.js:53-75 | with the ledger of that first run, an entry it saw posts nothing and leaves the ledger as it was |
| `Scenarios.FeedsUnseenArticle` | index.js:53-75 | with the ledger of that first run, an entry it did not see posts exactly one message |

## Left out

- HTTP: the Google Play request and the webhook call are not modelled (index.js:144-199, 363-373). Posting is appending to the `Publisher`'s outbox.
- The scraping of the Google Play response is not modelled: the cheerio selectors, `JSON.parse` of the prefixed body, and the missing `return` after `callback([])` (index.js:159-191). These are calls into foreign libraries. Google Play reviews enter the model as already-built `Review` values.
- The Google Play `/ 20` rating division (index.js:185) produces floating-point numbers and is left out.
- rss-watcher and timers are not modelled: event subscription, `watcher.run`, `setInterval` and the interval setting (index.js:47-52, 77-79, 111-119). Each callback is a method applied to one item or one batch. A scenario chains the calls the timer would make.
- Logging and debug output are left out, including the call `reviewPublished(config, review)` at index.js:72. It only decides whether a log line is printed and changes no state.
- `Date.toISOString` is not modelled: an App Store entry's `date` is taken as the ISO string it produces. A missing date makes `reviewDate` throw, so `AppStoreItem.CanParse` requires one in the App Store branch. It also requires a title in the Google Play branch.
- `null` and `undefined` are both `None`. The code's `== null` checks therefore read as `None?`, and its truthiness checks as `Truthy`.
- `AppStoreItem.ReviewRating`: a rating text counts as numeric only when it is one or more decimal digits. `isNaN` and `parseInt` also accept signs, surrounding whitespace, exponents, fractions ("3.5" reads as 3) and hexadecimal ("0x1A" reads as 26), and turn an empty string into 0 or NaN; none of that, nor any other text `parseInt` reads, is modelled. The Google Play branch (first character of the title) has no contract beyond the lower bound of -1.
- `Settings.ResolveSource`: when the store is unset the app id must be present, because the code would throw otherwise. The "setting feed directly is deprecated" message is not modelled.
- `Watch.Publisher.PublishedReviews`: the source returns the live `published_reviews` array, so a caller could change the ledger through it. The model returns the ids as a value, so that aliasing is not captured.
- `Watch.Publisher.OnNewArticle`: the global `review` and `message` variables the handler assigns are not part of the state.
- Concurrency is not modelled. Callbacks run one at a time, in the order a scenario calls them.
