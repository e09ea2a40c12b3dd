/** The test-suite cases that drive the watcher's state, replayed against the model. */
module Scenarios {
  import opened Js
  import opened Entities
  import opened Ledger
  import opened AppMetadata
  import opened Watch
  import AppStoreItem

  /** A Google Play review that carries only an id, as in the test suite. */
  function IdOnly(id: string): Review
  {
    Review(Some(id), None, None, -1, None, None, None, "Google Play")
  }

  /** "marks review as published" and "does not mark other review as published": the
      ledger starts empty, holds one id after marking review 123, and knows 123 but not 456. */
  method MarksReviewAsPublished() returns (before: nat, after: nat, published: bool, otherPublished: bool)
    ensures before == 0 && after == 1
    ensures published && !otherPublished
  {
    var publisher := new Publisher();
    var review := Some(IdOnly("123"));
    var other := Some(IdOnly("456"));
    var ids := publisher.PublishedReviews();
    before := |ids|;
    publisher.MarkReviewAsPublished(review);
    ids := publisher.PublishedReviews();
    after := |ids|;
    published := publisher.ReviewPublished(review);
    otherPublished := publisher.ReviewPublished(other);
  }

  /** "recognizes new Google Play reviews": the first fetch [123, 456] is only marked,
      the second identical fetch posts nothing, and the third [123, 456, 789] posts
      exactly once. */
  method RecognizesNewGooglePlayReviews() returns (postsAfterStart: nat, postsAfterSecond: nat, postsAfterThird: nat, ledger: seq<string>)
    ensures postsAfterStart == 0 && postsAfterSecond == 0 && postsAfterThird == 1
    ensures ledger == ["789", "456", "123"]
  {
    var config := new Config(Some("com.mock.id"), Some(GOOGLE_PLAY), None, None, None, None, None, None, None, None, false);
    var info := new AppInformation();
    var publisher := new Publisher();
    var r123, r456, r789 := IdOnly("123"), IdOnly("456"), IdOnly("789");
    TestBatchesPostOnlyNewId(r123, r456, r789);
    publisher.OnInitialGooglePlayReviews(config, info, [r123, r456]);
    postsAfterStart := |publisher.outbox|;
    publisher.HandleFetchedGooglePlayReviews(config, info, [r123, r456]);
    postsAfterSecond := |publisher.outbox|;
    publisher.HandleFetchedGooglePlayReviews(config, info, [r123, r456, r789]);
    postsAfterThird := |publisher.outbox|;
    ledger := publisher.publishedReviews;
  }

  /** An App Store feed entry with the fields a review entry carries. */
  function ReviewEntry(id: string, rating: string, stamp: string): RssItem
  {
    RssItem(Some(id), Some("title"), Some("text"), Some("author"), Some(stamp), Some(rating), None, None, None)
  }

  /** The app's metadata entry of the test feed. */
  function MetadataEntry(stamp: string): RssItem
  {
    RssItem(Some("app"), None, None, None, Some(stamp), None, Some(Labelled(Some("Foo"))), None, None)
  }

  /** The first run over an App Store feed holding the app's metadata entry and two
      reviews, all stamped `stamp`, with debugging on: every entry's id is marked, and the only message is
      the welcome, which names the discovered app. */
  method WelcomesDiscoveredApp(stamp: string) returns (posts: nat, welcomeName: Option<string>, ledger: seq<string>)
    ensures posts == 1 && welcomeName == Some("Foo")
    ensures ledger == ["b", "a", "app"]
  {
    var config := new Config(Some("123"), Some(APP_STORE), Some("us"), None, None, None, None, None, None, None, true);
    var info := new AppInformation();
    var publisher := new Publisher();
    var entries := [MetadataEntry(stamp), ReviewEntry("a", "5", stamp), ReviewEntry("b", "1", stamp)];
    assert EntryKeys(entries) == [Some("app"), Some("a"), Some("b")];
    ThreeNewIds("app", "a", "b");
    assert UpdatedAll(config, entries, AppInfo(None, None, None)).appName == Some("Foo") by {
      LastMetadataEntryNamesTheApp(config, entries, AppInfo(None, None, None), 0);
      assert IsAppInformationEntry(entries[0]);
    }
    publisher.OnInitialEntries(config, info, None, Some(entries));
    posts := |publisher.outbox|;
    welcomeName := publisher.outbox[0].attachments[0].authorName;
    ledger := publisher.publishedReviews;
  }

  /** After that first run (debugging off), an entry seen at start-up is not posted
      again, and a new entry is posted once. */
  method PostsOnlyUnseenEntries(stamp: string) returns (postsAfterStart: nat, postsAfterSeen: nat, postsAfterNew: nat)
    ensures postsAfterStart == 0 && postsAfterSeen == 0 && postsAfterNew == 1
  {
    var config := new Config(Some("123"), Some(APP_STORE), Some("us"), None, None, None, None, None, None, None, false);
    var info := new AppInformation();
    var publisher := new Publisher();
    var entries := [MetadataEntry(stamp), ReviewEntry("a", "5", stamp), ReviewEntry("b", "1", stamp)];
    assert EntryKeys(entries) == [Some("app"), Some("a"), Some("b")];
    ThreeNewIds("app", "a", "b");
    publisher.OnInitialEntries(config, info, None, Some(entries));
    postsAfterStart := |publisher.outbox|;
    postsAfterSeen := FeedsSeenArticle(publisher, config, info, stamp);
    postsAfterNew := FeedsUnseenArticle(publisher, config, info, stamp);
  }

  /** Feeding `onNewArticle` an entry seen at start-up: nothing is posted and the
      ledger stays as it was. */
  method FeedsSeenArticle(publisher: Publisher, config: Config, info: AppInformation, stamp: string)
    returns (posts: nat)
    requires publisher.Valid() && publisher.publishedReviews == ["b", "a", "app"] && publisher.outbox == []
    requires config.store == Some(APP_STORE)
    modifies publisher, info
    ensures publisher.Valid() && publisher.publishedReviews == ["b", "a", "app"] && publisher.outbox == []
    ensures posts == 0
  {
    var a := ReviewEntry("a", "5", stamp);
    var review := AppStoreItem.ParseAppStoreReview(a, config, info.Value());
    assert review.id == Some("a");
    SingleReview(publisher.publishedReviews, review);
    publisher.OnNewArticle(config, info, Some(a));
    posts := |publisher.outbox|;
  }

  /** Feeding `onNewArticle` an entry not seen before: it is posted once. */
  method FeedsUnseenArticle(publisher: Publisher, config: Config, info: AppInformation, stamp: string)
    returns (posts: nat)
    requires publisher.Valid() && publisher.publishedReviews == ["b", "a", "app"] && publisher.outbox == []
    requires config.store == Some(APP_STORE)
    modifies publisher, info
    ensures posts == 1
  {
    var c := ReviewEntry("c", "3", stamp);
    var review := AppStoreItem.ParseAppStoreReview(c, config, info.Value());
    assert review.id == Some("c");
    SingleReview(publisher.publishedReviews, review);
    publisher.OnNewArticle(config, info, Some(c));
    posts := |publisher.outbox|;
  }
}
