/** The watcher's mutable state and the code that drives it: the module-level
    `published_reviews` array with `markReviewAsPublished`, `reviewPublished`,
    `publishedReviews` and `resetPublishedReviews`; `postToSlack`, which here appends
    to an outbox instead of calling the webhook; and the callbacks `start` registers
    (`onNewArticle`, the `run` callback over the initial feed, the initial Google Play
    callback) together with `handleFetchedGooglePlayReviews`. */
module Watch {
  import opened Js
  import opened Entities
  import opened Ledger
  import opened AppStoreItem
  import opened AppMetadata
  import opened Slack

  /** The Slack messages for a list of reviews, in order. */
  function SlackMessages(reviews: seq<Review>, config: Config, info: AppInfo): (ms: seq<Message>)
    ensures |ms| == |reviews|
    decreases |reviews|
  {
    if reviews == [] then [] else SlackMessages(Init(reviews), config, info) + [SlackMessage(Last(reviews), config, info)]
  }

  /** The `i`-th message is the rendering of the `i`-th review. */
  lemma {:induction false} SlackMessagesAt(reviews: seq<Review>, config: Config, info: AppInfo)
    ensures forall i :: 0 <= i < |reviews| ==> SlackMessages(reviews, config, info)[i] == SlackMessage(reviews[i], config, info)
    decreases |reviews|
  {
    if reviews != [] {
      SlackMessagesAt(Init(reviews), config, info);
    }
  }

  /** The ids of a list of feed entries, in order. */
  function EntryKeys(entries: seq<RssItem>): (ks: seq<Option<string>>)
    ensures |ks| == |entries|
    ensures forall i :: 0 <= i < |entries| ==> ks[i] == entries[i].id
    decreases |entries|
  {
    if entries == [] then [] else EntryKeys(Init(entries)) + [Last(entries).id]
  }

  /** `published_reviews.count`: a JavaScript array has no `count` property, so the
      capacity guard of `markReviewAsPublished` compares `undefined` and never holds. */
  function CountProperty(ids: seq<string>): Option<int>
  {
    None
  }

  /** JavaScript's `a >= b` when `a` may be `undefined`: a comparison with `undefined`
      is false. */
  predicate AtLeast(a: Option<int>, b: int)
  {
    match a
    case None => false
    case Some(v) => v >= b
  }

  /** `published_reviews.pop(...)`: `pop` ignores its argument and drops the last id. */
  function Pop(ids: seq<string>): (r: seq<string>)
    ensures ids != [] ==> r == ids[..|ids| - 1]
  {
    if ids == [] then [] else ids[..|ids| - 1]
  }

  /** The ledger after the capacity guard of `markReviewAsPublished` as written: the
      guard never fires, so nothing is evicted. */
  function GuardedAsWritten(ids: seq<string>): (r: seq<string>)
    ensures r == ids
  {
    if AtLeast(CountProperty(ids), REVIEWS_LIMIT) then Pop(ids) else ids
  }

  /** Appending a review appends its message. */
  lemma SlackMessagesAppend(reviews: seq<Review>, review: Review, config: Config, info: AppInfo)
    ensures SlackMessages(reviews + [review], config, info) == SlackMessages(reviews, config, info) + [SlackMessage(review, config, info)]
  {
    assert Init(reviews + [review]) == reviews;
  }

  /** A batch of one review yields its message exactly when its id is unseen. */
  lemma SingleReviewMessage(ids: seq<string>, review: Review, config: Config, info: AppInfo)
    ensures SlackMessages(Posted(ids, [review]), config, info) ==
              if IsPublished(ids, review.id) then [] else [SlackMessage(review, config, info)]
  {
    SingleReview(ids, review);
    SlackMessagesAppend([], review, config, info);
    assert [] + [review] == [review];
  }

  /** One more review of a batch: its message follows the earlier ones exactly when it
      is posted. */
  lemma PostedMessagesStep(ids: seq<string>, batch: seq<Review>, n: nat, config: Config, info: AppInfo)
    requires n < |batch|
    ensures SlackMessages(Posted(ids, batch[..n + 1]), config, info) ==
              SlackMessages(Posted(ids, batch[..n]), config, info) +
                (if IsPublished(LedgerAfter(ids, Keys(batch[..n])), batch[n].id) then [] else [SlackMessage(batch[n], config, info)])
  {
    BatchStep(ids, batch, n);
    var posted := Posted(ids, batch[..n]);
    if IsPublished(LedgerAfter(ids, Keys(batch[..n])), batch[n].id) {
      assert posted + [] == posted;
    } else {
      SlackMessagesAppend(posted, batch[n], config, info);
    }
  }

  /** The state the loop of `handleFetchedGooglePlayReviews` has reached after `n`
      reviews, starting from ledger `ids` and outbox `sent`. */
  predicate HandledUpTo(ids: seq<string>, sent: seq<Message>, reviews: seq<Review>, n: nat,
                        config: Config, info: AppInfo, ledger: seq<string>, outbox: seq<Message>)
    requires n <= |reviews|
  {
    ledger == LedgerAfter(ids, Keys(reviews[..n])) &&
    outbox == sent + SlackMessages(Posted(ids, reviews[..n]), config, info)
  }

  /** Handling review `n` the way the loop does moves the state from `n` to `n + 1`. */
  lemma HandledStep(ids: seq<string>, sent: seq<Message>, reviews: seq<Review>, n: nat, config: Config, info: AppInfo,
                    ledger: seq<string>, outbox: seq<Message>, ledger': seq<string>, outbox': seq<Message>)
    requires n < |reviews|
    requires HandledUpTo(ids, sent, reviews, n, config, info, ledger, outbox)
    requires ledger' == Marked(ledger, reviews[n].id)
    requires outbox' == outbox + (if IsPublished(ledger, reviews[n].id) then [] else [SlackMessage(reviews[n], config, info)])
    ensures HandledUpTo(ids, sent, reviews, n + 1, config, info, ledger', outbox')
  {
    LedgerStep(ids, reviews, n);
    PostedMessagesStep(ids, reviews, n, config, info);
    var earlier := SlackMessages(Posted(ids, reviews[..n]), config, info);
    var extra := if IsPublished(ledger, reviews[n].id) then [] else [SlackMessage(reviews[n], config, info)];
    AppendAssociates(sent, earlier, extra);
  }

  /** The module-level state: `published_reviews` is one array for the whole process,
      shared by every app that `start` watches, and the outbox stands for the webhook. */
  class Publisher {
    /** `published_reviews`: the ids already seen, the most recent first. */
    var publishedReviews: seq<string>
    /** Every message handed to `postToSlack`, oldest first. */
    var outbox: seq<Message>

    /** The ledger holds no empty id and no id twice: every method keeps this, and
        `PublishedReviews` hands it on to its caller. */
    ghost predicate Valid()
      reads this
    {
      WellFormed(publishedReviews)
    }

    constructor ()
      ensures Valid() && publishedReviews == [] && outbox == []
    {
      publishedReviews := [];
      outbox := [];
    }

    /** `reviewPublished`: false for a missing review or a falsy id, else whether the id
        is in the ledger. */
    method ReviewPublished(review: Option<Review>) returns (published: bool)
      ensures published == IsPublished(publishedReviews, KeyOf(review))
    {
      var key := KeyOf(review);
      if !Truthy(key) {
        return false;
      }
      published := IndexOf(publishedReviews, key.value) >= 0;
    }

    /** `markReviewAsPublished`: puts a new truthy id at the front of the ledger. */
    method MarkReviewAsPublished(review: Option<Review>)
      requires Valid()
      modifies this
      ensures Valid()
      ensures publishedReviews == Marked(old(publishedReviews), KeyOf(review))
      ensures outbox == old(outbox)
    {
      var key := KeyOf(review);
      if !Truthy(key) {
        return;
      }
      var published := ReviewPublished(review);
      if published {
        return;
      }
      publishedReviews := [key.value] + GuardedAsWritten(publishedReviews);
    }

    /** The intended `markReviewAsPublished`: once `REVIEWS_LIMIT` ids are kept, the
        oldest is dropped before the new id goes to the front. */
    method MarkReviewAsPublishedBounded(review: Option<Review>)
      requires Valid() && |publishedReviews| <= REVIEWS_LIMIT
      modifies this
      ensures Valid() && |publishedReviews| <= REVIEWS_LIMIT
      ensures publishedReviews == MarkedBounded(old(publishedReviews), KeyOf(review))
      ensures outbox == old(outbox)
    {
      var key := KeyOf(review);
      if !Truthy(key) {
        return;
      }
      var published := ReviewPublished(review);
      if published {
        return;
      }
      if |publishedReviews| >= REVIEWS_LIMIT {
        publishedReviews := Pop(publishedReviews);
      }
      publishedReviews := [key.value] + publishedReviews;
    }

    /** `publishedReviews`. */
    method PublishedReviews() returns (ids: seq<string>)
      requires Valid()
      ensures ids == publishedReviews
      ensures "" !in ids && forall i, j :: 0 <= i < j < |ids| ==> ids[i] != ids[j]
    {
      ids := publishedReviews;
    }

    /** `resetPublishedReviews`: empties the ledger and returns the new, empty one. */
    method ResetPublishedReviews() returns (ids: seq<string>)
      modifies this
      ensures Valid() && ids == [] && publishedReviews == []
      ensures outbox == old(outbox)
    {
      publishedReviews := [];
      ids := publishedReviews;
    }

    /** `postToSlack`: the message is delivered, in order. */
    method PostToSlack(message: Message)
      modifies this
      ensures outbox == old(outbox) + [message]
      ensures publishedReviews == old(publishedReviews)
    {
      outbox := outbox + [message];
    }

    /** `handleFetchedGooglePlayReviews`: post every review not yet in the ledger, in
        order, marking each one as it is posted. */
    method HandleFetchedGooglePlayReviews(config: Config, info: AppInformation, reviews: seq<Review>)
      requires Valid()
      modifies this
      ensures Valid()
      ensures publishedReviews == LedgerAfter(old(publishedReviews), Keys(reviews))
      ensures outbox == old(outbox) + SlackMessages(Posted(old(publishedReviews), reviews), config, info.Value())
    {
      var appInfo := info.Value();
      ghost var ids := publishedReviews;
      ghost var sent := outbox;
      var n := 0;
      assert reviews[..n] == [] && sent + [] == sent;
      while n < |reviews|
        invariant 0 <= n <= |reviews|
        invariant Valid()
        invariant HandledUpTo(ids, sent, reviews, n, config, appInfo, publishedReviews, outbox)
      {
        ghost var ledger, box := publishedReviews, outbox;
        PostUnlessPublished(reviews[n], config, appInfo);
        HandledStep(ids, sent, reviews, n, config, appInfo, ledger, box, publishedReviews, outbox);
        n := n + 1;
      }
      assert reviews[..n] == reviews;
    }

    /** The body of the loop in `handleFetchedGooglePlayReviews`: a review whose id is not
        in the ledger is posted and then marked. */
    method PostUnlessPublished(review: Review, config: Config, info: AppInfo)
      requires Valid()
      modifies this
      ensures Valid()
      ensures publishedReviews == Marked(old(publishedReviews), review.id)
      ensures outbox == old(outbox) + (if IsPublished(old(publishedReviews), review.id) then [] else [SlackMessage(review, config, info)])
    {
      var published := ReviewPublished(Some(review));
      if !published {
        var message := SlackMessage(review, config, info);
        PostToSlack(message);
        MarkReviewAsPublished(Some(review));
      }
    }

    /** `onNewArticle`: a missing item is ignored, a metadata entry updates the app
        information, and any other entry is posted unless its id was already seen. */
    method OnNewArticle(config: Config, info: AppInformation, item: Option<RssItem>)
      requires Valid()
      requires item.Some? && !IsAppInformationEntry(item.value) ==> CanParse(item.value, config)
      modifies this, info
      ensures Valid()
      ensures item.None? ==>
                publishedReviews == old(publishedReviews) && outbox == old(outbox) && info.Value() == old(info.Value())
      ensures item.Some? && IsAppInformationEntry(item.value) ==>
                publishedReviews == old(publishedReviews) && outbox == old(outbox) &&
                info.Value() == Updated(config, item.value, old(info.Value()))
      ensures item.Some? && !IsAppInformationEntry(item.value) ==>
                var review := ParseAppStoreReview(item.value, config, old(info.Value()));
                info.Value() == old(info.Value()) &&
                publishedReviews == LedgerAfter(old(publishedReviews), [review.id]) &&
                outbox == old(outbox) + SlackMessages(Posted(old(publishedReviews), [review]), config, info.Value())
    {
      if item.None? {
        return;
      }
      if IsAppInformationEntry(item.value) {
        UpdateAppInformation(config, item.value, info);
        return;
      }
      var appInfo := info.Value();
      var review := ParseAppStoreReview(item.value, config, appInfo);
      SingleReview(publishedReviews, review);
      SingleReviewMessage(publishedReviews, review, config, appInfo);
      PostUnlessPublished(review, config, appInfo);
    }

    /** The `run` callback over the feed's current entries: every entry's id is marked
        as seen without posting, metadata entries fill in the app information, and a
        welcome message follows when debugging. A failed fetch or an empty feed changes
        nothing. */
    method OnInitialEntries(config: Config, info: AppInformation, error: Option<string>, entries: Option<seq<RssItem>>)
      requires Valid()
      requires error.None? && entries.Some? ==>
                 forall k :: 0 <= k < |entries.value| ==> CanParse(entries.value[k], config)
      modifies this, info
      ensures Valid()
      ensures error.Some? || entries.None? ==>
                publishedReviews == old(publishedReviews) && outbox == old(outbox) && info.Value() == old(info.Value())
      ensures error.None? && entries.Some? ==>
                publishedReviews == LedgerAfter(old(publishedReviews), EntryKeys(entries.value)) &&
                info.Value() == UpdatedAll(config, entries.value, old(info.Value())) &&
                outbox == old(outbox) + (if config.debug then [WelcomeMessage(config, info.Value())] else [])
    {
      if error.Some? || entries.None? {
        return;
      }
      var items := entries.value;
      var i := 0;
      while i < |items|
        invariant 0 <= i <= |items|
        invariant Valid()
        invariant publishedReviews == LedgerAfter(old(publishedReviews), EntryKeys(items[..i]))
        invariant info.Value() == UpdatedAll(config, items[..i], old(info.Value()))
        invariant outbox == old(outbox)
      {
        var item := items[i];
        assert Init(items[..i + 1]) == items[..i] && Last(items[..i + 1]) == item;
        assert Init(EntryKeys(items[..i + 1])) == EntryKeys(items[..i]);
        var review := ParseAppStoreReview(item, config, info.Value());
        MarkReviewAsPublished(Some(review));
        UpdateAppInformation(config, item, info);
        i := i + 1;
      }
      assert items[..i] == items;
      if config.debug {
        var welcome := WelcomeMessage(config, info.Value());
        PostToSlack(welcome);
      }
    }

    /** The first Google Play callback: every initial review is marked as seen without
        posting, and a welcome message follows when debugging. */
    method OnInitialGooglePlayReviews(config: Config, info: AppInformation, initialReviews: seq<Review>)
      requires Valid()
      modifies this
      ensures Valid()
      ensures publishedReviews == LedgerAfter(old(publishedReviews), Keys(initialReviews))
      ensures outbox == old(outbox) + (if config.debug then [WelcomeMessage(config, info.Value())] else [])
    {
      var i := 0;
      while i < |initialReviews|
        invariant 0 <= i <= |initialReviews|
        invariant Valid()
        invariant publishedReviews == LedgerAfter(old(publishedReviews), Keys(initialReviews[..i]))
        invariant outbox == old(outbox)
      {
        assert Init(initialReviews[..i + 1]) == initialReviews[..i];
        assert Init(Keys(initialReviews[..i + 1])) == Keys(initialReviews[..i]);
        MarkReviewAsPublished(Some(initialReviews[i]));
        i := i + 1;
      }
      assert initialReviews[..i] == initialReviews;
      if config.debug {
        var welcome := WelcomeMessage(config, info.Value());
        PostToSlack(welcome);
      }
    }
  }
}
