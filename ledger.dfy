/** The published-reviews ledger as values: what `markReviewAsPublished` and
    `reviewPublished` do to and with the array of ids, and what a batch of reviews
    handled one after another leaves behind and posts. */
module Ledger {
  import opened Js
  import opened Entities

  /** `REVIEWS_LIMIT`, the capacity the ledger was meant to have. */
  const REVIEWS_LIMIT: nat := 50

  /** The id of a possibly missing review; `None` when the review itself is missing. */
  function KeyOf(review: Option<Review>): Option<string>
  {
    if review.Some? then review.value.id else None
  }

  /** `reviewPublished`: a review with a falsy id is never published. */
  predicate IsPublished(ids: seq<string>, key: Option<string>)
  {
    Truthy(key) && key.value in ids
  }

  /** The ledger a well-formed ledger stays: no empty id, no id twice. */
  predicate WellFormed(ids: seq<string>)
  {
    "" !in ids && forall i, j :: 0 <= i < j < |ids| ==> ids[i] != ids[j]
  }

  /** The ledger after `markReviewAsPublished` as written: a falsy or already present id
      changes nothing, any other id goes to the front, and nothing is ever evicted. */
  function Marked(ids: seq<string>, key: Option<string>): (r: seq<string>)
    ensures Truthy(key) ==> IsPublished(r, key)
    ensures forall x :: x in r <==> x in ids || (Truthy(key) && x == key.value)
    ensures |r| == if Truthy(key) && key.value !in ids then |ids| + 1 else |ids|
    ensures r == ids || (key.Some? && r == [key.value] + ids)
    ensures WellFormed(ids) ==> WellFormed(r)
  {
    if !Truthy(key) || key.value in ids then ids else [key.value] + ids
  }

  /** Marking one review publishes it and no other review that was not published before. */
  lemma MarkedPublishesOnlyItsId(ids: seq<string>, key: Option<string>, other: Option<string>)
    requires Truthy(key) && !IsPublished(ids, other) && other != key
    ensures IsPublished(Marked(ids, key), key)
    ensures !IsPublished(Marked(ids, key), other)
  {
  }

  /** The ids of a batch, in order. */
  function Keys(batch: seq<Review>): (ks: seq<Option<string>>)
    ensures |ks| == |batch|
    ensures forall i :: 0 <= i < |batch| ==> ks[i] == batch[i].id
  {
    if batch == [] then [] else Keys(Init(batch)) + [Last(batch).id]
  }

  /** The ledger after marking each key of `keys`, first to last. */
  function LedgerAfter(ids: seq<string>, keys: seq<Option<string>>): seq<string>
    decreases |keys|
  {
    if keys == [] then ids else Marked(LedgerAfter(ids, Init(keys)), Last(keys))
  }

  /** The reviews `handleFetchedGooglePlayReviews` posts, in order: each one whose id is
      not in the ledger at the moment it is reached. */
  function Posted(ids: seq<string>, batch: seq<Review>): seq<Review>
    decreases |batch|
  {
    if batch == [] then []
    else
      Posted(ids, Init(batch))
        + (if IsPublished(LedgerAfter(ids, Keys(Init(batch))), Last(batch).id) then [] else [Last(batch)])
  }

  /** One more review: the ledger marks its id, and it is posted unless the ledger
      built so far already holds its id. */
  lemma BatchStep(ids: seq<string>, batch: seq<Review>, n: nat)
    requires n < |batch|
    ensures LedgerAfter(ids, Keys(batch[..n + 1])) == Marked(LedgerAfter(ids, Keys(batch[..n])), batch[n].id)
    ensures Posted(ids, batch[..n + 1]) ==
              Posted(ids, batch[..n]) + (if IsPublished(LedgerAfter(ids, Keys(batch[..n])), batch[n].id) then [] else [batch[n]])
  {
    assert Init(batch[..n + 1]) == batch[..n] && Last(batch[..n + 1]) == batch[n];
    assert Init(Keys(batch[..n + 1])) == Keys(batch[..n]);
  }

  /** One more review: the ledger marks its id. */
  lemma LedgerStep(ids: seq<string>, batch: seq<Review>, n: nat)
    requires n < |batch|
    ensures LedgerAfter(ids, Keys(batch[..n + 1])) == Marked(LedgerAfter(ids, Keys(batch[..n])), batch[n].id)
  {
    BatchStep(ids, batch, n);
  }

  /** A batch of one review: it is posted exactly when its id is not yet published. */
  lemma SingleReview(ids: seq<string>, review: Review)
    ensures LedgerAfter(ids, [review.id]) == Marked(ids, review.id)
    ensures Posted(ids, [review]) == if IsPublished(ids, review.id) then [] else [review]
  {
    BatchStep(ids, [review], 0);
    assert [review][..0] == [] && [review][..1] == [review];
  }

  /** Three distinct new ids marked in turn end up newest first. */
  lemma ThreeNewIds(x: string, y: string, z: string)
    requires x != "" && y != "" && z != "" && x != y && y != z && x != z
    ensures LedgerAfter([], [Some(x), Some(y), Some(z)]) == [z, y, x]
  {
    assert Init([Some(x), Some(y), Some(z)]) == [Some(x), Some(y)];
    assert Init([Some(x), Some(y)]) == [Some(x)];
    assert Init([Some(x)]) == [];
    assert LedgerAfter([], [Some(x)]) == [x];
    assert LedgerAfter([], [Some(x), Some(y)]) == [y, x];
  }

  /** An independent account of the same choice, by position: a review is fresh when it
      has no id, or its id is neither in the ledger nor carried by an earlier review. */
  predicate FreshAt(ids: seq<string>, batch: seq<Review>, k: nat)
    requires k < |batch|
  {
    !Truthy(batch[k].id) || (batch[k].id.value !in ids && forall j :: 0 <= j < k ==> batch[j].id != batch[k].id)
  }

  /** The fresh reviews of a batch, in order. */
  function FreshReviews(ids: seq<string>, batch: seq<Review>): seq<Review>
    decreases |batch|
  {
    if batch == [] then []
    else FreshReviews(ids, Init(batch)) + (if FreshAt(ids, batch, |batch| - 1) then [Last(batch)] else [])
  }

  /** An id is in the ledger after a batch exactly when it was before, or some key of
      the batch carries it. */
  lemma {:induction false} LedgerAfterMembership(ids: seq<string>, keys: seq<Option<string>>)
    ensures forall x :: x in LedgerAfter(ids, keys) <==> x in ids || (x != "" && Some(x) in keys)
    decreases |keys|
  {
    if keys != [] {
      LedgerAfterMembership(ids, Init(keys));
      assert keys == Init(keys) + [Last(keys)];
    }
  }

  /** An id is among a batch's keys exactly when some review of the batch carries it. */
  lemma KeysCarry(batch: seq<Review>, x: string)
    ensures Some(x) in Keys(batch) <==> exists j :: 0 <= j < |batch| && batch[j].id == Some(x)
  {
    if Some(x) in Keys(batch) {
      var j :| 0 <= j < |batch| && Keys(batch)[j] == Some(x);
      assert batch[j].id == Some(x);
    }
  }

  /** A batch's last review is fresh exactly when the ledger built from the reviews
      before it does not hold its id. */
  lemma FreshAtLast(ids: seq<string>, batch: seq<Review>)
    requires batch != []
    ensures FreshAt(ids, batch, |batch| - 1) <==> !IsPublished(LedgerAfter(ids, Keys(Init(batch))), Last(batch).id)
  {
    var init, k := Init(batch), |batch| - 1;
    LedgerAfterMembership(ids, Keys(init));
    if Truthy(batch[k].id) {
      var x := batch[k].id.value;
      KeysCarry(init, x);
      assert forall j :: 0 <= j < k ==> init[j] == batch[j];
    }
  }

  /** The batch loop posts exactly the fresh reviews. */
  lemma {:induction false} PostedAreFresh(ids: seq<string>, batch: seq<Review>)
    ensures Posted(ids, batch) == FreshReviews(ids, batch)
    decreases |batch|
  {
    if batch != [] {
      PostedAreFresh(ids, Init(batch));
      FreshAtLast(ids, batch);
    }
  }

  /** The truthy ids of a list of reviews, the last one first. */
  function NewestFirst(reviews: seq<Review>): seq<string>
    decreases |reviews|
  {
    if reviews == [] then []
    else (if Truthy(Last(reviews).id) then [Last(reviews).id.value] else []) + NewestFirst(Init(reviews))
  }

  /** The ledger after a batch is the ids of the posted reviews, most recent first, in
      front of the old ledger: "posted exactly the unseen ids, and marked each". */
  lemma {:induction false} LedgerAfterIsPostedIds(ids: seq<string>, batch: seq<Review>)
    ensures LedgerAfter(ids, Keys(batch)) == NewestFirst(Posted(ids, batch)) + ids
    decreases |batch|
  {
    if batch != [] {
      var init, last := Init(batch), Last(batch);
      LedgerAfterIsPostedIds(ids, init);
      var keys := Keys(batch);
      assert Init(keys) == Keys(init);
      var before := LedgerAfter(ids, Keys(init));
      var posted := Posted(ids, init);
      assert LedgerAfter(ids, keys) == Marked(before, last.id);
      if IsPublished(before, last.id) {
        assert Posted(ids, batch) == posted + [];
        assert posted + [] == posted;
      } else {
        var p := posted + [last];
        assert Posted(ids, batch) == p;
        assert Init(p) == posted;
        var head := if Truthy(last.id) then [last.id.value] else [];
        assert NewestFirst(p) == head + NewestFirst(posted);
        AppendAssociates(head, NewestFirst(posted), ids);
      }
    }
  }

  /** A batch whose every review is already in the ledger posts nothing and leaves the
      ledger as it was. */
  lemma {:induction false} SeenBatchPostsNothing(ids: seq<string>, batch: seq<Review>)
    requires forall i :: 0 <= i < |batch| ==> IsPublished(ids, batch[i].id)
    ensures Posted(ids, batch) == []
    ensures LedgerAfter(ids, Keys(batch)) == ids
    decreases |batch|
  {
    if batch != [] {
      SeenBatchPostsNothing(ids, Init(batch));
      assert Init(Keys(batch)) == Keys(Init(batch));
      assert IsPublished(ids, Last(batch).id);
    }
  }

  /** Every posted review comes from the batch. */
  lemma {:induction false} PostedFromBatch(ids: seq<string>, batch: seq<Review>)
    ensures forall r :: r in Posted(ids, batch) ==> r in batch
    decreases |batch|
  {
    if batch != [] {
      PostedFromBatch(ids, Init(batch));
      assert batch == Init(batch) + [Last(batch)];
    }
  }

  /** No posted review carries an id that was already in the ledger. */
  lemma {:induction false} PostedAreUnseen(ids: seq<string>, batch: seq<Review>)
    ensures forall r :: r in Posted(ids, batch) && Truthy(r.id) ==> r.id.value !in ids
    decreases |batch|
  {
    if batch != [] {
      var init, last := Init(batch), Last(batch);
      PostedAreUnseen(ids, init);
      LedgerAfterMembership(ids, Keys(init));
      if Truthy(last.id) && !IsPublished(LedgerAfter(ids, Keys(init)), last.id) {
        assert last.id.value !in ids;
      }
    }
  }

  /** No two reviews of the list share a truthy id. */
  predicate DistinctIds(reviews: seq<Review>)
  {
    forall i, j :: 0 <= i < j < |reviews| && Truthy(reviews[i].id) ==> reviews[i].id != reviews[j].id
  }

  /** No id is posted twice, even when the batch repeats it. */
  lemma {:induction false} PostedOncePerId(ids: seq<string>, batch: seq<Review>)
    ensures DistinctIds(Posted(ids, batch))
    decreases |batch|
  {
    if batch != [] {
      var init, last := Init(batch), Last(batch);
      PostedOncePerId(ids, init);
      var q := Posted(ids, init);
      var before := LedgerAfter(ids, Keys(init));
      if IsPublished(before, last.id) {
        assert Posted(ids, batch) == q + [];
        assert q + [] == q;
      } else {
        PostedFromBatch(ids, init);
        LedgerAfterMembership(ids, Keys(init));
        forall i | 0 <= i < |q| && Truthy(q[i].id)
          ensures q[i].id != last.id
        {
          assert q[i] in init;
          var j :| 0 <= j < |init| && init[j] == q[i];
          assert Keys(init)[j] == q[i].id;
          assert q[i].id.value in before;
        }
        var p := q + [last];
        assert Posted(ids, batch) == p;
        forall i, j | 0 <= i < j < |p| && Truthy(p[i].id)
          ensures p[i].id != p[j].id
        {
          if j < |q| {
            assert p[i] == q[i] && p[j] == q[j];
          } else {
            assert p[i] == q[i] && p[j] == last;
          }
        }
      }
    }
  }

  /** Two batches in a row leave the same ledger as the two run as one. */
  lemma {:induction false} LedgerAfterConcat(ids: seq<string>, a: seq<Option<string>>, b: seq<Option<string>>)
    ensures LedgerAfter(ids, a + b) == LedgerAfter(LedgerAfter(ids, a), b)
    decreases |b|
  {
    if b != [] {
      assert Init(a + b) == a + Init(b);
      LedgerAfterConcat(ids, a, Init(b));
    } else {
      assert a + b == a;
    }
  }

  /** Marking keeps the ledger well formed, batch after batch. */
  lemma {:induction false} LedgerAfterWellFormed(ids: seq<string>, keys: seq<Option<string>>)
    requires WellFormed(ids)
    ensures WellFormed(LedgerAfter(ids, keys))
    decreases |keys|
  {
    if keys != [] {
      LedgerAfterWellFormed(ids, Init(keys));
    }
  }

  /** Marking ids that are distinct, truthy and new grows the ledger by one per id. */
  lemma {:induction false} LedgerGrowsByNewIds(ids: seq<string>, keys: seq<Option<string>>)
    requires forall i :: 0 <= i < |keys| ==> Truthy(keys[i]) && keys[i].value !in ids
    requires forall i, j :: 0 <= i < j < |keys| ==> keys[i] != keys[j]
    ensures |LedgerAfter(ids, keys)| == |ids| + |keys|
    decreases |keys|
  {
    if keys != [] {
      var init := Init(keys);
      LedgerGrowsByNewIds(ids, init);
      LedgerAfterMembership(ids, init);
      assert Last(keys) !in init;
    }
  }

  /** As written, the capacity guard never fires: marking 51 distinct new ids leaves 51
      ids in the ledger, one more than `REVIEWS_LIMIT`. */
  lemma LedgerExceedsLimit(keys: seq<Option<string>>)
    requires |keys| == REVIEWS_LIMIT + 1
    requires forall i :: 0 <= i < |keys| ==> Truthy(keys[i])
    requires forall i, j :: 0 <= i < j < |keys| ==> keys[i] != keys[j]
    ensures |LedgerAfter([], keys)| == REVIEWS_LIMIT + 1
  {
    LedgerGrowsByNewIds([], keys);
  }

  /** The intended marking: when the ledger is full the oldest id is dropped before the
      new one goes to the front. */
  function MarkedBounded(ids: seq<string>, key: Option<string>): (r: seq<string>)
    ensures |ids| <= REVIEWS_LIMIT ==> |r| <= REVIEWS_LIMIT
    ensures Truthy(key) ==> IsPublished(r, key)
    ensures !Truthy(key) || key.value in ids ==> r == ids
    ensures Truthy(key) && key.value !in ids && |ids| <= REVIEWS_LIMIT ==>
              r == ([key.value] + ids)[..if |ids| < REVIEWS_LIMIT then |ids| + 1 else REVIEWS_LIMIT]
    ensures WellFormed(ids) ==> WellFormed(r)
  {
    if !Truthy(key) || key.value in ids then ids
    else if |ids| >= REVIEWS_LIMIT then [key.value] + ids[..|ids| - 1]
    else [key.value] + ids
  }

  /** The test-suite case "recognizes new Google Play reviews", for any three reviews
      with distinct ids (123, 456 and 789 there): after the first batch [r1, r2] is
      marked without posting, the same batch again posts nothing, and [r1, r2, r3]
      posts only r3. */
  lemma TestBatchesPostOnlyNewId(r1: Review, r2: Review, r3: Review)
    requires Truthy(r1.id) && Truthy(r2.id) && Truthy(r3.id)
    requires r1.id != r2.id && r2.id != r3.id && r1.id != r3.id
    ensures var first := LedgerAfter([], Keys([r1, r2]));
            first == [r2.id.value, r1.id.value] &&
            Posted(first, [r1, r2]) == [] &&
            LedgerAfter(first, Keys([r1, r2])) == first &&
            Posted(first, [r1, r2, r3]) == [r3] &&
            LedgerAfter(first, Keys([r1, r2, r3])) == [r3.id.value, r2.id.value, r1.id.value]
  {
    var first := LedgerAfter([], Keys([r1, r2]));
    assert Keys([r1, r2]) == [r1.id, r2.id];
    assert Init([r1.id, r2.id]) == [r1.id] && Init([r1.id]) == [];
    assert LedgerAfter([], [r1.id]) == Marked([], r1.id);
    assert first == [r2.id.value, r1.id.value];
    SeenBatchPostsNothing(first, [r1, r2]);
    var batch := [r1, r2, r3];
    assert batch[..2] == [r1, r2] && batch[..3] == batch;
    BatchStep(first, batch, 2);
    assert !IsPublished(first, r3.id);
    assert Posted(first, batch) == [] + [r3];
    assert LedgerAfter(first, Keys(batch)) == [r3.id.value] + first;
  }
}
