/**
 * The food review page: photos from the shared `photos` table, each listed with
 * the rows of `reviews` whose `photo_id` is the photo's id, and a review box.
 */
module FoodReview {
  import opened Wrappers
  import opened PhotoStore
  import Seqs

  /** A row of the `reviews` table. */
  datatype Review = Review(id: int, photoId: int, review: string)

  /** The row `addReview` inserts. */
  datatype NewReview = NewReview(photoId: int, review: string)

  /** The food page uploads to `food_photos/<file name>` and names `food_photos` in the URL. */
  const FoodUpload: UploadConfig := UploadConfig("food_photos", "food_photos", "Food photo uploaded successfully!")

  /** The URL the food page stores: the base URL, the public object path, `food_photos/`, the returned path. */
  lemma FoodUploadStoresFoodPhotosUrl(base: string, file: File, name: string, path: string, insertOk: bool)
    requires name != ""
    ensures var r := UploadPhoto(FoodUpload, base, Some(file), name, Stored(path), insertOk);
      && r.Some? && r.value.objectPath == "food_photos/" + file.fileName
      && r.value.row == Some(NewPhoto(name, base + "/storage/v1/object/public/food_photos/" + path))
      && r.value.notice == (if insertOk then Success("Food photo uploaded successfully!") else Failure("Error: Error saving to the database"))
  {
    assert PublicUrl(base, "food_photos", path) == base + "/storage/v1/object/public/food_photos/" + path;
  }

  /** The reviews listed under a photo: those whose `photo_id` is the photo's id, in fetched order. */
  function ReviewsFor(reviews: seq<Review>, photoId: int): (r: seq<Review>)
    ensures forall x :: x in r <==> x in reviews && x.photoId == photoId
  {
    Seqs.Filter(reviews, (x: Review) => x.photoId == photoId)
  }

  /** The reviews under a photo keep the order of the fetched rows. */
  lemma ReviewsForInOrder(reviews: seq<Review>, photoId: int)
    ensures Seqs.IsSubsequence(ReviewsFor(reviews, photoId), reviews)
  {
    Seqs.FilterIsSubsequence(reviews, (x: Review) => x.photoId == photoId);
  }

  /** Every review listed on the page, photo after photo: exactly the fetched reviews that belong
      to a listed photo. */
  function ShownReviews(photos: seq<Photo>, reviews: seq<Review>): (r: seq<Review>)
    ensures forall x :: x in r <==> x in reviews && exists p :: p in photos && p.id == x.photoId
  {
    if photos == [] then []
    else
      var rest := ShownReviews(photos[1..], reviews);
      assert forall p :: p in photos <==> p == photos[0] || p in photos[1..];
      ReviewsFor(reviews, photos[0].id) + rest
  }

  ghost predicate DistinctIds(photos: seq<Photo>) {
    forall i, j :: 0 <= i < j < |photos| ==> photos[i].id != photos[j].id
  }

  /** The ids of the listed photos. */
  ghost function Ids(photos: seq<Photo>): set<int> {
    if photos == [] then {} else {photos[0].id} + Ids(photos[1..])
  }

  lemma {:induction false} IdsOfDistinctTail(photos: seq<Photo>)
    requires photos != [] && DistinctIds(photos)
    ensures photos[0].id !in Ids(photos[1..]) && DistinctIds(photos[1..])
  {
    var rest := photos[1..];
    forall k | 0 <= k < |rest| ensures rest[k].id != photos[0].id {
      assert rest[k] == photos[k + 1];
    }
    IdsAreListed(rest, photos[0].id);
  }

  lemma {:induction false} IdsAreListed(photos: seq<Photo>, id: int)
    requires forall k :: 0 <= k < |photos| ==> photos[k].id != id
    ensures id !in Ids(photos)
  {
    if photos != [] {
      IdsAreListed(photos[1..], id);
    }
  }

  /** Listing every photo's reviews lists exactly the reviews of the listed photos, once each. */
  lemma {:induction false} ShownReviewsAreThoseOfListedPhotos(photos: seq<Photo>, reviews: seq<Review>)
    requires DistinctIds(photos)
    ensures multiset(ShownReviews(photos, reviews)) == multiset(Seqs.Filter(reviews, (x: Review) => x.photoId in Ids(photos)))
  {
    var h := (x: Review) => x.photoId in Ids(photos);
    if photos == [] {
      Seqs.FilterKeepsNone(reviews, h);
    } else {
      var rest := photos[1..];
      IdsOfDistinctTail(photos);
      ShownReviewsAreThoseOfListedPhotos(rest, reviews);
      var f := (x: Review) => x.photoId == photos[0].id;
      var g := (x: Review) => x.photoId in Ids(rest);
      assert ShownReviews(photos, reviews) == Seqs.Filter(reviews, f) + ShownReviews(rest, reviews);
      Seqs.FilterDisjointUnion(reviews, f, g, h);
    }
  }

  /** With distinct photo ids no review is listed twice, and none is listed that was not fetched. */
  lemma NoReviewShownTwice(photos: seq<Photo>, reviews: seq<Review>)
    requires DistinctIds(photos)
    ensures multiset(ShownReviews(photos, reviews)) <= multiset(reviews)
  {
    ShownReviewsAreThoseOfListedPhotos(photos, reviews);
    Seqs.FilterSubMultiset(reviews, (x: Review) => x.photoId in Ids(photos));
  }

  /** The state `addReview` reads and writes: the review box shared by every photo. */
  class FoodReviewApp {
    var reviewText: string
    var reviews: seq<Review>

    constructor ()
      ensures reviewText == "" && reviews == []
    {
      reviewText, reviews := "", [];
    }

    method HandleReviewChange(text: string)
      modifies this`reviewText
      ensures reviewText == text
    {
      reviewText := text;
    }

    /** `addReview`: an empty review is rejected before anything is sent; the box is cleared
        only when the insert succeeds, and only then are the reviews re-fetched. */
    method AddReview(photoId: int, insertOk: bool) returns (request: Option<NewReview>, refetch: bool)
      modifies this`reviewText
      ensures old(reviewText) == "" ==> request == None && !refetch && reviewText == ""
      ensures old(reviewText) != "" ==> request == Some(NewReview(photoId, old(reviewText))) && refetch == insertOk
      ensures reviewText == if request.Some? && insertOk then "" else old(reviewText)
    {
      if reviewText == "" {
        return None, false;
      }
      request := Some(NewReview(photoId, reviewText));
      refetch := insertOk;
      if insertOk {
        reviewText := "";
      }
    }

    /** `fetchReviews` completing: the rows received replace the list, which is kept on error. */
    method FetchReviewsDone(fetched: Option<seq<Review>>)
      modifies this`reviews
      ensures reviews == if fetched.Some? then fetched.value else old(reviews)
    {
      if fetched.Some? {
        reviews := fetched.value;
      }
    }
  }
}
