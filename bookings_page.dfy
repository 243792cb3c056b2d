/**
 * The guest's bookings page: the sidebar's split of bookings by status, the
 * local update after a cancellation, the five-step host review wizard with
 * its existing-review lookup and reviewed-booking set, and the listing image
 * carousel.
 */
module BookingsPage {
  import opened Wrappers
  import opened Text
  import opened Auth
  import opened Seqs

  datatype Booking = Booking(id: string, listingId: string, guestId: string, hostId: string,
                             startDate: string, endDate: string, pricePerNight: int, totalPrice: int,
                             status: string, paymentStatus: string)

  datatype Review = Review(id: string, bookingId: string, reviewerId: string, revieweeId: string,
                           cleanliness: int, accuracy: int, communication: int, location: int,
                           value: int, comment: Option<string>)

  // ---------------------------------------------------------------------
  // The sidebar sections

  predicate IsPending(status: string) { status == "pending" }
  predicate IsApproved(status: string) { status == "confirmed" || status == "approved" }
  predicate IsCompleted(status: string) { status == "ended" }
  predicate IsCancelled(status: string) { status == "cancelled" }
  /** A status no section lists. */
  predicate IsUnlisted(status: string) {
    !IsPending(status) && !IsApproved(status) && !IsCompleted(status) && !IsCancelled(status)
  }

  /** `bookings.filter(b => q(b.status))`: the bookings whose status `q` accepts, in their order. */
  function WithStatus(bs: seq<Booking>, q: string -> bool): (r: seq<Booking>)
    ensures IsSubsequence(r, bs)
    ensures forall b :: b in r <==> b in bs && q(b.status)
    ensures |r| <= |bs|
  {
    if bs == [] then []
    else
      var rest := WithStatus(bs[1..], q);
      assert forall b :: b in bs <==> b == bs[0] || b in bs[1..];
      if q(bs[0].status) then [bs[0]] + rest
      else
        assert rest != [] ==> rest[0] in rest && rest[0] != bs[0];
        rest
  }

  function PendingBookings(bs: seq<Booking>): seq<Booking> { WithStatus(bs, IsPending) }
  function ApprovedBookings(bs: seq<Booking>): seq<Booking> { WithStatus(bs, IsApproved) }
  function CompletedBookings(bs: seq<Booking>): seq<Booking> { WithStatus(bs, IsCompleted) }
  function CancelledBookings(bs: seq<Booking>): seq<Booking> { WithStatus(bs, IsCancelled) }
  function UnlistedBookings(bs: seq<Booking>): seq<Booking> { WithStatus(bs, IsUnlisted) }

  /**
   * The four sections and the unlisted bookings split the list: together
   * they hold every booking exactly as often as the list does.
   */
  lemma {:induction false} SectionsPartition(bs: seq<Booking>)
    ensures multiset(PendingBookings(bs)) + multiset(ApprovedBookings(bs)) + multiset(CompletedBookings(bs))
            + multiset(CancelledBookings(bs)) + multiset(UnlistedBookings(bs)) == multiset(bs)
  {
    if bs != [] {
      var b, rest := bs[0], bs[1..];
      SectionsPartition(rest);
      SectionsStep(bs);
      assert multiset(bs) == multiset{b} + multiset(rest) by {
        assert bs == [b] + rest;
      }
    }
  }

  /** Adding a booking in front adds it to exactly one of the five filters. */
  lemma SectionsStep(bs: seq<Booking>)
    requires bs != []
    ensures multiset(PendingBookings(bs)) + multiset(ApprovedBookings(bs)) + multiset(CompletedBookings(bs))
            + multiset(CancelledBookings(bs)) + multiset(UnlistedBookings(bs))
            == multiset{bs[0]}
               + multiset(PendingBookings(bs[1..])) + multiset(ApprovedBookings(bs[1..]))
               + multiset(CompletedBookings(bs[1..])) + multiset(CancelledBookings(bs[1..]))
               + multiset(UnlistedBookings(bs[1..]))
  {
    FilterStep(bs, IsPending);
    FilterStep(bs, IsApproved);
    FilterStep(bs, IsCompleted);
    FilterStep(bs, IsCancelled);
    FilterStep(bs, IsUnlisted);
    HeadInOneSection(bs[0]);
  }

  /** Counted over the five filters, a booking is kept exactly once. */
  lemma HeadInOneSection(b: Booking)
    ensures (if IsPending(b.status) then multiset{b} else multiset{})
            + (if IsApproved(b.status) then multiset{b} else multiset{})
            + (if IsCompleted(b.status) then multiset{b} else multiset{})
            + (if IsCancelled(b.status) then multiset{b} else multiset{})
            + (if IsUnlisted(b.status) then multiset{b} else multiset{})
            == multiset{b}
  {
  }

  /** One step of a filter, counted: the head is kept exactly when `q` accepts it. */
  lemma FilterStep(bs: seq<Booking>, q: string -> bool)
    requires bs != []
    ensures multiset(WithStatus(bs, q))
            == (if q(bs[0].status) then multiset{bs[0]} else multiset{}) + multiset(WithStatus(bs[1..], q))
  {
  }

  /** No booking appears in two sections, and a booking with any other status appears in none. */
  lemma SectionsDisjoint(bs: seq<Booking>, b: Booking)
    ensures b in PendingBookings(bs) ==>
              b !in ApprovedBookings(bs) && b !in CompletedBookings(bs) && b !in CancelledBookings(bs)
    ensures b in ApprovedBookings(bs) ==> b !in CompletedBookings(bs) && b !in CancelledBookings(bs)
    ensures b in CompletedBookings(bs) ==> b !in CancelledBookings(bs)
    ensures IsUnlisted(b.status) ==>
              b !in PendingBookings(bs) && b !in ApprovedBookings(bs)
              && b !in CompletedBookings(bs) && b !in CancelledBookings(bs)
  {
  }

  // ---------------------------------------------------------------------
  // Cancellation

  /** `prev.map(b => b.id === id ? { ...b, status: 'cancelled' } : b)`. */
  function CancelLocally(bs: seq<Booking>, id: string): (r: seq<Booking>)
    ensures |r| == |bs|
    ensures forall i :: 0 <= i < |bs| && bs[i].id != id ==> r[i] == bs[i]
    ensures forall i :: 0 <= i < |bs| && bs[i].id == id ==> r[i] == bs[i].(status := "cancelled")
  {
    if bs == [] then []
    else [if bs[0].id == id then bs[0].(status := "cancelled") else bs[0]] + CancelLocally(bs[1..], id)
  }

  /** The bookings whose id is not `id`, in order. */
  function Without(bs: seq<Booking>, id: string): (r: seq<Booking>)
    ensures forall b :: b in r <==> b in bs && b.id != id
  {
    if bs == [] then []
    else
      assert forall b :: b in bs <==> b == bs[0] || b in bs[1..];
      (if bs[0].id == id then [] else [bs[0]]) + Without(bs[1..], id)
  }

  /**
   * After a cancellation every section but "Cancelled" is what it was minus
   * the cancelled booking, in the same order.
   */
  lemma {:induction false} CancelLeavesSection(bs: seq<Booking>, id: string, q: string -> bool)
    requires !q("cancelled")
    ensures WithStatus(CancelLocally(bs, id), q) == Without(WithStatus(bs, q), id)
  {
    if bs != [] {
      CancelLeavesSection(bs[1..], id, q);
      assert CancelLocally(bs, id)[1..] == CancelLocally(bs[1..], id);
    }
  }

  /** ... and the "Cancelled" section gains it, with every other booking where it was. */
  lemma CancelJoinsCancelled(bs: seq<Booking>, id: string, i: nat)
    requires i < |bs| && bs[i].id == id
    ensures bs[i].(status := "cancelled") in CancelledBookings(CancelLocally(bs, id))
  {
    assert CancelLocally(bs, id)[i] == bs[i].(status := "cancelled");
  }

  /** Cancelling the same booking twice is cancelling it once. */
  lemma CancelIdempotent(bs: seq<Booking>, id: string)
    ensures CancelLocally(CancelLocally(bs, id), id) == CancelLocally(bs, id)
  {
  }

  // ---------------------------------------------------------------------
  // Reviews already written

  /** The set of `booking_id`s of the reviews `userId` wrote (the filter, map and `new Set`). */
  function ReviewedBookings(reviews: seq<Review>, userId: string): (r: set<string>)
    ensures forall id :: id in r <==> exists rv :: rv in reviews && rv.reviewerId == userId && rv.bookingId == id
  {
    if reviews == [] then {}
    else
      assert forall rv :: rv in reviews <==> rv == reviews[0] || rv in reviews[1..];
      (if reviews[0].reviewerId == userId then {reviews[0].bookingId} else {})
      + ReviewedBookings(reviews[1..], userId)
  }

  /** The review a user wrote for a booking's host: same booking, written by the user, about the host. */
  predicate ReviewOf(rv: Review, booking: Booking, userId: Option<string>) {
    rv.bookingId == booking.id && Some(rv.reviewerId) == userId && rv.revieweeId == booking.hostId
  }

  /** The position of the first review of `booking` by `userId`. */
  function FirstReviewAt(reviews: seq<Review>, booking: Booking, userId: Option<string>): (k: Option<nat>)
    ensures k.Some? ==> k.value < |reviews| && ReviewOf(reviews[k.value], booking, userId)
                        && forall j :: 0 <= j < k.value ==> !ReviewOf(reviews[j], booking, userId)
    ensures k.None? ==> forall j :: 0 <= j < |reviews| ==> !ReviewOf(reviews[j], booking, userId)
  {
    if reviews == [] then None
    else if ReviewOf(reviews[0], booking, userId) then Some(0)
    else
      match FirstReviewAt(reviews[1..], booking, userId)
      case None => None
      case Some(k) => Some(k + 1)
  }

  /**
   * `allReviews.find(...)`: the first review of the booking by the user
   * about the booking's host, or None when there is none.
   */
  function FindReview(reviews: seq<Review>, booking: Booking, userId: Option<string>): (r: Option<Review>)
    ensures r.None? <==> forall j :: 0 <= j < |reviews| ==> !ReviewOf(reviews[j], booking, userId)
    ensures r.Some? ==> ReviewOf(r.value, booking, userId)
                        && exists k :: 0 <= k < |reviews| && reviews[k] == r.value
                                       && forall j :: 0 <= j < k ==> !ReviewOf(reviews[j], booking, userId)
  {
    match FirstReviewAt(reviews, booking, userId)
    case None => None
    case Some(k) => Some(reviews[k])
  }

  // ---------------------------------------------------------------------
  // The review wizard

  /** The review form: five star ratings and the comment. */
  datatype ReviewData = ReviewData(cleanliness: int, accuracy: int, communication: int,
                                   location: int, value: int, comment: string)

  const BlankReview := ReviewData(0, 0, 0, 0, 0, "")
  /** `reviewSteps.length`: cleanliness, accuracy, communication, location, value. */
  const RatingSteps := 5
  /** The step that shows the comment box. */
  const CommentStep := 5

  /** The rating the wizard asks for at step `i`. */
  function Rating(d: ReviewData, i: int): int
    requires 0 <= i < RatingSteps
  {
    match i
    case 0 => d.cleanliness
    case 1 => d.accuracy
    case 2 => d.communication
    case 3 => d.location
    case _ => d.value
  }

  /** `{ ...prev, [reviewSteps[i].field]: v }`: only the field of step `i` changes. */
  function WithRating(d: ReviewData, i: int, v: int): (r: ReviewData)
    requires 0 <= i < RatingSteps
    ensures Rating(r, i) == v
    ensures forall j :: 0 <= j < RatingSteps && j != i ==> Rating(r, j) == Rating(d, j)
    ensures r.comment == d.comment
  {
    match i
    case 0 => d.(cleanliness := v)
    case 1 => d.(accuracy := v)
    case 2 => d.(communication := v)
    case 3 => d.(location := v)
    case _ => d.(value := v)
  }

  /**
   * `handleReviewStep` on (step, form): records the rating for the current
   * step and moves on; after the fifth rating the comment step follows.
   */
  function Rate(step: int, d: ReviewData, rating: int): (r: (int, ReviewData))
    requires 0 <= step < RatingSteps
    ensures r.0 == step + 1 && r.0 <= CommentStep
    ensures r.1 == WithRating(d, step, rating)
  {
    (if step < RatingSteps - 1 then step + 1 else CommentStep, WithRating(d, step, rating))
  }

  /** A run of star clicks from `step` on. */
  function RateAll(step: int, d: ReviewData, ratings: seq<int>): (int, ReviewData)
    requires 0 <= step && step + |ratings| <= RatingSteps
    decreases ratings
  {
    if ratings == [] then (step, d)
    else
      var next := Rate(step, d, ratings[0]);
      RateAll(next.0, next.1, ratings[1..])
  }

  /**
   * Star clicks fill the fields of the steps they are made on, in order,
   * and leave the other ratings and the comment as they were.
   */
  lemma {:induction false} RateAllFills(step: int, d: ReviewData, ratings: seq<int>)
    requires 0 <= step && step + |ratings| <= RatingSteps
    ensures RateAll(step, d, ratings).0 == step + |ratings|
    ensures forall j :: step <= j < step + |ratings| ==> Rating(RateAll(step, d, ratings).1, j) == ratings[j - step]
    ensures forall j :: 0 <= j < RatingSteps && !(step <= j < step + |ratings|) ==>
              Rating(RateAll(step, d, ratings).1, j) == Rating(d, j)
    ensures RateAll(step, d, ratings).1.comment == d.comment
    decreases ratings
  {
    if ratings != [] {
      var next := Rate(step, d, ratings[0]);
      RateAllFills(next.0, next.1, ratings[1..]);
    }
  }

  /** Five clicks from the first step reach the comment step with exactly those ratings. */
  lemma FullPass(d: ReviewData, ratings: seq<int>)
    requires |ratings| == RatingSteps
    ensures RateAll(0, d, ratings)
            == (CommentStep, ReviewData(ratings[0], ratings[1], ratings[2], ratings[3], ratings[4], d.comment))
  {
    RateAllFills(0, d, ratings);
    var r := RateAll(0, d, ratings).1;
    assert Rating(r, 0) == ratings[0] && Rating(r, 1) == ratings[1] && Rating(r, 2) == ratings[2];
    assert Rating(r, 3) == ratings[3] && Rating(r, 4) == ratings[4];
  }

  /** The form an existing review is edited in (a missing comment becomes ""). */
  function FormOf(rv: Review): (d: ReviewData)
    ensures d.comment == rv.comment.GetOr("")
    ensures Rating(d, 0) == rv.cleanliness && Rating(d, 1) == rv.accuracy && Rating(d, 2) == rv.communication
    ensures Rating(d, 3) == rv.location && Rating(d, 4) == rv.value
  {
    ReviewData(rv.cleanliness, rv.accuracy, rv.communication, rv.location, rv.value, rv.comment.GetOr(""))
  }

  // ---------------------------------------------------------------------
  // Listing images

  const UploadsPrefix := "/uploads/"
  const ApiOrigin := "http://localhost:4000"

  /**
   * The `src` of a listing image: an uploaded file's path gets the API
   * server's origin in front, any other URL is used as is.
   */
  function ImageSrc(url: string): (src: string)
    ensures StartsWith(url, UploadsPrefix) ==> src == ApiOrigin + url
    ensures !StartsWith(url, UploadsPrefix) ==> src == url
    ensures |url| <= |src| && src[|src| - |url|..] == url
    ensures !StartsWith(src, UploadsPrefix)
  {
    if StartsWith(url, UploadsPrefix) then
      assert (ApiOrigin + url)[0] == 'h' != UploadsPrefix[0];
      ApiOrigin + url
    else url
  }

  /** Resolving a resolved URL changes nothing. */
  lemma ImageSrcIdempotent(url: string)
    ensures ImageSrc(ImageSrc(url)) == ImageSrc(url)
  {
  }

  /** What the gallery renders. */
  datatype GalleryView =
    | Placeholder    // the stock photo of a listing without images
    | RenderError    // `listing.images[currentImageIndex].url` on a missing image throws
    | Slide(src: string, prevArrow: bool, nextArrow: bool, counter: Option<(int, int)>)

  /**
   * The gallery for a listing's image URLs at position `index`: the stock
   * photo when there are none; otherwise the resolved image at `index`, the
   * "<" arrow past the first image, the ">" arrow before the last, and the
   * "i / n" counter when there is more than one image. An index past the
   * end makes the render throw.
   */
  function Gallery(images: seq<string>, index: nat): (g: GalleryView)
    ensures images == [] <==> g == Placeholder
    ensures g == RenderError <==> images != [] && index >= |images|
    ensures g.Slide? ==> index < |images| && g.src == ImageSrc(images[index])
    ensures g.Slide? ==> (g.prevArrow <==> index > 0) && (g.nextArrow <==> index + 1 < |images|)
    ensures g.Slide? ==> (g.counter.Some? <==> |images| > 1)
                         && (g.counter.Some? ==> g.counter.value == (index + 1, |images|))
  {
    if images == [] then Placeholder
    else if index >= |images| then RenderError
    else Slide(ImageSrc(images[index]), index > 0, index < |images| - 1,
               if |images| > 1 then Some((index + 1, |images|)) else None)
  }

  /** Following an arrow of a rendered slide renders a slide again, so the arrows alone never break the gallery. */
  lemma ArrowsStayInGallery(images: seq<string>, index: nat)
    requires Gallery(images, index).Slide?
    ensures Gallery(images, index).prevArrow ==> Gallery(images, index - 1).Slide?
    ensures Gallery(images, index).nextArrow ==> Gallery(images, index + 1).Slide?
    ensures Gallery(images, 0).Slide?
  {
  }

  // ---------------------------------------------------------------------
  // Page state and its handlers

  /** A response body after `res.json()`: an array, some other JSON value, or a thrown error. */
  datatype Json<T> = Items(items: seq<T>) | NotArray | Threw

  /** The request a review submission sends. */
  datatype ReviewRequest =
    | UpdateReview(reviewId: string, reviewerId: Option<string>, form: ReviewData)
    | CreateReview(bookingId: string, reviewerId: Option<string>, revieweeId: string, form: ReviewData)

  /**
   * A review submission in flight: its request, and the values of
   * `isEditing` and `reviewingBooking` its handler captured.
   */
  datatype ReviewSubmission = ReviewSubmission(request: ReviewRequest, wasEditing: bool, booking: Booking)

  class Page {
    const user: Option<User>

    var bookings: seq<Booking>
    var loading: bool
    var selected: Option<Booking>
    /** The image URLs of the listing on display, or None while there is no listing. */
    var listing: Option<seq<string>>
    /** Whether the listing's host record has arrived. */
    var host: bool
    var imageIndex: nat

    var showReviewPopup: bool
    var step: int
    var review: ReviewData
    var reviewing: Option<Booking>
    var existingReview: Option<Review>
    var isEditing: bool
    var reviewed: set<string>

    var showCancellationForm: bool
    var cancelling: Option<Booking>

    /** The wizard is on one of its six steps. */
    ghost predicate Valid()
      reads this
    {
      0 <= step <= CommentStep
    }

    constructor (user: Option<User>)
      ensures Valid() && this.user == user
      ensures bookings == [] && loading && selected == None && listing == None && !host && imageIndex == 0
      ensures !showReviewPopup && step == 0 && review == BlankReview && reviewing == None
      ensures existingReview == None && !isEditing && reviewed == {}
      ensures !showCancellationForm && cancelling == None
    {
      this.user := user;
      bookings, loading, selected, listing, host, imageIndex := [], true, None, None, false, 0;
      showReviewPopup, step, review, reviewing := false, 0, BlankReview, None;
      existingReview, isEditing, reviewed := None, false, {};
      showCancellationForm, cancelling := false, None;
    }

    /** The bookings effect settles: an array is taken as the list, anything else empties it. */
    method BookingsLoaded(body: Json<Booking>)
      requires Valid()
      modifies this`bookings, this`loading
      ensures Valid()
      ensures !Truthy(UserId(user)) ==> bookings == old(bookings) && loading == old(loading)
      ensures Truthy(UserId(user)) ==> !loading && bookings == (if body.Items? then body.items else [])
    {
      if !Truthy(UserId(user)) {
        return;
      }
      bookings := if body.Items? then body.items else [];
      loading := false;
    }

    /**
     * The reviews effect settles: an array yields the ids of the bookings
     * this user reviewed, another JSON value changes nothing, an error
     * empties the set.
     */
    method ReviewsLoaded(body: Json<Review>)
      requires Valid()
      modifies this`reviewed
      ensures Valid()
      ensures !Truthy(UserId(user)) || body.NotArray? ==> reviewed == old(reviewed)
      ensures Truthy(UserId(user)) && body.Threw? ==> reviewed == {}
      ensures Truthy(UserId(user)) && body.Items? ==>
                forall id :: id in reviewed <==>
                  exists rv :: rv in body.items && Some(rv.reviewerId) == UserId(user) && rv.bookingId == id
    {
      if !Truthy(UserId(user)) {
        return;
      }
      match body {
        case Items(rs) =>
          reviewed := ReviewedBookings(rs, UserId(user).value);
        case NotArray =>
        case Threw =>
          reviewed := {};
      }
    }

    /**
     * Clicking a booking in the sidebar, with the two effects that depend
     * on the selection: a change of selection puts the gallery back on the
     * first image, and clearing the selection drops listing and host.
     */
    method Select(b: Option<Booking>)
      requires Valid()
      modifies this`selected, this`imageIndex, this`listing, this`host
      ensures Valid() && selected == b
      ensures b != old(selected) ==> imageIndex == 0
      ensures b == old(selected) ==> imageIndex == old(imageIndex)
      ensures b.None? && b != old(selected) ==> listing == None && !host
      ensures !(b.None? && b != old(selected)) ==> listing == old(listing) && host == old(host)
    {
      if b != selected {
        imageIndex := 0;
        if b.None? {
          listing, host := None, false;
        }
      }
      selected := b;
    }

    /**
     * The listing request of the selection settles: the listing arrives
     * (its image URLs) or fails (None, which also drops the host). The
     * gallery index is left where it was.
     */
    method ListingLoaded(urls: Option<seq<string>>)
      requires Valid()
      modifies this`listing, this`host
      ensures Valid() && listing == urls && imageIndex == old(imageIndex)
      ensures urls.None? ==> !host
      ensures urls.Some? ==> host == old(host)
    {
      listing := urls;
      if urls.None? {
        host := false;
      }
    }

    /** The host request settles: the host record arrives, or there is none (no `user_id`, or an error). */
    method HostLoaded(present: bool)
      requires Valid()
      modifies this`host
      ensures Valid() && host == present
    {
      host := present;
    }

    /** The right-hand panel (gallery, booking details, "Cancel Booking") is rendered only with a selection, its listing and its host. */
    predicate DetailsShown()
      reads this
    {
      selected.Some? && listing.Some? && host
    }

    /**
     * The gallery as it renders now: the stock photo for a listing without
     * images, otherwise the current image, which renders exactly when the
     * index is within the listing's images.
     */
    function View(): (g: GalleryView)
      reads this
      requires DetailsShown()
      ensures g == Placeholder <==> listing.value == []
      ensures g.Slide? <==> imageIndex < |listing.value|
    {
      Gallery(listing.value, imageIndex)
    }

    /** The "<" arrow, present only on a slide that shows it. */
    method PrevImage()
      requires Valid() && DetailsShown() && View().Slide? && View().prevArrow
      modifies this`imageIndex
      ensures Valid() && imageIndex == old(imageIndex) - 1
      ensures DetailsShown() && View().Slide?
    {
      var images, i := listing.value, imageIndex;
      ArrowsStayInGallery(images, i);
      assert 0 < i && Gallery(images, i - 1).Slide?;
      imageIndex := i - 1;
    }

    /** The ">" arrow, present only on a slide that shows it. */
    method NextImage()
      requires Valid() && DetailsShown() && View().Slide? && View().nextArrow
      modifies this`imageIndex
      ensures Valid() && imageIndex == old(imageIndex) + 1
      ensures DetailsShown() && View().Slide?
    {
      var images, i := listing.value, imageIndex;
      ArrowsStayInGallery(images, i);
      assert i + 1 < |images| && Gallery(images, i + 1).Slide?;
      imageIndex := i + 1;
    }

    /**
     * `openReviewPopup` up to its request: the wizard opens on its first
     * step for `b`, not in edit mode; the form keeps whatever it held. The
     * review lookup is issued (`lookup`) exactly when there is a user.
     */
    method BeginOpenReview(b: Booking) returns (lookup: bool)
      requires Valid()
      modifies this`reviewing, this`showReviewPopup, this`step, this`isEditing, this`existingReview
      ensures Valid()
      ensures reviewing == Some(b) && showReviewPopup && step == 0 && !isEditing && existingReview == None
      ensures lookup <==> user.Some?
    {
      reviewing := Some(b);
      showReviewPopup := true;
      step := 0;
      isEditing := false;
      existingReview := None;
      lookup := user.Some?;
    }

    /**
     * The review lookup for booking `b` settles. A review of `b` by the
     * user about its host is loaded for editing; no match, or a body that
     * is not an array, blanks the form; a thrown error blanks it too; a
     * non-ok response changes nothing. The step is left where it is, so
     * star clicks made while the lookup was in flight are overwritten.
     */
    method FinishOpenReview(b: Booking, ok: bool, body: Json<Review>)
      requires Valid()
      modifies this`isEditing, this`existingReview, this`review
      ensures Valid()
      ensures body.Threw? ==> isEditing == old(isEditing) && existingReview == old(existingReview) && review == BlankReview
      ensures !body.Threw? && !ok ==> isEditing == old(isEditing) && existingReview == old(existingReview) && review == old(review)
      ensures ok && body.NotArray? ==> isEditing == old(isEditing) && existingReview == old(existingReview) && review == BlankReview
      ensures ok && body.Items? && FindReview(body.items, b, UserId(user)).None? ==>
                isEditing == old(isEditing) && existingReview == old(existingReview) && review == BlankReview
      ensures ok && body.Items? && FindReview(body.items, b, UserId(user)).Some? ==>
                existingReview == FindReview(body.items, b, UserId(user)) && isEditing
                && review == FormOf(existingReview.value)
    {
      match body {
        case Threw =>
          review := BlankReview;
        case NotArray =>
          if ok {
            review := BlankReview;
          }
        case Items(rs) =>
          if ok {
            var found := FindReview(rs, b, UserId(user));
            if found.Some? {
              existingReview := found;
              isEditing := true;
              review := FormOf(found.value);
            } else {
              review := BlankReview;
            }
          }
      }
    }

    /** A star click on a rating step (the stars are shown only before the comment step). */
    method ReviewStep(rating: int)
      requires Valid() && step < RatingSteps
      modifies this`step, this`review
      ensures Valid()
      ensures (step, review) == Rate(old(step), old(review), rating)
    {
      review := WithRating(review, step, rating);
      if step < RatingSteps - 1 {
        step := step + 1;
      } else {
        step := CommentStep;
      }
    }

    /** "Back": one step back, never before the first. */
    method BackStep()
      requires Valid()
      modifies this`step
      ensures Valid()
      ensures step == if old(step) > 0 then old(step) - 1 else 0
    {
      if step > 0 {
        step := step - 1;
      }
    }

    /** Typing in the comment box. */
    method EditComment(text: string)
      requires Valid()
      modifies this`review
      ensures Valid() && review == old(review).(comment := text)
    {
      review := review.(comment := text);
    }

    /**
     * `handleSubmitReview` up to its request, which changes no state (the
     * button stays enabled, so every click sends). Without a booking under
     * review or a user nothing is sent. In edit mode with an existing review
     * that review is updated; otherwise a review of the booking's host is
     * created. Either request carries the user's id and the current form.
     */
    method BeginSubmitReview() returns (sub: Option<ReviewSubmission>)
      ensures sub.None? <==> reviewing.None? || user.None?
      ensures sub.Some? ==> sub.value.booking == reviewing.value && sub.value.wasEditing == isEditing
      ensures sub.Some? && isEditing && existingReview.Some? ==>
                sub.value.request == UpdateReview(existingReview.value.id, user.value.id, review)
      ensures sub.Some? && !(isEditing && existingReview.Some?) ==>
                sub.value.request == CreateReview(reviewing.value.id, user.value.id, reviewing.value.hostId, review)
    {
      if reviewing.None? || user.None? {
        return None;
      }
      var request;
      if isEditing && existingReview.Some? {
        request := UpdateReview(existingReview.value.id, user.value.id, review);
      } else {
        request := CreateReview(reviewing.value.id, user.value.id, reviewing.value.hostId, review);
      }
      sub := Some(ReviewSubmission(request, isEditing, reviewing.value));
    }

    /**
     * A review submission settles. On success the wizard closes and resets
     * to a blank first step, and a new review (not an edit, as captured)
     * adds its booking to the reviewed set. A failure changes nothing.
     */
    method FinishSubmitReview(sub: ReviewSubmission, ok: bool)
      requires Valid()
      modifies this`showReviewPopup, this`step, this`review, this`reviewing, this`existingReview,
               this`isEditing, this`reviewed
      ensures Valid()
      ensures !ok ==> unchanged(this)
      ensures ok ==>
                !showReviewPopup && step == 0 && review == BlankReview && reviewing == None
                && existingReview == None && !isEditing
                && reviewed == old(reviewed) + (if sub.wasEditing then {} else {sub.booking.id})
    {
      if ok {
        showReviewPopup := false;
        step := 0;
        review := BlankReview;
        reviewing := None;
        existingReview := None;
        isEditing := false;
        if !sub.wasEditing {
          reviewed := reviewed + {sub.booking.id};
        }
      }
    }

    /** "Cancel Booking", shown only in the details panel of a confirmed selection, opens the cancellation form for it. */
    method CancelSelected()
      requires Valid() && DetailsShown() && selected.value.status == "confirmed"
      modifies this`cancelling, this`showCancellationForm
      ensures Valid() && cancelling == selected && showCancellationForm
    {
      cancelling := selected;
      showCancellationForm := true;
    }

    /**
     * `handleCancellationSubmit`. With a booking being cancelled, the
     * request is sent for its id; on success exactly the bookings with
     * that id become cancelled, the selection is cleared if it was that
     * booking (which puts the gallery back on image 0 and drops listing
     * and host), and the form closes. A failure changes nothing.
     */
    method SubmitCancellation(ok: bool) returns (requested: Option<string>)
      requires Valid()
      modifies this`bookings, this`selected, this`imageIndex, this`listing, this`host,
               this`showCancellationForm, this`cancelling
      ensures Valid()
      ensures requested == (if old(cancelling).Some? then Some(old(cancelling).value.id) else None)
      ensures requested.None? || !ok ==> unchanged(this)
      ensures requested.Some? && ok ==>
                && bookings == CancelLocally(old(bookings), requested.value)
                && !showCancellationForm && cancelling == None
      ensures requested.Some? && ok && old(selected).Some? && old(selected).value.id == requested.value ==>
                selected == None && imageIndex == 0 && listing == None && !host
      ensures requested.Some? && ok && !(old(selected).Some? && old(selected).value.id == requested.value) ==>
                selected == old(selected) && imageIndex == old(imageIndex)
                && listing == old(listing) && host == old(host)
    {
      if cancelling.None? {
        return None;
      }
      var id := cancelling.value.id;
      requested := Some(id);
      if ok {
        bookings := CancelLocally(bookings, id);
        if selected.Some? && selected.value.id == id {
          Select(None);
        }
        showCancellationForm := false;
        cancelling := None;
      }
    }

    /** Closing the cancellation form. */
    method CloseCancellation()
      requires Valid()
      modifies this`showCancellationForm, this`cancelling
      ensures Valid() && !showCancellationForm && cancelling == None
    {
      showCancellationForm := false;
      cancelling := None;
    }
  }
}
