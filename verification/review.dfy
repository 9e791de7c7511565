/** The `Review` entity: a constructor that checks its arguments in a fixed
    order and then stores them unchanged. */
module Reviews {
  import opened Wrappers
  import opened Numerics
  import opened Text
  import opened Guids

  datatype ReviewStatus = Pending | Approved | Rejected

  /** A `DateTime`, as its count of 100-nanosecond ticks. */
  type DateTime = int

  const TicksPerDay: int := 864_000_000_000

  /** `DateTime.AddDays(days)` for a whole number of days. */
  function AddDays(t: DateTime, days: int): DateTime {
    t + days * TicksPerDay
  }

  datatype Review = Review(
    id: Guid,
    productId: Guid,
    customerName: string,
    title: string,
    content: string,
    rating: int32,
    createdAt: DateTime,
    status: ReviewStatus)

  /** The exceptions the domain constructors throw, with the offending parameter's name. */
  datatype DomainError =
    | ArgumentException(paramName: string)
    | ArgumentOutOfRangeException(paramName: string)

  predicate ValidRating(rating: int) {
    1 <= rating <= 5
  }

  /** `new Review(...)`: productId, customerName, title, content and rating are
      checked in that order; the first failing check throws. A null string is
      `None`. */
  function NewReview(
    id: Guid,
    productId: Guid,
    customerName: Option<string>,
    title: Option<string>,
    content: Option<string>,
    rating: int32,
    createdAt: DateTime,
    status: ReviewStatus): (r: Result<Review, DomainError>)
    ensures r.Ok? <==>
      && productId != EmptyGuid
      && !IsNullOrWhiteSpace(customerName)
      && !IsNullOrWhiteSpace(title)
      && !IsNullOrWhiteSpace(content)
      && ValidRating(rating)
    ensures productId == EmptyGuid ==>
      r == Err(ArgumentException("productId"))
    ensures productId != EmptyGuid && IsNullOrWhiteSpace(customerName) ==>
      r == Err(ArgumentException("customerName"))
    ensures productId != EmptyGuid && !IsNullOrWhiteSpace(customerName) && IsNullOrWhiteSpace(title) ==>
      r == Err(ArgumentException("title"))
    ensures productId != EmptyGuid && !IsNullOrWhiteSpace(customerName) && !IsNullOrWhiteSpace(title)
            && IsNullOrWhiteSpace(content) ==>
      r == Err(ArgumentException("content"))
    ensures productId != EmptyGuid && !IsNullOrWhiteSpace(customerName) && !IsNullOrWhiteSpace(title)
            && !IsNullOrWhiteSpace(content) && !ValidRating(rating) ==>
      r == Err(ArgumentOutOfRangeException("rating"))
    ensures r.Ok? ==>
      && r.value.id == id && r.value.productId == productId
      && Some(r.value.customerName) == customerName
      && Some(r.value.title) == title
      && Some(r.value.content) == content
      && r.value.rating == rating && r.value.createdAt == createdAt && r.value.status == status
  {
    if productId == EmptyGuid then Err(ArgumentException("productId"))
    else if IsNullOrWhiteSpace(customerName) then Err(ArgumentException("customerName"))
    else if IsNullOrWhiteSpace(title) then Err(ArgumentException("title"))
    else if IsNullOrWhiteSpace(content) then Err(ArgumentException("content"))
    else if rating < 1 || rating > 5 then Err(ArgumentOutOfRangeException("rating"))
    else Ok(Review(id, productId, customerName.value, title.value, content.value, rating, createdAt, status))
  }

  /** The invariant every constructed review satisfies. */
  predicate WellFormed(r: Review) {
    && r.productId != EmptyGuid
    && !IsNullOrWhiteSpace(Some(r.customerName))
    && !IsNullOrWhiteSpace(Some(r.title))
    && !IsNullOrWhiteSpace(Some(r.content))
    && ValidRating(r.rating)
  }

  /** Entity identity: two reviews are the same entity when their ids are equal. */
  predicate SameEntity(a: Review, b: Review) {
    a.id == b.id
  }

  /** Every review the constructor returns is well formed, and it is the one
      review with those fields: reconstructing it from its own fields gives it back. */
  lemma ConstructedReviewsAreWellFormed(
    id: Guid, productId: Guid, customerName: Option<string>, title: Option<string>,
    content: Option<string>, rating: int32, createdAt: DateTime, status: ReviewStatus)
    requires NewReview(id, productId, customerName, title, content, rating, createdAt, status).Ok?
    ensures var r := NewReview(id, productId, customerName, title, content, rating, createdAt, status).value;
      && WellFormed(r)
      && NewReview(r.id, r.productId, Some(r.customerName), Some(r.title), Some(r.content),
                   r.rating, r.createdAt, r.status) == Ok(r)
  {
  }

  /** Reviews built with the same id are the same entity whatever their other
      fields; reviews built with different ids are not. */
  lemma EntityEqualityIsById(
    id1: Guid, productId1: Guid, name1: Option<string>, title1: Option<string>,
    content1: Option<string>, rating1: int32, createdAt1: DateTime, status1: ReviewStatus,
    id2: Guid, productId2: Guid, name2: Option<string>, title2: Option<string>,
    content2: Option<string>, rating2: int32, createdAt2: DateTime, status2: ReviewStatus)
    requires NewReview(id1, productId1, name1, title1, content1, rating1, createdAt1, status1).Ok?
    requires NewReview(id2, productId2, name2, title2, content2, rating2, createdAt2, status2).Ok?
    ensures SameEntity(
              NewReview(id1, productId1, name1, title1, content1, rating1, createdAt1, status1).value,
              NewReview(id2, productId2, name2, title2, content2, rating2, createdAt2, status2).value)
            <==> id1 == id2
  {
  }
}
