/** The `ReviewStats` value object: three bounds checks, then an immutable record. */
module ReviewStatistics {
  import opened Wrappers
  import opened Numerics
  import opened Guids
  import opened Reviews

  /** The average is a `double` in the source; it is a `real` here. */
  datatype ReviewStats = ReviewStats(productId: Guid, averageRating: real, reviewCount: int32)

  predicate InRange(s: ReviewStats) {
    s.productId != EmptyGuid && 0.0 <= s.averageRating <= 5.0 && s.reviewCount >= 0
  }

  /** `new ReviewStats(...)`: productId, averageRating and reviewCount are checked
      in that order; nothing ties the average to the count. */
  function NewReviewStats(productId: Guid, averageRating: real, reviewCount: int32): (r: Result<ReviewStats, DomainError>)
    ensures r.Ok? <==> productId != EmptyGuid && 0.0 <= averageRating <= 5.0 && reviewCount >= 0
    ensures productId == EmptyGuid ==> r == Err(ArgumentException("productId"))
    ensures productId != EmptyGuid && !(0.0 <= averageRating <= 5.0) ==>
      r == Err(ArgumentOutOfRangeException("averageRating"))
    ensures productId != EmptyGuid && 0.0 <= averageRating <= 5.0 && reviewCount < 0 ==>
      r == Err(ArgumentOutOfRangeException("reviewCount"))
    ensures r.Ok? ==> r.value.productId == productId && r.value.averageRating == averageRating
                      && r.value.reviewCount == reviewCount && InRange(r.value)
  {
    if productId == EmptyGuid then Err(ArgumentException("productId"))
    else if averageRating < 0.0 || averageRating > 5.0 then Err(ArgumentOutOfRangeException("averageRating"))
    else if reviewCount < 0 then Err(ArgumentOutOfRangeException("reviewCount"))
    else Ok(ReviewStats(productId, averageRating, reviewCount))
  }

  /** Record equality: stats built from equal arguments are equal, and stats
      that are equal were built from equal arguments. */
  lemma StatsEqualityIsStructural(p1: Guid, a1: real, c1: int32, p2: Guid, a2: real, c2: int32)
    requires NewReviewStats(p1, a1, c1).Ok? && NewReviewStats(p2, a2, c2).Ok?
    ensures NewReviewStats(p1, a1, c1) == NewReviewStats(p2, a2, c2) <==> p1 == p2 && a1 == a2 && c1 == c2
  {
  }

  /** The average and the count are checked independently: for example a
      non-zero average with a count of zero is accepted. */
  lemma AverageNotTiedToCount(productId: Guid)
    requires productId != EmptyGuid
    ensures NewReviewStats(productId, 4.5, 0).Ok?
    ensures NewReviewStats(productId, 0.0, 7).Ok?
    ensures NewReviewStats(productId, 5.0, 0).Ok?
  {
  }
}
