/** `MockReviewService`: the deterministic fallback that synthesises a product's
    reviews and their statistics from the product id alone. */
module MockReviews {
  import opened Wrappers
  import opened Numerics
  import opened Text
  import opened Guids
  import opened Reviews
  import opened ReviewStatistics

  /** A value of `Random.Sample()`, in [0, 1). */
  type Sample = r: real | 0.0 <= r < 1.0

  /** What the runtime supplies and this model does not compute. */
  datatype Ambient = Ambient(
    hashOf: Guid -> int32,            // Guid.GetHashCode(), fixed for the process
    sample: (int32, nat) -> Sample,   // the k-th Sample() of new Random(seed)
    clock: nat -> DateTime,           // the k-th read of DateTime.UtcNow
    newGuid: nat -> Guid)             // the k-th Guid.NewGuid()

  /** A product's reviews with their statistics. */
  datatype ProductReviews = ProductReviews(reviews: seq<Review>, stats: ReviewStats)

  const CustomerNames: seq<string> :=
    ["John Doe", "Jane Smith", "Bob Johnson", "Alice Brown", "Charlie Davis"]

  const ReviewContents: seq<string> := [
    "I've been using this for weeks and it's fantastic.",
    "Exactly what I was looking for. High quality.",
    "The product is decent but shipping took too long.",
    "Works as advertised, very happy with my purchase.",
    "Good value for the money, would buy again."]

  /** `Random.Next(lo, hi)` of the seeded generator: `lo + (int)(Sample() * (hi - lo))`. */
  function Next(s: Sample, lo: int, hi: int): (r: int)
    requires lo < hi
    ensures lo <= r < hi
  {
    var n := hi - lo;
    assert s * n as real < n as real by {
      assert (1.0 - s) * n as real > 0.0;
    }
    lo + (s * n as real).Floor
  }

  /** The rating a roll in 1..100 stands for. */
  function RatingFor(roll: int): (r: int32)
    ensures ValidRating(r)
  {
    if roll <= 10 then 1
    else if roll <= 25 then 2
    else if roll <= 50 then 3
    else if roll <= 80 then 4
    else 5
  }

  /** The title of the i-th generated review (counting from 0). */
  function Title(i: nat): string {
    "Sample Review: " + IntString(i + 1) + " for Product"
  }

  /** The i-th review the loop of `GenerateMockReviews` builds, before sorting.
      Each iteration draws four samples from the product's seeded generator, in
      this order: the day offset, the rating roll, the name and the content. */
  function MockReview(productId: Guid, i: nat, amb: Ambient): Review {
    var seed := amb.hashOf(productId);
    var dayOffset := Next(amb.sample(seed, 4 * i), 1, 31);
    var ratingBase := Next(amb.sample(seed, 4 * i + 1), 1, 101);
    var customerName := CustomerNames[Next(amb.sample(seed, 4 * i + 2), 0, |CustomerNames|)];
    var content := ReviewContents[Next(amb.sample(seed, 4 * i + 3), 0, |ReviewContents|)];
    Review(amb.newGuid(i), productId, customerName, Title(i), content,
           RatingFor(ratingBase), AddDays(amb.clock(i), -dayOffset), Approved)
  }

  /** The first `count` reviews the loop builds, in the order it builds them. */
  function GeneratedReviews(productId: Guid, count: nat, amb: Ambient): (rs: seq<Review>)
    ensures |rs| == count
    ensures forall k :: 0 <= k < count ==> rs[k] == MockReview(productId, k, amb)
  {
    if count == 0 then []
    else GeneratedReviews(productId, count - 1, amb) + [MockReview(productId, count - 1, amb)]
  }

  // ----- OrderByDescending(r => r.CreatedAt): a stable sort -----

  predicate SortedByCreatedAtDescending(rs: seq<Review>) {
    forall i, j :: 0 <= i < j < |rs| ==> rs[i].createdAt >= rs[j].createdAt
  }

  /** Puts `r` before the first element that is not newer than it. */
  function InsertByCreatedAt(r: Review, rs: seq<Review>): seq<Review> {
    if rs == [] || r.createdAt >= rs[0].createdAt then [r] + rs
    else [rs[0]] + InsertByCreatedAt(r, rs[1..])
  }

  function OrderByCreatedAtDescending(rs: seq<Review>): seq<Review> {
    if rs == [] then [] else InsertByCreatedAt(rs[0], OrderByCreatedAtDescending(rs[1..]))
  }

  /** A review no older than the head of a sorted list can go in front of it. */
  lemma ConsSorted(r: Review, rs: seq<Review>)
    requires SortedByCreatedAtDescending(rs)
    requires rs != [] ==> r.createdAt >= rs[0].createdAt
    ensures SortedByCreatedAtDescending([r] + rs)
  {
    var out := [r] + rs;
    forall i, j | 0 <= i < j < |out| ensures out[i].createdAt >= out[j].createdAt {
      if i == 0 && j > 1 {
        assert rs[0].createdAt >= rs[j - 1].createdAt;
      }
    }
  }

  lemma {:induction false} InsertByCreatedAtSorted(r: Review, rs: seq<Review>)
    requires SortedByCreatedAtDescending(rs)
    ensures SortedByCreatedAtDescending(InsertByCreatedAt(r, rs))
    ensures multiset(InsertByCreatedAt(r, rs)) == multiset{r} + multiset(rs)
    ensures InsertByCreatedAt(r, rs)[0] == r || InsertByCreatedAt(r, rs)[0] == rs[0]
  {
    if rs == [] || r.createdAt >= rs[0].createdAt {
      ConsSorted(r, rs);
    } else {
      var tail := InsertByCreatedAt(r, rs[1..]);
      InsertByCreatedAtSorted(r, rs[1..]);
      assert rs == [rs[0]] + rs[1..];
      assert tail[0] == r || tail[0] == rs[1];
      ConsSorted(rs[0], tail);
    }
  }

  /** The sort returns its input reordered, newest first. */
  lemma {:induction false} OrderByCreatedAtDescendingCorrect(rs: seq<Review>)
    ensures SortedByCreatedAtDescending(OrderByCreatedAtDescending(rs))
    ensures multiset(OrderByCreatedAtDescending(rs)) == multiset(rs)
  {
    if rs != [] {
      OrderByCreatedAtDescendingCorrect(rs[1..]);
      InsertByCreatedAtSorted(rs[0], OrderByCreatedAtDescending(rs[1..]));
      assert rs == [rs[0]] + rs[1..];
    }
  }

  // ----- Statistics -----

  function SumRatings(rs: seq<Review>): int {
    if rs == [] then 0 else rs[0].rating + SumRatings(rs[1..])
  }

  /** `Math.Round(reviews.Average(r => r.Rating), 1)`, or 0 for no reviews:
      the mean in tenths, a tie going to the even tenth. */
  function AverageRating(rs: seq<Review>): real {
    if rs == [] then 0.0 else RoundHalfEven(10 * SumRatings(rs), |rs|) as real / 10.0
  }

  /** The list `GenerateMockReviews` returns, or the exception it throws. Only
      the empty product id can make a generated review invalid. */
  function MockReviewsFor(productId: Guid, count: nat, amb: Ambient): Result<seq<Review>, DomainError> {
    if count > 0 && productId == EmptyGuid then Err(ArgumentException("productId"))
    else Ok(OrderByCreatedAtDescending(GeneratedReviews(productId, count, amb)))
  }

  /** `|GetHashCode() % 6|` with C#'s truncated remainder. */
  function ReviewCountFor(productId: Guid, amb: Ambient): (n: nat)
    ensures n <= 5
  {
    Abs(TruncRem(amb.hashOf(productId), 6))
  }

  /** What `GetProductReviews` returns, or the exception it throws. */
  function MockProductReviews(productId: Guid, amb: Ambient): Result<ProductReviews, DomainError> {
    var count := ReviewCountFor(productId, amb);
    match MockReviewsFor(productId, count, amb)
    case Err(e) => Err(e)
    case Ok(rs) =>
      match NewReviewStats(productId, AverageRating(rs), count)
      case Err(e) => Err(e)
      case Ok(stats) => Ok(ProductReviews(rs, stats))
  }

  // ----- The service's two operations -----

  /** The pools and the titles hold no blank strings, so a generated review can
      only be rejected for its product id. */
  lemma GeneratedFieldsNotBlank(i: nat, k: nat)
    requires k < 5
    ensures !IsNullOrWhiteSpace(Some(CustomerNames[k]))
    ensures !IsNullOrWhiteSpace(Some(ReviewContents[k]))
    ensures !IsNullOrWhiteSpace(Some(Title(i)))
  {
    assert !IsWhiteSpace(CustomerNames[k][0]);
    assert ReviewContents[k][|ReviewContents[k]| - 1] == '.';
    assert Title(i)[0] == 'S';
  }

  /** Constructing the i-th generated review fails exactly for the empty
      product id, and otherwise yields `MockReview(productId, i, amb)`. */
  lemma ConstructMockReview(productId: Guid, i: nat, amb: Ambient)
    ensures var m := MockReview(productId, i, amb);
      NewReview(m.id, productId, Some(m.customerName), Some(m.title), Some(m.content), m.rating, m.createdAt, Approved)
        == if productId == EmptyGuid then Err(ArgumentException("productId")) else Ok(m)
  {
    var seed := amb.hashOf(productId);
    GeneratedFieldsNotBlank(i, Next(amb.sample(seed, 4 * i + 2), 0, |CustomerNames|));
    GeneratedFieldsNotBlank(i, Next(amb.sample(seed, 4 * i + 3), 0, |ReviewContents|));
  }

  /** The i-th review is the one its four draws describe. */
  lemma MockReviewDraws(productId: Guid, i: nat, amb: Ambient, dayOffset: int, ratingBase: int, nameIndex: int, contentIndex: int)
    requires dayOffset == Next(amb.sample(amb.hashOf(productId), 4 * i), 1, 31)
    requires ratingBase == Next(amb.sample(amb.hashOf(productId), 4 * i + 1), 1, 101)
    requires nameIndex == Next(amb.sample(amb.hashOf(productId), 4 * i + 2), 0, |CustomerNames|)
    requires contentIndex == Next(amb.sample(amb.hashOf(productId), 4 * i + 3), 0, |ReviewContents|)
    ensures MockReview(productId, i, amb) ==
      Review(amb.newGuid(i), productId, CustomerNames[nameIndex], Title(i), ReviewContents[contentIndex],
             RatingFor(ratingBase), AddDays(amb.clock(i), -dayOffset), Approved)
  {
  }

  /** `GenerateMockReviews`: for each of `count` reviews, draw from the product's
      seeded generator, construct the review, then sort the list newest first. */
  method GenerateMockReviews(productId: Guid, count: nat, amb: Ambient) returns (r: Result<seq<Review>, DomainError>)
    ensures r == MockReviewsFor(productId, count, amb)
  {
    var reviews: seq<Review> := [];
    var productSeed := amb.hashOf(productId);
    // new Random(productSeed) has made four draws for each earlier review
    for i := 0 to count
      invariant productId == EmptyGuid ==> i == 0
      invariant reviews == GeneratedReviews(productId, i, amb)
    {
      var dayOffset := Next(amb.sample(productSeed, 4 * i), 1, 31);
      var createdAt := AddDays(amb.clock(i), -dayOffset);

      var ratingBase := Next(amb.sample(productSeed, 4 * i + 1), 1, 101);
      var rating := RatingFor(ratingBase);

      var title := Title(i);
      var nameIndex := Next(amb.sample(productSeed, 4 * i + 2), 0, |CustomerNames|);
      var contentIndex := Next(amb.sample(productSeed, 4 * i + 3), 0, |ReviewContents|);

      var made := NewReview(amb.newGuid(i), productId, Some(CustomerNames[nameIndex]), Some(title),
                            Some(ReviewContents[contentIndex]), rating, createdAt, Approved);
      ghost var m := MockReview(productId, i, amb);
      assert made == if productId == EmptyGuid then Err(ArgumentException("productId")) else Ok(m) by {
        MockReviewDraws(productId, i, amb, dayOffset, ratingBase, nameIndex, contentIndex);
        ConstructMockReview(productId, i, amb);
      }
      if made.Err? {
        return Err(made.error);
      }
      reviews := reviews + [made.value];
    }
    return Ok(OrderByCreatedAtDescending(reviews));
  }

  /** `GetProductReviews`: the count comes from the product's hash, the reviews
      from `GenerateMockReviews`, the average from the reviews. */
  method GetProductReviews(productId: Guid, amb: Ambient) returns (r: Result<ProductReviews, DomainError>)
    ensures r == MockProductReviews(productId, amb)
  {
    var productIdHash := amb.hashOf(productId);
    var reviewCount := Abs(TruncRem(productIdHash, 6));
    var generated := GenerateMockReviews(productId, reviewCount, amb);
    if generated.Err? {
      return Err(generated.error);
    }
    var reviews := generated.value;
    var averageRating := if |reviews| > 0 then RoundHalfEven(10 * SumRatings(reviews), |reviews|) as real / 10.0 else 0.0;
    var stats := NewReviewStats(productId, averageRating, reviewCount);
    if stats.Err? {
      return Err(stats.error);
    }
    return Ok(ProductReviews(reviews, stats.value));
  }
}

/** What the fallback promises about the reviews and statistics it synthesises. */
module MockReviewProperties {
  import opened Wrappers
  import opened Numerics
  import opened Text
  import opened Guids
  import opened Reviews
  import opened ReviewStatistics
  import opened MockReviews

  // ----- The rating table -----

  /** The integers lo..hi. */
  function RangeSet(lo: int, hi: int): (r: set<int>)
    ensures forall x :: x in r <==> lo <= x <= hi
    decreases hi - lo
  {
    if lo > hi then {} else RangeSet(lo, hi - 1) + {hi}
  }

  lemma {:induction false} RangeSetSize(lo: int, hi: int)
    requires lo <= hi + 1
    ensures |RangeSet(lo, hi)| == hi - lo + 1
    decreases hi - lo
  {
    if lo <= hi {
      RangeSetSize(lo, hi - 1);
      assert hi !in RangeSet(lo, hi - 1);
    }
  }

  /** How many of the hundred rolls give each rating: 10, 15, 25, 30 and 20. */
  function Weight(rating: int): nat {
    if rating == 1 then 10
    else if rating == 2 then 15
    else if rating == 3 then 25
    else if rating == 4 then 30
    else if rating == 5 then 20
    else 0
  }

  /** The rolls 1..100 are split among the five ratings in the proportions
      10% / 15% / 25% / 30% / 20%, skewed toward the positive end. */
  lemma RatingDistribution(rating: int)
    requires 1 <= rating <= 5
    ensures |set roll | 1 <= roll <= 100 && RatingFor(roll) == rating| == Weight(rating)
  {
    var rolls := set roll | 1 <= roll <= 100 && RatingFor(roll) == rating;
    var lo, hi :=
      if rating == 1 then 1 else if rating == 2 then 11 else if rating == 3 then 26 else if rating == 4 then 51 else 81,
      if rating == 1 then 10 else if rating == 2 then 25 else if rating == 3 then 50 else if rating == 4 then 80 else 100;
    assert rolls == RangeSet(lo, hi);
    RangeSetSize(lo, hi);
  }

  /** A higher roll never gives a lower rating. */
  lemma RatingIsMonotone(a: int, b: int)
    requires a <= b
    ensures RatingFor(a) <= RatingFor(b)
  {
  }

  // ----- One generated review -----

  /** Each title names its position: different positions have different titles. */
  lemma TitlesAreDistinct(i: nat, j: nat)
    requires Title(i) == Title(j)
    ensures i == j
  {
    var ti, tj := Title(i), Title(j);
    assert ti[15..|ti| - 12] == IntString(i + 1);
    assert tj[15..|tj| - 12] == IntString(j + 1);
    IntStringInjective(i + 1, j + 1);
  }

  /** The i-th generated review: the requested product, status Approved, a
      rating in 1..5, a name and a content from the fixed pools, the i-th
      sequential title, the i-th fresh id, and a creation time a whole number
      of days (1 to 30) before the i-th clock reading. */
  lemma MockReviewFacts(productId: Guid, i: nat, amb: Ambient)
    ensures var r := MockReview(productId, i, amb);
      && r.productId == productId && r.status == Approved && ValidRating(r.rating)
      && r.customerName in CustomerNames && r.content in ReviewContents
      && r.title == Title(i) && r.id == amb.newGuid(i)
      && AddDays(amb.clock(i), -30) <= r.createdAt <= AddDays(amb.clock(i), -1)
      && (amb.clock(i) - r.createdAt) % TicksPerDay == 0
      && (productId != EmptyGuid ==> WellFormed(r))
  {
    MockReviewTime(productId, i, amb);
    var seed := amb.hashOf(productId);
    var nameIndex := Next(amb.sample(seed, 4 * i + 2), 0, |CustomerNames|);
    var contentIndex := Next(amb.sample(seed, 4 * i + 3), 0, |ReviewContents|);
    GeneratedFieldsNotBlank(i, nameIndex);
    GeneratedFieldsNotBlank(i, contentIndex);
  }

  lemma MockReviewTime(productId: Guid, i: nat, amb: Ambient)
    ensures var r := MockReview(productId, i, amb);
      && AddDays(amb.clock(i), -30) <= r.createdAt <= AddDays(amb.clock(i), -1)
      && (amb.clock(i) - r.createdAt) % TicksPerDay == 0
  {
    var seed := amb.hashOf(productId);
    var d := Next(amb.sample(seed, 4 * i), 1, 31);
    var now := amb.clock(i);
    assert MockReview(productId, i, amb).createdAt == now - d * TicksPerDay;
    assert (now - (now - d * TicksPerDay)) == d * TicksPerDay;
  }

  // ----- Sorting keeps ratings and contents -----

  /** The parts of a review that do not depend on the clock or on fresh GUIDs. */
  datatype Gist = Gist(rating: int, customerName: string, title: string, content: string)

  function GistOf(r: Review): Gist {
    Gist(r.rating, r.customerName, r.title, r.content)
  }

  function Gists(rs: seq<Review>): (gs: seq<Gist>)
    ensures |gs| == |rs|
  {
    if rs == [] then [] else [GistOf(rs[0])] + Gists(rs[1..])
  }

  lemma {:induction false} InsertKeepsGistsAndSum(r: Review, rs: seq<Review>)
    ensures multiset(Gists(InsertByCreatedAt(r, rs))) == multiset{GistOf(r)} + multiset(Gists(rs))
    ensures SumRatings(InsertByCreatedAt(r, rs)) == r.rating + SumRatings(rs)
    ensures |InsertByCreatedAt(r, rs)| == |rs| + 1
  {
    if rs == [] || r.createdAt >= rs[0].createdAt {
      assert ([r] + rs)[1..] == rs;
    } else {
      InsertKeepsGistsAndSum(r, rs[1..]);
      var tail := InsertByCreatedAt(r, rs[1..]);
      assert ([rs[0]] + tail)[1..] == tail;
    }
  }

  lemma {:induction false} OrderKeepsGistsAndSum(rs: seq<Review>)
    ensures multiset(Gists(OrderByCreatedAtDescending(rs))) == multiset(Gists(rs))
    ensures SumRatings(OrderByCreatedAtDescending(rs)) == SumRatings(rs)
    ensures |OrderByCreatedAtDescending(rs)| == |rs|
  {
    if rs != [] {
      OrderKeepsGistsAndSum(rs[1..]);
      InsertKeepsGistsAndSum(rs[0], OrderByCreatedAtDescending(rs[1..]));
    }
  }

  lemma {:induction false} SameGistsSameSum(a: seq<Review>, b: seq<Review>)
    requires Gists(a) == Gists(b)
    ensures SumRatings(a) == SumRatings(b)
  {
    if a != [] {
      assert Gists(a)[0] == Gists(b)[0];
      assert Gists(a[1..]) == Gists(a)[1..] && Gists(b[1..]) == Gists(b)[1..];
      SameGistsSameSum(a[1..], b[1..]);
    }
  }

  lemma {:induction false} SumBounds(rs: seq<Review>)
    requires forall k :: 0 <= k < |rs| ==> ValidRating(rs[k].rating)
    ensures |rs| <= SumRatings(rs) <= 5 * |rs|
  {
    if rs != [] {
      SumBounds(rs[1..]);
    }
  }

  lemma ScaleMonotone(n: int, a: int, b: int)
    requires n >= 0 && a <= b
    ensures n * a <= n * b
  {
  }

  /** The rounded mean of ratings in 1..5 is itself in 1..5. */
  lemma RoundedMeanInRange(sum: int, n: int)
    requires n > 0 && n <= sum <= 5 * n
    ensures 10 <= RoundHalfEven(10 * sum, n) <= 50
  {
    var r := RoundHalfEven(10 * sum, n);
    if r < 10 {
      ScaleMonotone(n, 2 * r + 1, 19);
      assert false;
    }
    if r > 50 {
      ScaleMonotone(n, 101, 2 * r - 1);
      assert false;
    }
  }

  // ----- The whole fallback result -----

  /** The fallback fails only for the empty product id, and then with the
      product-id argument error (from the first review, or from the stats when
      the count is zero). */
  lemma MockFailsOnlyForEmptyProductId(productId: Guid, amb: Ambient)
    ensures MockProductReviews(productId, amb).Err? <==> productId == EmptyGuid
    ensures MockProductReviews(productId, amb).Err? ==>
      MockProductReviews(productId, amb).error == ArgumentException("productId")
  {
    var count := ReviewCountFor(productId, amb);
    if productId != EmptyGuid {
      var rs := OrderByCreatedAtDescending(GeneratedReviews(productId, count, amb));
      OrderByCreatedAtDescendingCorrect(GeneratedReviews(productId, count, amb));
      OrderKeepsGistsAndSum(GeneratedReviews(productId, count, amb));
      AverageInRange(productId, count, amb);
    }
  }

  lemma AverageInRange(productId: Guid, count: nat, amb: Ambient)
    ensures var rs := OrderByCreatedAtDescending(GeneratedReviews(productId, count, amb));
      && (count == 0 ==> AverageRating(rs) == 0.0)
      && (count > 0 ==> 1.0 <= AverageRating(rs) <= 5.0)
      && AverageRating(rs) == (if count == 0 then 0.0
           else RoundHalfEven(10 * SumRatings(GeneratedReviews(productId, count, amb)), count) as real / 10.0)
  {
    var gs := GeneratedReviews(productId, count, amb);
    OrderKeepsGistsAndSum(gs);
    if count > 0 {
      forall k | 0 <= k < count ensures ValidRating(gs[k].rating) {
        MockReviewFacts(productId, k, amb);
      }
      SumBounds(gs);
      RoundedMeanInRange(SumRatings(gs), count);
    }
  }

  /** For a non-empty product id the fallback returns between 0 and 5 reviews,
      newest first, which are exactly the generated reviews reordered; the
      stats carry the product id, the number of reviews, and the mean rating
      rounded to a tenth (0 when there are none, otherwise in 1..5). */
  lemma MockResultShape(productId: Guid, amb: Ambient)
    requires productId != EmptyGuid
    ensures MockProductReviews(productId, amb).Ok?
    ensures var res := MockProductReviews(productId, amb).value;
      var count := ReviewCountFor(productId, amb);
      var gs := GeneratedReviews(productId, count, amb);
      && count <= 5
      && |res.reviews| == count == res.stats.reviewCount
      && res.stats.productId == productId
      && SortedByCreatedAtDescending(res.reviews)
      && multiset(res.reviews) == multiset(gs)
      && (count == 0 ==> res.stats.averageRating == 0.0)
      && (count > 0 ==> 1.0 <= res.stats.averageRating <= 5.0)
      && (count > 0 ==> res.stats.averageRating == RoundHalfEven(10 * SumRatings(gs), count) as real / 10.0)
  {
    var count := ReviewCountFor(productId, amb);
    var gs := GeneratedReviews(productId, count, amb);
    OrderByCreatedAtDescendingCorrect(gs);
    OrderKeepsGistsAndSum(gs);
    AverageInRange(productId, count, amb);
  }

  /** Calls for the same product use the same hash and hence the same seeded
      draws: whatever the clock and the fresh GUIDs, they agree on success, on
      the stats, and on the ratings, names, titles and contents of the reviews. */
  lemma MockIsDeterministic(productId: Guid, amb1: Ambient, amb2: Ambient)
    requires amb1.hashOf(productId) == amb2.hashOf(productId)
    requires amb1.sample == amb2.sample
    ensures MockProductReviews(productId, amb1).Ok? == MockProductReviews(productId, amb2).Ok?
    ensures MockProductReviews(productId, amb1).Ok? ==>
      var r1, r2 := MockProductReviews(productId, amb1).value, MockProductReviews(productId, amb2).value;
      && r1.stats == r2.stats
      && multiset(Gists(r1.reviews)) == multiset(Gists(r2.reviews))
  {
    MockFailsOnlyForEmptyProductId(productId, amb1);
    MockFailsOnlyForEmptyProductId(productId, amb2);
    var count := ReviewCountFor(productId, amb1);
    assert count == ReviewCountFor(productId, amb2);
    var g1, g2 := GeneratedReviews(productId, count, amb1), GeneratedReviews(productId, count, amb2);
    GeneratedGistsAgree(productId, count, amb1, amb2);
    SameGistsSameSum(g1, g2);
    OrderKeepsGistsAndSum(g1);
    OrderKeepsGistsAndSum(g2);
  }

  lemma GeneratedGistsAgree(productId: Guid, count: nat, amb1: Ambient, amb2: Ambient)
    requires amb1.hashOf(productId) == amb2.hashOf(productId)
    requires amb1.sample == amb2.sample
    ensures Gists(GeneratedReviews(productId, count, amb1)) == Gists(GeneratedReviews(productId, count, amb2))
  {
    var g1, g2 := GeneratedReviews(productId, count, amb1), GeneratedReviews(productId, count, amb2);
    forall k | 0 <= k < count ensures GistOf(g1[k]) == GistOf(g2[k]) {
    }
    GistsPointwise(g1, g2);
  }

  lemma {:induction false} GistsPointwise(a: seq<Review>, b: seq<Review>)
    requires |a| == |b|
    requires forall k :: 0 <= k < |a| ==> GistOf(a[k]) == GistOf(b[k])
    ensures Gists(a) == Gists(b)
  {
    if a != [] {
      GistsPointwise(a[1..], b[1..]);
    }
  }
}
