/** `ExternalReviewRepository`: fetch a product's reviews from the external
    review API through a circuit breaker, map the answer onto the domain, and
    fall back to the mock service for the whole batch on any failure. */
module ExternalReviews {
  import opened Wrappers
  import opened Numerics
  import opened Text
  import opened Guids
  import opened Reviews
  import opened ReviewStatistics
  import opened MockReviews

  /** One review as the API sends it; a null string is `None`. A missing
      rating arrives as the `int` default, 0. */
  datatype ReviewDto = ReviewDto(
    id: Option<string>,
    customerName: Option<string>,
    title: Option<string>,
    content: Option<string>,
    rating: int32,
    createdAt: DateTime,
    status: Option<string>)

  datatype StatsDto = StatsDto(averageRating: real, reviewCount: int32)

  /** The group-reviews answer: both parts may be missing, and so may any
      element of the review list. */
  datatype GroupResponse = GroupResponse(reviews: Option<seq<Option<ReviewDto>>>, stats: Option<StatsDto>)

  /** The exceptions the API client can throw. */
  datatype ExceptionKind = HttpRequest | Timeout | OtherException

  /** What the client call did: threw, or returned a possibly null response. */
  datatype ApiOutcome = Threw(kind: ExceptionKind) | Returned(response: Option<GroupResponse>)

  /** What the circuit breaker did: refused the call while open, or ran it. */
  datatype BreakerOutcome = CircuitOpen | CallRan(outcome: ApiOutcome)

  /** Why the protected call did not produce reviews. */
  datatype Failure =
    | BrokenCircuit                      // BrokenCircuitException
    | ApiThrew(kind: ExceptionKind)      // the client's own exception
    | IncompleteData                     // InvalidOperationException
    | BadGuid                            // FormatException from Guid.Parse
    | NullDto                            // NullReferenceException on a null list element
    | Invalid(error: DomainError)        // a Review or ReviewStats constructor threw

  /** The exceptions the breaker policy handles, and so counts towards opening. */
  predicate CountedByBreaker(f: Failure) {
    f.ApiThrew? && (f.kind == HttpRequest || f.kind == Timeout)
  }

  /** `ParseReviewStatus`: the status text compared after lowering its letters;
      null and unknown text mean `Pending`. */
  function ParseReviewStatus(status: Option<string>): (r: ReviewStatus)
    ensures r == Approved <==> status.Some? && ToLowerString(status.value) == "approved"
    ensures r == Rejected <==> status.Some? && ToLowerString(status.value) == "rejected"
    ensures status.None? ==> r == Pending
  {
    if status.None? then Pending
    else
      var lowered := ToLowerString(status.value);
      if lowered == "approved" then Approved
      else if lowered == "rejected" then Rejected
      else if lowered == "pending" then Pending
      else Pending
  }

  /** The letter case of the status text does not matter. */
  lemma StatusIgnoresCase(s: string)
    ensures ParseReviewStatus(Some(ToUpperString(s))) == ParseReviewStatus(Some(s))
  {
    LowerOfUpper(s);
  }

  lemma StatusExamples()
    ensures ParseReviewStatus(Some("APPROVED")) == Approved
    ensures ParseReviewStatus(Some("Rejected")) == Rejected
    ensures ParseReviewStatus(Some("pending")) == Pending
    ensures ParseReviewStatus(Some("archived")) == Pending
  {
    assert ToLowerString("APPROVED") == "approved";
    assert ToLowerString("Rejected") == "rejected";
    assert ToLowerString("archived")[1] == 'r';
    assert ToLowerString("pending") != "rejected";
  }

  /** The id text of a DTO: its own, or the text of a new GUID when null. */
  function IdText(dto: ReviewDto, newId: Guid): string {
    match dto.id
    case Some(t) => t
    case None => FormatGuid(newId)
  }

  /** The `Select` lambda: one DTO as a `Review` of the requested product, with
      placeholders for null strings. `newId` is the GUID `Guid.NewGuid()` gives
      if the id is null. */
  function MapDto(productId: Guid, dto: ReviewDto, newId: Guid): Result<Review, Failure> {
    match ParseGuid(IdText(dto, newId))
    case None => Err(BadGuid)
    case Some(id) =>
      match NewReview(id, productId,
                      Some(dto.customerName.GetOr("Unknown")),
                      Some(dto.title.GetOr("No Title")),
                      Some(dto.content.GetOr("No Content")),
                      dto.rating, dto.createdAt, ParseReviewStatus(dto.status))
      case Err(e) => Err(Invalid(e))
      case Ok(review) => Ok(review)
  }

  /** A DTO maps exactly when its id text parses and the review constructor
      accepts the product id, the strings after substitution and the rating;
      the review then carries the requested product id, the DTO's values, and
      the new GUID when the id was null. */
  lemma MapDtoSpec(productId: Guid, dto: ReviewDto, newId: Guid)
    ensures var r := MapDto(productId, dto, newId);
      && (r.Ok? <==>
            && ParseGuid(IdText(dto, newId)).Some?
            && productId != EmptyGuid
            && !IsNullOrWhiteSpace(Some(dto.customerName.GetOr("Unknown")))
            && !IsNullOrWhiteSpace(Some(dto.title.GetOr("No Title")))
            && !IsNullOrWhiteSpace(Some(dto.content.GetOr("No Content")))
            && ValidRating(dto.rating))
      && (r.Err? ==> r.error.BadGuid? || r.error.Invalid?)
      && (r.Ok? ==>
            && r.value.id == (if dto.id.None? then newId else ParseGuid(dto.id.value).value)
            && r.value.productId == productId
            && r.value.customerName == dto.customerName.GetOr("Unknown")
            && r.value.title == dto.title.GetOr("No Title")
            && r.value.content == dto.content.GetOr("No Content")
            && r.value.rating == dto.rating
            && r.value.createdAt == dto.createdAt
            && r.value.status == ParseReviewStatus(dto.status))
  {
    ParseFormatRoundTrip(newId);
  }

  /** The `Select` lambda applied to one list element: reading `Id` of a
      null element throws. */
  function MapEntry(productId: Guid, entry: Option<ReviewDto>, newId: Guid): (r: Result<Review, Failure>)
    ensures entry.None? <==> r == Err(NullDto)
    ensures entry.Some? ==> r == MapDto(productId, entry.value, newId)
  {
    match entry
    case None => Err(NullDto)
    case Some(dto) => MapDto(productId, dto, newId)
  }

  /** `ToList()` over a lazy `Select`: the elements are produced in order and
      the first exception aborts the whole list. */
  function Collect<T(==), E(==)>(rs: seq<Result<T, E>>): (r: Result<seq<T>, E>)
    ensures r.Ok? <==> forall k :: 0 <= k < |rs| ==> rs[k].Ok?
    ensures r.Ok? ==> |r.value| == |rs| && forall k :: 0 <= k < |rs| ==> rs[k] == Ok(r.value[k])
    ensures r.Err? ==> exists k :: 0 <= k < |rs| && rs[k] == Err(r.error) && forall j :: 0 <= j < k ==> rs[j].Ok?
  {
    if rs == [] then Ok([])
    else
      match rs[0]
      case Err(e) => Err(e)
      case Ok(first) =>
        match Collect(rs[1..])
        case Err(e) =>
          var k :| 0 <= k < |rs[1..]| && rs[1..][k] == Err(e) && forall j :: 0 <= j < k ==> rs[1..][j].Ok?;
          assert rs[k + 1] == Err(e);
          Err(e)
        case Ok(rest) => Ok([first] + rest)
  }

  /** The `Select` over the list; `newId(k)` is the GUID for the k-th element. */
  function MappedDtos(productId: Guid, dtos: seq<Option<ReviewDto>>, newId: nat -> Guid): (ms: seq<Result<Review, Failure>>)
    ensures |ms| == |dtos|
    ensures forall k :: 0 <= k < |dtos| ==> ms[k] == MapEntry(productId, dtos[k], newId(k))
  {
    seq(|dtos|, k requires 0 <= k < |dtos| => MapEntry(productId, dtos[k], newId(k)))
  }

  /** `Select(...).ToList()` over the list. */
  function MapReviews(productId: Guid, dtos: seq<Option<ReviewDto>>, newId: nat -> Guid): Result<seq<Review>, Failure> {
    Collect(MappedDtos(productId, dtos, newId))
  }

  /** The delegate run under the breaker: call the API, demand both parts of
      the answer, map the reviews and build the statistics for `productId`. */
  function Attempt(productId: Guid, outcome: ApiOutcome, newId: nat -> Guid): Result<ProductReviews, Failure> {
    match outcome
    case Threw(k) => Err(ApiThrew(k))
    case Returned(response) =>
      if response.None? || response.value.reviews.None? || response.value.stats.None? then Err(IncompleteData)
      else
        match MapReviews(productId, response.value.reviews.value, newId)
        case Err(f) => Err(f)
        case Ok(reviews) =>
          var st := response.value.stats.value;
          match NewReviewStats(productId, st.averageRating, st.reviewCount)
          case Err(e) => Err(Invalid(e))
          case Ok(stats) => Ok(ProductReviews(reviews, stats))
  }

  /** The attempt through the breaker: an open circuit refuses to run it. */
  function Guarded(productId: Guid, breaker: BreakerOutcome, newId: nat -> Guid): Result<ProductReviews, Failure> {
    match breaker
    case CircuitOpen => Err(BrokenCircuit)
    case CallRan(outcome) => Attempt(productId, outcome, newId)
  }

  /** What `GetProductReviewsAsync` returns, or the exception that escapes it
      (only the mock's own). */
  function ReviewsFor(productId: Guid, breaker: BreakerOutcome, newId: nat -> Guid, amb: Ambient): Result<ProductReviews, DomainError> {
    match Guarded(productId, breaker, newId)
    case Ok(result) => Ok(result)
    case Err(_) => MockProductReviews(productId, amb)
  }

  /** `GetProductReviewsAsync`. `limit` and `offset` take no part. */
  method GetProductReviewsAsync(productId: Guid, limit: int32, offset: int32,
                                breaker: BreakerOutcome, newId: nat -> Guid, amb: Ambient)
    returns (r: Result<ProductReviews, DomainError>)
    ensures r == ReviewsFor(productId, breaker, newId, amb)
  {
    var attempt := Guarded(productId, breaker, newId);
    if attempt.Ok? {
      return Ok(attempt.value);
    }
    r := GetProductReviews(productId, amb);
  }
}

/** What the repository promises about routing, mapping and fallback. */
module ExternalReviewProperties {
  import opened Wrappers
  import opened Numerics
  import opened Text
  import opened Guids
  import opened Reviews
  import opened ReviewStatistics
  import opened MockReviews
  import opened MockReviewProperties
  import opened ExternalReviews

  /** A null response, or one without reviews or without statistics, gives
      exactly the mock result. */
  lemma IncompleteResponseFallsBack(productId: Guid, response: Option<GroupResponse>, newId: nat -> Guid, amb: Ambient)
    requires response.None? || response.value.reviews.None? || response.value.stats.None?
    ensures ReviewsFor(productId, CallRan(Returned(response)), newId, amb) == MockProductReviews(productId, amb)
    ensures !CountedByBreaker(Attempt(productId, Returned(response), newId).error)
  {
  }

  /** An open circuit, or any exception from the client, gives the mock result. */
  lemma OpenCircuitOrThrowFallsBack(productId: Guid, kind: ExceptionKind, newId: nat -> Guid, amb: Ambient)
    ensures ReviewsFor(productId, CircuitOpen, newId, amb) == MockProductReviews(productId, amb)
    ensures ReviewsFor(productId, CallRan(Threw(kind)), newId, amb) == MockProductReviews(productId, amb)
  {
  }

  /** Of the failures of a call that ran, the breaker counts exactly the
      client's HTTP and timeout exceptions; incomplete data and mapping
      errors fall back without being counted. */
  lemma BreakerCountsOnlyTransportFailures(productId: Guid, outcome: ApiOutcome, newId: nat -> Guid)
    requires Attempt(productId, outcome, newId).Err?
    ensures CountedByBreaker(Attempt(productId, outcome, newId).error) <==>
      outcome.Threw? && (outcome.kind == HttpRequest || outcome.kind == Timeout)
  {
    if outcome.Returned? && outcome.response.Some? && outcome.response.value.reviews.Some? {
      var dtos := outcome.response.value.reviews.value;
      var m := MapReviews(productId, dtos, newId);
      if m.Err? {
        var ms := MappedDtos(productId, dtos, newId);
        var k :| 0 <= k < |ms| && ms[k] == Err(m.error) && forall j :: 0 <= j < k ==> ms[j].Ok?;
        if dtos[k].Some? {
          MapDtoSpec(productId, dtos[k].value, newId(k));
        }
      }
    }
  }

  /** A complete answer that maps cleanly has no null element and gives one
      review per DTO, in order, each carrying the requested product id, and
      statistics for that id. */
  lemma SuccessShape(productId: Guid, dtos: seq<Option<ReviewDto>>, st: StatsDto, newId: nat -> Guid, amb: Ambient)
    requires Attempt(productId, Returned(Some(GroupResponse(Some(dtos), Some(st)))), newId).Ok?
    ensures var res := ReviewsFor(productId, CallRan(Returned(Some(GroupResponse(Some(dtos), Some(st))))), newId, amb);
      && res.Ok?
      && |res.value.reviews| == |dtos|
      && (forall k :: 0 <= k < |dtos| ==>
            && dtos[k].Some?
            && Ok(res.value.reviews[k]) == MapDto(productId, dtos[k].value, newId(k))
            && res.value.reviews[k].productId == productId)
      && res.value.stats == ReviewStats(productId, st.averageRating, st.reviewCount)
  {
    var ms := MappedDtos(productId, dtos, newId);
    assert Collect(ms).Ok?;
    forall k | 0 <= k < |dtos|
      ensures dtos[k].Some? && MapDto(productId, dtos[k].value, newId(k)).Ok? ==>
        MapDto(productId, dtos[k].value, newId(k)).value.productId == productId
    {
      if dtos[k].Some? {
        MapDtoSpec(productId, dtos[k].value, newId(k));
      }
    }
  }

  /** A complete answer whose DTOs all map and whose statistics are in range
      is used, not replaced by the mock. */
  lemma CompleteValidResponseIsUsed(productId: Guid, dtos: seq<Option<ReviewDto>>, st: StatsDto, newId: nat -> Guid)
    requires productId != EmptyGuid
    requires forall k :: 0 <= k < |dtos| ==> dtos[k].Some? && MapDto(productId, dtos[k].value, newId(k)).Ok?
    requires 0.0 <= st.averageRating <= 5.0 && st.reviewCount >= 0
    ensures Attempt(productId, Returned(Some(GroupResponse(Some(dtos), Some(st)))), newId).Ok?
  {
    assert Collect(MappedDtos(productId, dtos, newId)).Ok?;
  }

  /** One DTO that cannot be mapped makes the whole call return the mock
      result: there is no partial batch. */
  lemma OneBadDtoFallsBack(productId: Guid, dtos: seq<Option<ReviewDto>>, st: StatsDto, newId: nat -> Guid, amb: Ambient, bad: nat)
    requires bad < |dtos| && dtos[bad].Some? && MapDto(productId, dtos[bad].value, newId(bad)).Err?
    ensures ReviewsFor(productId, CallRan(Returned(Some(GroupResponse(Some(dtos), Some(st))))), newId, amb)
            == MockProductReviews(productId, amb)
  {
    assert MappedDtos(productId, dtos, newId)[bad].Err?;
    assert Guarded(productId, CallRan(Returned(Some(GroupResponse(Some(dtos), Some(st))))), newId).Err?;
  }

  /** A null element of the review list makes the whole call return the mock
      result, and the breaker does not count the exception. */
  lemma NullElementFallsBack(productId: Guid, dtos: seq<Option<ReviewDto>>, st: StatsDto, newId: nat -> Guid, amb: Ambient, bad: nat)
    requires bad < |dtos| && dtos[bad].None?
    ensures ReviewsFor(productId, CallRan(Returned(Some(GroupResponse(Some(dtos), Some(st))))), newId, amb)
            == MockProductReviews(productId, amb)
    ensures !CountedByBreaker(Attempt(productId, Returned(Some(GroupResponse(Some(dtos), Some(st)))), newId).error)
  {
    assert MappedDtos(productId, dtos, newId)[bad].Err?;
    assert Attempt(productId, Returned(Some(GroupResponse(Some(dtos), Some(st)))), newId).Err?;
  }

  /** Statistics out of range make the whole call return the mock result. */
  lemma BadStatsFallsBack(productId: Guid, dtos: seq<Option<ReviewDto>>, st: StatsDto, newId: nat -> Guid, amb: Ambient)
    requires st.averageRating < 0.0 || st.averageRating > 5.0 || st.reviewCount < 0
    ensures ReviewsFor(productId, CallRan(Returned(Some(GroupResponse(Some(dtos), Some(st))))), newId, amb)
            == MockProductReviews(productId, amb)
  {
    assert Guarded(productId, CallRan(Returned(Some(GroupResponse(Some(dtos), Some(st))))), newId).Err?;
  }

  /** A rating outside 1..5, the default 0 included, makes a DTO unmappable. */
  lemma BadRatingRejected(productId: Guid, dto: ReviewDto, newId: Guid)
    requires !ValidRating(dto.rating)
    ensures MapDto(productId, dto, newId).Err?
  {
  }

  /** Null strings get placeholders and a null id a new GUID. */
  lemma NullFieldsGetPlaceholders(productId: Guid, dto: ReviewDto, newId: Guid)
    requires productId != EmptyGuid && ValidRating(dto.rating)
    requires dto.id.None? && dto.customerName.None? && dto.title.None? && dto.content.None?
    ensures MapDto(productId, dto, newId).Ok?
    ensures var r := MapDto(productId, dto, newId).value;
      r.id == newId && r.customerName == "Unknown" && r.title == "No Title" && r.content == "No Content"
  {
    ParseFormatRoundTrip(newId);
    assert ParseGuid(IdText(dto, newId)) == Some(newId);
    assert !IsNullOrWhiteSpace(Some("Unknown")) by { assert !IsWhiteSpace("Unknown"[0]); }
    assert !IsNullOrWhiteSpace(Some("No Title")) by { assert !IsWhiteSpace("No Title"[0]); }
    assert !IsNullOrWhiteSpace(Some("No Content")) by { assert !IsWhiteSpace("No Content"[0]); }
    MapDtoSpec(productId, dto, newId);
  }

  /** A non-null blank string gets no placeholder, so the DTO is rejected. */
  lemma EmptyNameIsNotReplaced(productId: Guid, dto: ReviewDto, newId: Guid)
    requires productId != EmptyGuid && dto.id.None? && dto.customerName == Some("")
    ensures MapDto(productId, dto, newId) == Err(Invalid(ArgumentException("customerName")))
  {
    ParseFormatRoundTrip(newId);
  }

  /** For a non-empty product id the call always returns; for the empty id
      it always throws the mock's `ArgumentException("productId")`. */
  lemma ThrowsOnlyForEmptyProductId(productId: Guid, breaker: BreakerOutcome, newId: nat -> Guid, amb: Ambient)
    ensures ReviewsFor(productId, breaker, newId, amb).Ok? <==> productId != EmptyGuid
    ensures productId == EmptyGuid ==>
      ReviewsFor(productId, breaker, newId, amb) == Err(ArgumentException("productId"))
  {
    MockFailsOnlyForEmptyProductId(productId, amb);
  }
}
