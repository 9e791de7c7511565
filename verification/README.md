# MerchStore core in Dafny

A model of the logic at the heart of MerchStore, a small ASP.NET merchandise shop:

- the review domain: the `Review` entity and the `ReviewStats` value object, whose constructors check their arguments in a fixed order;
- the review fallback: `MockReviewService` builds a deterministic set of synthetic reviews from a product id, and `ExternalReviewRepository` turns the external review API's answer into reviews, or falls back to the mock for the whole batch;
- the shopping cart kept in the session (`CartSessionService`);
- the two in-memory stores of the MergeStore service: products keyed by id with an id counter, and newsletter subscribers keyed by e-mail address ignoring letter case;
- the small rules in the web layer:
  - the snake_case JSON naming policy;
  - the catalogue's description truncation and its not-found and review-failure defaults;
  - the admin image-upload rule and delete;
  - the sign-in decision.

Code that changes state step by step is imperative Dafny:

- the cart service and both repositories are classes whose methods update their fields;
- `ConvertName`, `GenerateMockReviews` and `AddToCart` keep the source's loops, and each is proved against a specification function.

Pure code (the constructors, the mapping, the controllers' decisions) is functions over datatypes.

Whatever the runtime supplies is an input:

- `Guid.GetHashCode`, the stream of `Random.Sample()` values of a seeded generator, the clock and `Guid.NewGuid` (the `Ambient` datatype, and `newId` for the GUIDs the DTO mapping draws);
- the outcome of the circuit breaker and of the API call;
- the outcomes of calls into services and stores that are not part of this model (`Call<T>`, and booleans such as `saved`, `removeThrew` and `signInThrew`);
- the answer of the password check.

Helper modules:

- `Numerics`: C# `int`, unchecked 32-bit wrap-around, the truncated `/` and `%`, and banker's rounding.
- `Text`: `char.IsWhiteSpace`, `string.IsNullOrWhiteSpace`, `Trim`, ASCII case mapping and decimal `ToString`.
- `Guids`: a GUID as a 128-bit number, its "D" text form, and `Guid.Parse`, with the round trip proved.

A null reference is `None` of an `Option`. An exception a caller sees is the `Err` of a `Result`.

## Model

| member | source | states |
|---|---|---|
| Reviews.NewReview | src/MerchStore.Domain/Entities/Review.cs:34-68 | construction succeeds exactly when the product id is not empty, the three texts are not null or white space and the rating is 1..5; the first failing check, in the order productId, customerName, title, content, rating, decides the exception and its parameter name; on success every field equals its argument |
| Reviews.ConstructedReviewsAreWellFormed | src/MerchStore.Domain/Entities/Review.cs:45-67 | every constructed review satisfies all five guards, and rebuilding it from its own fields gives it back |
| Reviews.EntityEqualityIsById | tests/MerchStore.Domain.Tests/Entities/ReviewTests.cs:129-179 | two constructed reviews are the same entity exactly when their ids are equal, whatever their other fields |
| ReviewStatistics.NewReviewStats | src/MerchStore.Domain/ValueObjects/ReviewStats.cs:14-28 | succeeds exactly for a non-empty product id, an average in [0, 5] and a count of at least 0; the checks run in that order with the matching exception; on success the fields equal the arguments |
| ReviewStatistics.StatsEqualityIsStructural | src/MerchStore.Domain/ValueObjects/ReviewStats.cs:7-27 | two constructed stats are equal exactly when they were built from equal arguments |
| ReviewStatistics.AverageNotTiedToCount | src/MerchStore.Domain/ValueObjects/ReviewStats.cs:14-27 | the average and the count are independent: 4.5 with 0 reviews, 0 with 7 and 5 with 0 are all accepted |
| MockReviews.Next | src/MerchStore.Infrastructure/ExternalServices/Reviews/MockReviewService.cs:53-69 | a draw `Random.Next(lo, hi)` lies in lo..hi-1 |
| MockReviews.RatingFor | src/MerchStore.Infrastructure/ExternalServices/Reviews/MockReviewService.cs:57-65 | every roll maps to a rating in 1..5 |
| MockReviews.ReviewCountFor | src/MerchStore.Infrastructure/ExternalServices/Reviews/MockReviewService.cs:29-30 | `Math.Abs(hash % 6)`, with C#'s truncated remainder, is at most 5, negative hashes included |
| MockReviews.GeneratedReviews | src/MerchStore.Infrastructure/ExternalServices/Reviews/MockReviewService.cs:51-81 | the loop builds `count` reviews, the k-th from the k-th group of four draws |
| MockReviews.OrderByCreatedAtDescendingCorrect | src/MerchStore.Infrastructure/ExternalServices/Reviews/MockReviewService.cs:83 | the sort returns a permutation of its input, newest first |
| MockReviews.InsertByCreatedAtSorted | src/MerchStore.Infrastructure/ExternalServices/Reviews/MockReviewService.cs:83 | one insertion step keeps the list sorted and adds exactly the inserted review |
| MockReviews.GeneratedFieldsNotBlank | src/MerchStore.Infrastructure/ExternalServices/Reviews/MockReviewService.cs:14-21 | no name, content or title the generator uses is blank |
| MockReviews.ConstructMockReview | src/MerchStore.Infrastructure/ExternalServices/Reviews/MockReviewService.cs:71-80 | constructing a generated review fails only for the empty product id, with the productId error |
| MockReviews.MockReviewDraws | src/MerchStore.Infrastructure/ExternalServices/Reviews/MockReviewService.cs:53-80 | the i-th review is the one its day offset, rating roll, name index and content index describe |
| MockReviews.GenerateMockReviews | src/MerchStore.Infrastructure/ExternalServices/Reviews/MockReviewService.cs:45-84 | the loop returns the sorted generated reviews, or the exception the first construction throws |
| MockReviews.GetProductReviews | src/MerchStore.Infrastructure/ExternalServices/Reviews/MockReviewService.cs:26-42 | the reviews for the hashed count together with their statistics |
| MockReviewProperties.RangeSetSize | src/MerchStore.Infrastructure/ExternalServices/Reviews/MockReviewService.cs:57-58 | the roll range 1..100 holds 100 values |
| MockReviewProperties.RatingDistribution | src/MerchStore.Infrastructure/ExternalServices/Reviews/MockReviewService.cs:57-65 | of the rolls 1..100, 10 give 1, 15 give 2, 25 give 3, 30 give 4 and 20 give 5 |
| MockReviewProperties.RatingIsMonotone | src/MerchStore.Infrastructure/ExternalServices/Reviews/MockReviewService.cs:59-64 | a higher roll never gives a lower rating |
| MockReviewProperties.TitlesAreDistinct | src/MerchStore.Infrastructure/ExternalServices/Reviews/MockReviewService.cs:67 | "Sample Review: {i+1} for Product" differs for different i |
| MockReviewProperties.MockReviewFacts | src/MerchStore.Infrastructure/ExternalServices/Reviews/MockReviewService.cs:67-80 | each generated review has the requested product id, status Approved, a rating in 1..5, its position's title and a name and content from the pools |
| MockReviewProperties.MockReviewTime | src/MerchStore.Infrastructure/ExternalServices/Reviews/MockReviewService.cs:53-54 | each creation time is the clock reading minus 1 to 30 whole days |
| MockReviewProperties.InsertKeepsGistsAndSum | src/MerchStore.Infrastructure/ExternalServices/Reviews/MockReviewService.cs:83 | one insertion step keeps the ratings, names, contents and titles and adds to the rating sum |
| MockReviewProperties.OrderKeepsGistsAndSum | src/MerchStore.Infrastructure/ExternalServices/Reviews/MockReviewService.cs:83 | sorting keeps the length, the rating sum and the multiset of clock-independent fields |
| MockReviewProperties.SameGistsSameSum | src/MerchStore.Infrastructure/ExternalServices/Reviews/MockReviewService.cs:35-37 | lists with the same ratings have the same rating sum |
| MockReviewProperties.SumBounds | src/MerchStore.Infrastructure/ExternalServices/Reviews/MockReviewService.cs:35-37 | n ratings in 1..5 sum to between n and 5n |
| MockReviewProperties.RoundedMeanInRange | src/MerchStore.Infrastructure/ExternalServices/Reviews/MockReviewService.cs:35-37 | the mean of ratings in 1..5, rounded to one decimal with ties to even, is in [1, 5] |
| MockReviewProperties.MockFailsOnlyForEmptyProductId | src/MerchStore.Infrastructure/ExternalServices/Reviews/MockReviewService.cs:26-42 | the fallback throws exactly for the empty product id, with the productId error |
| MockReviewProperties.AverageInRange | src/MerchStore.Infrastructure/ExternalServices/Reviews/MockReviewService.cs:35-37 | the average is 0 for no reviews and otherwise in [1, 5] |
| MockReviewProperties.MockResultShape | src/MerchStore.Infrastructure/ExternalServices/Reviews/MockReviewService.cs:29-39 | for a non-empty id: 0..5 reviews, sorted newest first, each well formed for the product; the stats carry the product id, the review count and the average |
| MockReviewProperties.MockIsDeterministic | src/MerchStore.Infrastructure/ExternalServices/Reviews/MockReviewService.cs:29-30 | with the same hash, two calls agree on success, count, ratings, names, contents, titles and statistics; only ids and times may differ |
| MockReviewProperties.GeneratedGistsAgree | src/MerchStore.Infrastructure/ExternalServices/Reviews/MockReviewService.cs:48-69 | the same seed gives the same ratings, names, contents and titles |
| MockReviewProperties.GistsPointwise | src/MerchStore.Infrastructure/ExternalServices/Reviews/MockReviewService.cs:51-81 | lists that agree position by position on those fields agree as wholes |
| ExternalReviews.ParseReviewStatus | src/MerchStore.Infrastructure/ExternalServices/Reviews/ExternalReviewRepository.cs:110-119 | Approved exactly when the lowered text is "approved", Rejected exactly when it is "rejected"; null and anything else give Pending |
| ExternalReviews.StatusIgnoresCase | src/MerchStore.Infrastructure/ExternalServices/Reviews/ExternalReviewRepository.cs:112-117 | the letter case of the status text does not change the result |
| ExternalReviews.StatusExamples | src/MerchStore.Infrastructure/ExternalServices/Reviews/ExternalReviewRepository.cs:112-117 | "APPROVED", "Rejected", "pending" and "archived" map to Approved, Rejected, Pending and Pending |
| ExternalReviews.MapDtoSpec | src/MerchStore.Infrastructure/ExternalServices/Reviews/ExternalReviewRepository.cs:77-84 | a DTO maps exactly when its id text parses and the review constructor accepts the substituted fields; the review then carries the requested product id, the placeholders for null texts and the parsed status |
| ExternalReviews.MapEntry | src/MerchStore.Infrastructure/ExternalServices/Reviews/ExternalReviewRepository.cs:76-77 | a null list element throws (`NullDto`); any other element maps as its DTO does |
| ExternalReviews.Collect | src/MerchStore.Infrastructure/ExternalServices/Reviews/ExternalReviewRepository.cs:76-85 | the list succeeds exactly when every element does, and then holds them in order; otherwise the first failure escapes |
| ExternalReviews.MappedDtos | src/MerchStore.Infrastructure/ExternalServices/Reviews/ExternalReviewRepository.cs:76-84 | one mapping per list element, in order, the k-th with the k-th new GUID |
| ExternalReviews.GetProductReviewsAsync | src/MerchStore.Infrastructure/ExternalServices/Reviews/ExternalReviewRepository.cs:59-107 | the API's reviews and stats when the call runs and everything maps, the mock result in every other case |
| ExternalReviewProperties.IncompleteResponseFallsBack | src/MerchStore.Infrastructure/ExternalServices/Reviews/ExternalReviewRepository.cs:70-73 | a null response, or one without reviews or stats, gives exactly the mock result, and the breaker does not count it |
| ExternalReviewProperties.OpenCircuitOrThrowFallsBack | src/MerchStore.Infrastructure/ExternalServices/Reviews/ExternalReviewRepository.cs:96-106 | an open circuit or any exception from the client gives exactly the mock result |
| ExternalReviewProperties.BreakerCountsOnlyTransportFailures | src/MerchStore.Infrastructure/ExternalServices/Reviews/ExternalReviewRepository.cs:37-42 | of the failures of a call that ran, the breaker counts exactly `HttpRequestException` and `TimeoutException` |
| ExternalReviewProperties.SuccessShape | src/MerchStore.Infrastructure/ExternalServices/Reviews/ExternalReviewRepository.cs:76-91 | on success, the list has no null element and there is one review per DTO in the same order, each and the stats carrying the requested product id |
| ExternalReviewProperties.CompleteValidResponseIsUsed | src/MerchStore.Infrastructure/ExternalServices/Reviews/ExternalReviewRepository.cs:76-91 | a complete answer whose DTOs all map and whose stats are in range is used |
| ExternalReviewProperties.OneBadDtoFallsBack | src/MerchStore.Infrastructure/ExternalServices/Reviews/ExternalReviewRepository.cs:76-85 | a single unmappable DTO makes the whole call return the mock result |
| ExternalReviewProperties.NullElementFallsBack | src/MerchStore.Infrastructure/ExternalServices/Reviews/ExternalReviewRepository.cs:76-77 | a null element of the review list makes the whole call return the mock result, and the breaker does not count it |
| ExternalReviewProperties.BadStatsFallsBack | src/MerchStore.Infrastructure/ExternalServices/Reviews/ExternalReviewRepository.cs:87-91 | out-of-range stats make the whole call return the mock result |
| ExternalReviewProperties.BadRatingRejected | src/MerchStore.Infrastructure/ExternalServices/Reviews/ExternalReviewRepository.cs:77-84 | a DTO rating outside 1..5, the default 0 included, cannot be mapped |
| ExternalReviewProperties.NullFieldsGetPlaceholders | src/MerchStore.Infrastructure/ExternalServices/Reviews/ExternalReviewRepository.cs:77-81 | null name, title and content become "Unknown", "No Title" and "No Content", and a null id a new GUID |
| ExternalReviewProperties.EmptyNameIsNotReplaced | src/MerchStore.Infrastructure/ExternalServices/Reviews/ExternalReviewRepository.cs:79 | an empty, non-null name is not substituted, so the DTO is rejected for customerName |
| ExternalReviewProperties.ThrowsOnlyForEmptyProductId | src/MerchStore.Infrastructure/ExternalServices/Reviews/ExternalReviewRepository.cs:102-106 | the call returns for every non-empty product id; for the empty id the mock's exception escapes |
| CartSession.FirstIndex | src/MerchStore.WebUI/Services/CartSessionService.cs:34 | the position of the first line for the product, or none when no line has it |
| CartSession.Without | src/MerchStore.WebUI/Services/CartSessionService.cs:51 | exactly the lines for other products remain |
| CartSession.AddExisting | src/MerchStore.WebUI/Services/CartSessionService.cs:35-39 | adding a product already in the cart changes only its first line, and only that line's quantity (with `int` wrap-around); length and order are kept |
| CartSession.AddNew | src/MerchStore.WebUI/Services/CartSessionService.cs:40-43 | adding a new product appends the item as given |
| CartSession.AddKeepsIdsUnique | src/MerchStore.WebUI/Services/CartSessionService.cs:34-43 | adding keeps at most one line per product |
| CartSession.RemoveAbsent | src/MerchStore.WebUI/Services/CartSessionService.cs:48-53 | removing a product the cart does not hold changes nothing |
| CartSession.WithoutAppend | src/MerchStore.WebUI/Services/CartSessionService.cs:51 | removal works on each part of a cart separately and keeps the parts in order: it is the order-preserving filter |
| CartSession.WithoutSnoc | src/MerchStore.WebUI/Services/CartSessionService.cs:51 | removing from a cart with one more line at its end removes from the front and keeps that line unless it is the product's |
| CartSession.RemoveKeepsIdsUnique | src/MerchStore.WebUI/Services/CartSessionService.cs:48-53 | removing keeps at most one line per product |
| CartSession.CartSessionService.constructor | src/MerchStore.WebUI/Services/CartSessionService.cs:11-14 | the service over a request's session and its stored cart |
| CartSession.CartSessionService.GetCart | src/MerchStore.WebUI/Services/CartSessionService.cs:16-23 | the stored cart, or the empty cart without a session or a stored entry |
| CartSession.CartSessionService.SaveCart | src/MerchStore.WebUI/Services/CartSessionService.cs:25-29 | with a session, a later read returns exactly the saved cart; without one nothing changes |
| CartSession.CartSessionService.AddToCart | src/MerchStore.WebUI/Services/CartSessionService.cs:31-46 | the saved cart is the old one with the item merged into its first line for the product, or appended; one line per product is kept |
| CartSession.CartSessionService.RemoveFromCart | src/MerchStore.WebUI/Services/CartSessionService.cs:48-53 | the saved cart is the old one without the product's lines, in order |
| CartSession.CartSessionService.ClearCart | src/MerchStore.WebUI/Services/CartSessionService.cs:55-58 | the saved cart is empty |
| ProductStore.TryAdd | MergeStore/Repositories/InMemoryProductRepository.cs:56-59 | inserts only when the key is free; a taken key leaves the map as it was |
| ProductStore.InMemoryProductRepository.constructor | MergeStore/Repositories/InMemoryProductRepository.cs:15-60 | the store holds T-shirt, Hoodie and Keps under "1", "2" and "3", all active, and the counter is 4 |
| ProductStore.InMemoryProductRepository.GetNextId | MergeStore/Repositories/InMemoryProductRepository.cs:63-66 | the counter's decimal text, then the counter is one more (wrapping at the `int` range) |
| ProductStore.InMemoryProductRepository.GetAllAsync | MergeStore/Repositories/InMemoryProductRepository.cs:69-72 | exactly the active stored products, each once |
| ProductStore.InMemoryProductRepository.GetByIdAsync | MergeStore/Repositories/InMemoryProductRepository.cs:75-79 | the product stored under the id, or null |
| ProductStore.InMemoryProductRepository.AddAsync | MergeStore/Repositories/InMemoryProductRepository.cs:82-90 | a null id takes the counter's value, consumed even if the insert fails; true and the product stored exactly when its id was free, otherwise nothing stored changes |
| ProductStore.InMemoryProductRepository.UpdateAsync | MergeStore/Repositories/InMemoryProductRepository.cs:93-102 | a null or unknown id gives false and no change; otherwise only that entry is replaced |
| ProductStore.InMemoryProductRepository.DeleteAsync | MergeStore/Repositories/InMemoryProductRepository.cs:106-109 | true exactly when the id was present; afterwards it is absent and every other entry is unchanged |
| SubscriberStore.EmailKey | MergeStore/Repositories/InMemorySubscriberRepository.cs:9 | the key an address is filed under keeps its length and holds no lower-case letter |
| SubscriberStore.EmailKeyIgnoresCase | MergeStore/Repositories/InMemorySubscriberRepository.cs:9 | an address in lower or upper case has the same key as the address itself |
| SubscriberStore.EmailKeyExact | MergeStore/Repositories/InMemorySubscriberRepository.cs:9 | two addresses share a key exactly when they are equal ignoring letter case |
| SubscriberStore.DistinctAddressesExample | MergeStore/Repositories/InMemorySubscriberRepository.cs:9 | "ab@x.se" and "ba@x.se" get different keys |
| SubscriberStore.EmailKeyExample | MergeStore/Repositories/InMemorySubscriberRepository.cs:9 | "Anna@Example.com" and "anna@example.COM" share a key |
| SubscriberStore.InMemorySubscriberRepository.constructor | MergeStore/Repositories/InMemorySubscriberRepository.cs:9 | the store starts empty |
| SubscriberStore.InMemorySubscriberRepository.GetAllAsync | MergeStore/Repositories/InMemorySubscriberRepository.cs:11-14 | every stored subscriber, each once, and nothing else |
| SubscriberStore.InMemorySubscriberRepository.GetByEmailAsync | MergeStore/Repositories/InMemorySubscriberRepository.cs:16-25 | null for a null or empty address, otherwise the subscriber filed under it in any letter case, or null |
| SubscriberStore.InMemorySubscriberRepository.AddAsync | MergeStore/Repositories/InMemorySubscriberRepository.cs:27-36 | true exactly for a subscriber with a non-empty address not present in any letter case, which is then filed under its key; otherwise nothing changes |
| SubscriberStore.InMemorySubscriberRepository.UpdateAsync | MergeStore/Repositories/InMemorySubscriberRepository.cs:38-59 | true exactly when the address is non-empty and present; then only that entry is replaced and the keys stay the same; otherwise nothing changes |
| SubscriberStore.InMemorySubscriberRepository.DeleteAsync | MergeStore/Repositories/InMemorySubscriberRepository.cs:61-70 | false for an empty address; otherwise true exactly when the address was present, and afterwards it is absent |
| SubscriberStore.InMemorySubscriberRepository.ExistsAsync | MergeStore/Repositories/InMemorySubscriberRepository.cs:72-80 | false for an empty address, otherwise whether it is filed in any letter case |
| SnakeCase.Piece | src/MerchStore.WebUI/Infrastructure/JsonSnakeCaseNamingPolicy.cs:20-27 | one character contributes its lower-case form, preceded by '_' exactly when it is a capital past the first position |
| SnakeCase.ConvertName | src/MerchStore.WebUI/Infrastructure/JsonSnakeCaseNamingPolicy.cs:9-31 | null stays null and "" stays ""; otherwise the loop builds the characters' pieces in order |
| SnakeCase.SnakeLength | src/MerchStore.WebUI/Infrastructure/JsonSnakeCaseNamingPolicy.cs:18-28 | the result is as long as the name plus its capitals after the first character |
| SnakeCase.SnakeHasNoCapitals | src/MerchStore.WebUI/Infrastructure/JsonSnakeCaseNamingPolicy.cs:20-27 | the result has no capitals |
| SnakeCase.SnakeOfLowerIsIdentity | src/MerchStore.WebUI/Infrastructure/JsonSnakeCaseNamingPolicy.cs:20-27 | a name without capitals comes back unchanged |
| SnakeCase.SnakeIdempotent | src/MerchStore.WebUI/Infrastructure/JsonSnakeCaseNamingPolicy.cs:20-27 | converting twice is converting once |
| SnakeCase.SnakeSnoc | src/MerchStore.WebUI/Infrastructure/JsonSnakeCaseNamingPolicy.cs:18-28 | appending a character appends its piece |
| SnakeCase.SnakeLowerTail | src/MerchStore.WebUI/Infrastructure/JsonSnakeCaseNamingPolicy.cs:18-28 | characters without capitals are copied as they are |
| SnakeCase.LeadingCharacter | src/MerchStore.WebUI/Infrastructure/JsonSnakeCaseNamingPolicy.cs:21-27 | the first character is lowered with no underscore, and a tail without capitals follows unchanged |
| SnakeCase.AverageExample | src/MerchStore.WebUI/Infrastructure/JsonSnakeCaseNamingPolicy.cs:21-27 | "Average" becomes "average" |
| SnakeCase.AverageRatingExample | src/MerchStore.WebUI/Infrastructure/JsonSnakeCaseNamingPolicy.cs:21-27 | "AverageRating" becomes "average_rating": a leading capital gets no underscore |
| SnakeCase.ProductIdExample | src/MerchStore.WebUI/Infrastructure/JsonSnakeCaseNamingPolicy.cs:21-27 | "ProductID" becomes "product_i_d": every later capital gets its own underscore |
| SnakeCase.InnerCapitals | src/MerchStore.WebUI/Infrastructure/JsonSnakeCaseNamingPolicy.cs:21-24 | the number of capitals past the first position is at most the length, and 0 when there are none |
| Catalog.TruncateDescription | src/MerchStore.WebUI/Controllers/CatalogController.cs:31-33 | a description of more than 100 characters becomes its first 97 plus "...", exactly 100 in all; a shorter one is passed through |
| Catalog.TruncateIdempotent | src/MerchStore.WebUI/Controllers/CatalogController.cs:31-33 | cutting a card text again changes nothing |
| Catalog.TruncatedIsPrefixPlusEllipsis | src/MerchStore.WebUI/Controllers/CatalogController.cs:31-33 | the card text is a prefix of the description, possibly followed by "..." |
| Catalog.TruncateExample | src/MerchStore.WebUI/Controllers/CatalogController.cs:31-33 | a 101-character description loses its last four characters to "..." |
| Catalog.Card | src/MerchStore.WebUI/Controllers/CatalogController.cs:27-37 | a card copies the product's fields and truncates its description |
| Catalog.Index | src/MerchStore.WebUI/Controllers/CatalogController.cs:19-57 | one card per product, in order; an exception from the catalogue renders the error view |
| Catalog.IndexCardsAreShort | src/MerchStore.WebUI/Controllers/CatalogController.cs:31-33 | no card text is longer than 100 characters |
| Catalog.Details | src/MerchStore.WebUI/Controllers/CatalogController.cs:60-110 | a missing product is NotFound; a failing review call shows the product with rating 0 and count 0; a failing product lookup renders the error view |
| Catalog.ReviewFailureStillShowsProduct | src/MerchStore.WebUI/Controllers/CatalogController.cs:68-85 | once the lookup answers, the product is shown exactly when it exists, and NotFound exactly when it does not, whatever the review service does |
| AdminProducts.ExtensionFrom | src/MerchStore.WebUI/Controllers/Admin/ProductsController.cs:109 | the scan returns a dot-led suffix with no later dot or separator, or "" only when every dot is followed by a separator |
| AdminProducts.Extension | src/MerchStore.WebUI/Controllers/Admin/ProductsController.cs:109 | the file name's extension with its dot, a suffix of the name, or "" when it has none |
| AdminProducts.NoExtensionExample | src/MerchStore.WebUI/Controllers/Admin/ProductsController.cs:109 | "img" has no extension |
| AdminProducts.ExtensionExample | src/MerchStore.WebUI/Controllers/Admin/ProductsController.cs:109 | the extension of "photo.jpg" is ".jpg" |
| AdminProducts.ImageUrl | src/MerchStore.WebUI/Controllers/Admin/ProductsController.cs:109-122 | the URL is "/images/products/", the new GUID's text and the extension, in that order |
| AdminProducts.ImageUrlsAreUnique | src/MerchStore.WebUI/Controllers/Admin/ProductsController.cs:109-122 | different GUIDs give different URLs |
| AdminProducts.CheckUpload | src/MerchStore.WebUI/Controllers/Admin/ProductsController.cs:80-122 | no file or an empty one is no upload; a content type outside the five allowed ones is refused; then more than 5 MB is refused; otherwise the upload is accepted with its URL |
| AdminProducts.UploadSizeBoundary | src/MerchStore.WebUI/Controllers/Admin/ProductsController.cs:93-98 | exactly 5 242 880 bytes is accepted, one more is refused, 0 is no upload |
| AdminProducts.UploadTypeFirst | src/MerchStore.WebUI/Controllers/Admin/ProductsController.cs:84-98 | a wrong type is reported before a size error, and the type comparison is exact |
| AdminProducts.ChosenImage | src/MerchStore.WebUI/Controllers/Admin/ProductsController.cs:80-122 | an upload error aborts, no upload keeps the current image, an accepted upload replaces it |
| AdminProducts.Create | src/MerchStore.WebUI/Controllers/Admin/ProductsController.cs:67-161 | an invalid form or an upload error shows the form again; otherwise the product is saved, without an image when there was no upload |
| AdminProducts.Edit | src/MerchStore.WebUI/Controllers/Admin/ProductsController.cs:206-342 | as Create, but without an upload the existing image URL is kept, an empty one meaning no image |
| AdminProducts.EditMatchesCreate | src/MerchStore.WebUI/Controllers/Admin/ProductsController.cs:225-239 | for any actual upload, Edit and Create give the same outcome |
| AdminProducts.Delete | src/MerchStore.WebUI/Controllers/Admin/ProductsController.cs:350-408 | a missing id is NotFound and removes nothing; otherwise the product is removed unless removing throws |
| AdminProducts.DeleteTouchesOnlyId | src/MerchStore.WebUI/Controllers/Admin/ProductsController.cs:355-405 | deleting removes at most the requested entry and changes no other |
| Auth.AuthenticateUserAsync | src/MerchStore.WebUI/Services/AuthService.cs:30-97 | false without a configured user, for a different user name, or when the password check or the sign-in throws; otherwise true exactly when the password check passes or the pair is admin/admin; on success the claims are the user name and the configured role |
| Auth.BackdoorNeedsConfiguredAdmin | src/MerchStore.WebUI/Services/AuthService.cs:49-67 | a failing password check is overridden only when the configured user, the user name and the password are all "admin" |
| Auth.PasswordDecides | src/MerchStore.WebUI/Services/AuthService.cs:57-67 | for a matching user name other than admin/admin, the password check alone decides |

## Left out

- Polly's circuit breaker is not modelled inside: whether the circuit is open, and whether the call ran, is an input. The policy's handled exceptions are modelled (`CountedByBreaker`); its threshold and break duration are not.
- The external review API's HTTP client, the method it calls for group reviews and JSON (de)serialisation are not part of this model; the API's answer (an exception, null, or a response with optional reviews and stats whose list elements may themselves be null) is an input.
- `ExternalReviews.GetProductReviewsAsync`: `limit` and `offset` are accepted and take no part, as in the source.
- `Guid.GetHashCode`, `System.Random`'s generator, `DateTime.UtcNow` and `Guid.NewGuid` are inputs: a hash function, a stream of `Sample()` values per seed, a stream of clock readings and a stream of GUIDs. `Random.Next(lo, hi)` is computed from the sample as `lo + floor(sample * (hi - lo))`.
- `double` and `decimal` are real numbers: NaN, infinities and binary rounding are not modelled. `Math.Round` to one decimal is modelled exactly, ties to even, on the rational mean.
- Case mapping (`char.IsUpper`, `ToLowerInvariant`, `ToLower`, `OrdinalIgnoreCase`) is modelled on ASCII letters only; other Unicode letters are left as they are.
- Strings are sequences of characters; the UTF-16 code units that `Length` and `Substring` count in the source are not distinguished from characters.
- Guids.ParseGuid: models `Guid.Parse` for the "D", "N", "B" and "P" layouts with plain hexadecimal components only. .NET's parser also tolerates a "0x"/"0X" or "+" prefix inside a component (e.g. "+1234567-0x12-…") and accepts the "X" format; the model returns `None` for these, so a DTO id written that way makes `ExternalReviews.MapDto` fail with `BadGuid` and the model falls back to the mock where the source would map the id.
- The session's JSON serialisation is not modelled: the session holds the cart list itself or nothing; a stored "null" JSON text is not represented.
- `ConcurrentDictionary` is modelled as a sequential map; concurrent callers are not part of this model.
- `ProductStore.InMemoryProductRepository.AddAsync`: the source assigns the new id to the caller's object; the model returns the stored product instead, so aliasing of stored objects is not captured.
- `ProductStore.InMemoryProductRepository.GetByIdAsync` and `DeleteAsync` take a non-null id; the exception a null key raises is not modelled.
- `GetAllAsync` of both repositories returns the entries in an unspecified order; the dictionary's actual order is not modelled.
- `CustomerCartInfo`'s members other than the e-mail address are carried as one opaque `details` string.
- `Path.GetExtension` is modelled with '/' as the only directory separator; the Windows '\\' separator and invalid path characters are not.
- The admin `ProductsController`: ModelState validation is an input; file writes and deletes, the repository and unit of work, the reflection-based id patching, the `Uri` conversion of the image URL in `Edit`, `TempData` messages and the exception text are not modelled; `Index` and the GET actions only render views and are left out.
- `CatalogController`: the price's `Money` formatting and logging are not modelled; the catalogue and review services are calls whose result or exception is an input.
- `AuthService`: the password hasher, the cookie sign-in, `SignOutAsync`, `GetCurrentUsername` and `IsInRole` are not modelled; the password check's answer (or its exception) and whether the sign-in throws are inputs.
- Logging throughout is left out.
