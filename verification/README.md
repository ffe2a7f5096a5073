# Fragrance recommender: a Dafny model

This project models `recommendFragrances`, the chat-message fragrance recommender of the
goldior luxury backend. The handler takes a free-text message and lower-cases it. It picks
the fragrance notes of a fixed eleven-word vocabulary that the text contains. It reads an
upper price bound ("under"/"below" N) and a lower one ("above"/"over" N) with two regular
expressions, and composes a document-store query from the notes and bounds. It then asks
the store for at most three matching products, falls back once to the first three products
when none match, and projects each product to a display summary (name, description,
`₹` price, note names). Any failure gives status 500 and an empty reply.

Modules follow the pipeline:

- `Common`: `Option`, `Result`, subsequences and `Take` (the query's `limit`).
- `Strings`: ASCII lower-casing, containment, JavaScript's `\s` class, and decimal digit strings (`parseInt` and printing).
- `Notes`: the vocabulary and note extraction.
- `PriceParser`: the two price patterns. There is a deterministic scan and a backtracking reference reading of the optional items. The leftmost-match search, the greedy digit run and the capture are all modelled. `ScanPrice` is the scanning loop.
- `Products`: the product documents.
- `Query`: the query object, what the store's `$in`/regex and `$elemMatch` operators mean for a product, and the composition of the price and note clauses.
- `Store`: the filtered lookup, the unfiltered lookup and the one-step fallback.
- `Projection`: the display summaries.
- `Recommend`: the handler itself, as a method. It builds the price filter and the query step by step with the handler's own branches. It reassigns the product list on fallback. Failures are early returns.
- `Scenarios`: worked messages.

The store is a sequence of products in its natural order, together with the index of the lookup that throws, if any. Index 0 is the filtered lookup and 1 the fallback.

Three points of the handler's code that are easy to misread, and that the model follows:
- The price patterns allow one white-space character between the keyword and the optional `₹` (`\s?`).
- A missing message is not a separate error; it fails like any other exception, with status 500.
- A first price of 0 is shown as `₹N/A`, because JavaScript's `||` treats 0 as missing.

## Model

| member | source | states |
|---|---|---|
| `Strings.IsSpace` | controllers/recommend.controller.js:27-28 | A `\s` character is neither a digit nor `₹`, so the three classes of the price tail are disjoint |
| `Strings.Contains` | controllers/recommend.controller.js:23 | Defined by its body; specified by `Notes.Keep`, `Notes.MatchedNotesSpec` and `Notes.RosemaryMentionsRose` |
| `Strings.Lower` | controllers/recommend.controller.js:6 | Lower-casing keeps the length, leaves no upper-case ASCII letter, shifts each upper-case letter to its lower-case form and keeps every other character |
| `Strings.LowerIdempotent` | controllers/recommend.controller.js:6 | Lower-casing an already lower-cased message changes nothing |
| `Strings.DecimalValue` | controllers/recommend.controller.js:35-36 | Defined by its body (`parseInt` of a digit run, base 10); specified by `Strings.DecimalRoundTrip` and `Strings.DecimalOfValue` |
| `Strings.IntToString` | controllers/recommend.controller.js:88 | Defined by its body (a price printed inside the template literal, with its minus sign); specified by `Projection.PriceLabelSpec` |
| `Strings.Decimal` | controllers/recommend.controller.js:88 | A printed number is a non-empty digit string that starts with `0` only for the number 0 |
| `Strings.DecimalRoundTrip` | controllers/recommend.controller.js:35-36 | Parsing the printed form of a number gives the number back |
| `Strings.DecimalOfValue` | controllers/recommend.controller.js:35-36 | Printing the parsed value of a digit string without leading zeros gives the string back |
| `Notes.Keep` | controllers/recommend.controller.js:23 | The filter keeps exactly the vocabulary entries the text contains, as a subsequence of the vocabulary |
| `Notes.MatchedNotes` | controllers/recommend.controller.js:8-23 | Defined by its body (the vocabulary filtered by containment); specified by `Notes.MatchedNotesSpec` |
| `Notes.MatchedNotesSpec` | controllers/recommend.controller.js:6-23 | A note is matched iff it is a vocabulary entry occurring in the lower-cased text; matches keep vocabulary order; no occurrence gives the empty list |
| `Notes.VocabularyLowerCase` | controllers/recommend.controller.js:8-20 | Every vocabulary entry is non-empty and unchanged by lower-casing, so it can occur in a lower-cased message |
| `Notes.VocabularyDistinct` | controllers/recommend.controller.js:8-20 | No vocabulary entry repeats, so each note is matched at most once |
| `Notes.RosemaryMentionsRose` | controllers/recommend.controller.js:23 | Containment has no word boundary: "rosemary" matches the note "rose" |
| `PriceParser.TailAt` | controllers/recommend.controller.js:27-28 | A successful `\s?₹?\d` scan at k ends on a digit at most two characters after k |
| `PriceParser.TailAtIsRegexTail` | controllers/recommend.controller.js:27-28 | The scan finds a digit at j iff some choice of taking or skipping the optional space and `₹` reaches a digit at j, so backtracking cannot change the match |
| `PriceParser.MatchAt` | controllers/recommend.controller.js:27-28 | The pattern matches at i iff one of its keywords occurs at i and is followed by the tail. The capture starts on the digit that the optional space and `₹` lead to after the first keyword, in alternative order, that matches |
| `PriceParser.FirstMatchFrom` | controllers/recommend.controller.js:30-31 | The result is the first index at or after i where the pattern matches; there is no match before it, and none at all when the result is absent |
| `PriceParser.DigitRunEnd` | controllers/recommend.controller.js:27-28 | The greedy `\d+` run is all digits and stops at the end of the text or at a non-digit |
| `PriceParser.CaptureAbsent` | controllers/recommend.controller.js:30-31 | There is no capture iff the pattern matches at no index of the text |
| `PriceParser.CaptureIsFirstOccurrence` | controllers/recommend.controller.js:27-36 | A capture comes from an index i with no match before it, where the first keyword, in alternative order, that leads to a match occurs and the optional space and `₹` after it reach a digit j. It is the value of the whole digit run starting at j, with no word boundary required |
| `PriceParser.Capture` | controllers/recommend.controller.js:30-36 | Defined by its body; specified by `CaptureAbsent`, `CaptureIsFirstOccurrence` and `ScanPrice` |
| `PriceParser.ReadDigits` | controllers/recommend.controller.js:35-36 | The digit loop stops at the end of the greedy run and computes the run's base-10 value |
| `PriceParser.ScanPrice` | controllers/recommend.controller.js:30-31 | The scanning loop returns exactly the parsed capture of the leftmost match, or none |
| `Query.PriceFilter` | controllers/recommend.controller.js:34-57 | Defined by its body; specified by `Query.PriceFilterCases` |
| `Query.PatternFound` | controllers/recommend.controller.js:64 | Defined by its body (`new RegExp(n, "i")` finds `n` in a name, folding the ASCII case of both); specified by `Query.ComposeFilterMeaning` and `Recommend.RequestFilterMeaning` |
| `Query.SomeKeynoteMatches` | controllers/recommend.controller.js:62-65 | Defined by its body (`$in` over the patterns on `keynotes.name`: some keynote matches some pattern); specified by `Query.ComposeFilterMeaning` |
| `Query.SomeEntryInRange` | controllers/recommend.controller.js:38-56 | Defined by its body (`$elemMatch`: one capacity entry meets every present bound); specified by `Query.ComposeFilterMeaning` and `Query.InvertedBoundsMatchNothing` |
| `Query.Matches` | controllers/recommend.controller.js:60-70 | Defined by its body; specified by `Query.ComposeFilterMeaning` and `Query.MatchAllMatchesEverything` |
| `Query.ComposeFilter` | controllers/recommend.controller.js:60-70 | Defined by its body; specified by `Query.ComposeFilterMeaning` |
| `Query.PriceFilterCases` | controllers/recommend.controller.js:34-57 | Both captures give the range upper = "under" and lower = "above", by position; one capture gives a one-sided range; none gives no price clause |
| `Query.MatchAllMatchesEverything` | controllers/recommend.controller.js:60 | The empty query matches every product |
| `Query.ComposeFilterMeaning` | controllers/recommend.controller.js:60-70 | A product matches iff (no notes, or some keynote name contains some note, both lower-cased) and (no bound, or a single capacity entry meets every present bound) |
| `Query.InvertedBoundsMatchNothing` | controllers/recommend.controller.js:38-44 | With the "above" value greater than the "under" value, no product matches the composed query |
| `Common.Take` | controllers/recommend.controller.js:76 | `limit(n)` returns a prefix of at most n elements, all elements when there are fewer |
| `Store.Matching` | controllers/recommend.controller.js:76 | The filtered products are exactly the stored products that match, in store order, each as many times as the store holds it |
| `Store.FindMatching` | controllers/recommend.controller.js:76 | Defined by its body; specified by `Common.Take`, `Store.Matching` and `Store.SelectSpec` |
| `Store.FindAny` | controllers/recommend.controller.js:81 | Defined by its body; specified by `Common.Take`, `Store.MatchingAll` and `Store.SelectSpec` |
| `Store.Select` | controllers/recommend.controller.js:76-82 | Defined by its body; specified by `Store.SelectSpec` |
| `Store.MatchingAll` | controllers/recommend.controller.js:76-81 | The empty query keeps every product, so the filtered lookup equals the unfiltered lookup |
| `Store.SelectSpec` | controllers/recommend.controller.js:76-82 | The selection has at most 3 products and is empty only for an empty store. If any product matches, it is the first 3 matches, all matching; otherwise it is the first 3 products |
| `Projection.Summarize` | controllers/recommend.controller.js:85-89 | Defined by its body (the object built for one product); specified by `Projection.Project` |
| `Projection.Project` | controllers/recommend.controller.js:85-90 | One summary per product in the same order: name and description verbatim, the price label, and all keynote names in order |
| `Projection.PriceLabel` | controllers/recommend.controller.js:88 | Defined by its body; specified by `Projection.PriceLabelSpec` |
| `Projection.PriceLabelSpec` | controllers/recommend.controller.js:88 | The label is `₹` then `N/A` exactly when there is no capacity entry or the first price is 0; otherwise the first price printed: digits with no leading zero, after a minus sign when negative, that read back as that price |
| `Recommend.RecommendFragrances` | controllers/recommend.controller.js:3-97 | A missing message or a throwing lookup gives status 500 with an empty reply; otherwise status 200 with the projected selection. The fallback runs only when the filtered lookup found nothing, and at most 3 items are returned |
| `Recommend.RequestFilter` | controllers/recommend.controller.js:6-70 | Defined by its body; specified by `Recommend.RequestFilterMeaning` |
| `Recommend.Lookup` | controllers/recommend.controller.js:76-81 | Defined by its body; specified by the contract of `Recommend.RecommendFragrances` and by `Store.MatchingAll` |
| `Recommend.RequestFilterMeaning` | controllers/recommend.controller.js:6-70 | A product matches a message's query iff it meets the note clause built from the notes in the message and the price clause built from the two captures. The vocabulary is lower-case, so a keynote name matches a note when its lower-cased form contains the note |
| `Recommend.NoIntentSelectsFirstProducts` | controllers/recommend.controller.js:60-82 | A message with no note and no price keyword gives the empty query, and the reply comes from the first products of the store |
| `Recommend.InvertedBoundsFallBack` | controllers/recommend.controller.js:34-82 | Out-of-order bounds match nothing, so the reply is the unfiltered fallback |
| `Scenarios.CaptureAt` | controllers/recommend.controller.js:27-31 | A leftmost match whose digit run ends at e captures the value of the digits up to e |
| `Scenarios.AboveFiveHundred` | controllers/recommend.controller.js:28-31 | In "rose above 500 below 1500" the "above" capture is 500 |
| `Scenarios.BelowFifteenHundred` | controllers/recommend.controller.js:27-30 | In "rose above 500 below 1500" the "under" capture is 1500 |
| `Scenarios.RoseIsMentioned` | controllers/recommend.controller.js:23 | "rose above 500 below 1500" mentions the note "rose" |
| `Scenarios.RosePriceRange` | controllers/recommend.controller.js:34-44 | "rose above 500 below 1500" gives the price range from 500 to 1500 |
| `Scenarios.ThunderSetsUpperBound` | controllers/recommend.controller.js:27-30 | "under" inside "thunder 5" still gives the upper bound 5 |

## Left out

- The document store's execution of `find` and `limit`: the store is a sequence in its natural order. Its indexing, timeouts and hung calls are not modelled, and a failure is the choice of which lookup throws.
- The console logging (lines 73, 77, 94) has no effect on the reply.
- Case mapping beyond ASCII: in the model, lower-casing and the store's case-insensitive matching fold only `A`–`Z`. Unicode foldings, such as the Kelvin sign matching `k` in "musk", are not modelled.
- Numbers: `parseInt` loses precision above 2^53, and JavaScript prints integers of 10^21 and more in exponent form. The model uses exact integers. Prices are integers, and a capacity entry with no price, or a non-numeric price, is not modelled.
- A message that is present but not a string is folded into the missing message; both throw and give status 500.
- The HTTP transport: the status and JSON body are returned as a `Response` value.
- models/product.model.js is not part of this model; the product fields are those the handler reads.
- routes/auth.routes.js, server.js, models/user.model.js and utils/generateToken.js are not part of this model. They hold account routes, e-mail and one-time codes, server start-up, a schema and token signing, which are all I/O or library calls.
- Concurrent requests share no mutable state, so concurrency is not modelled.
