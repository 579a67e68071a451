# Movie API: validator and in-memory store

This project models the core of a small Express service that keeps a list of
movies in memory. It has two parts:

- **The payload validator** (`schemas/movies.js`). This is module `MovieSchema` in `schema.dfy`.
  A request body is a parsed JSON value (`Json`). The field rules are `title`, `year`, `director`,
  `duration`, `rate`, `poster` and `genre`. `ValidateMovie` is full validation, used on creation.
  `ValidatePartialMovie` is partial validation, used on patches. Each returns either the normalised data
  (`MovieData` or `MoviePatch`) or the list of issues found. An issue is a path (the body, a field, or one
  element of `genre`) and a code (required, wrong type, not an integer, too small, too big,
  invalid URL, not in the enumeration). The issues come in the schema's key order, and within
  a field in the order of its chained checks. Every chained check runs, so an out-of-range
  `year` of `0` yields two "too small" issues. The field rules are also written once more as
  predicates (`Accepts`, `FieldOk`, `ObjectOk`). These give the reference definition that the
  issue-collecting code is proved against.
- **The store and handler logic** (`app.js`). This is module `MoviesApp` in `app.dfy`. The
  `MovieStore` class owns the list `movies`. The POST, PATCH and DELETE handlers become the
  methods `Create`, `Patch` and `Delete`. Each one reassigns the list: append, replace at one
  index, or remove one index. Each returns a `Reply` in place of an HTTP status and body.
  The two GET handlers become the functions `List` (with the case-insensitive genre filter) and
  `FindById`. The origin allow-list is `OriginAccepted` and `CorsHeaders`.
  `scenarios.dfy` has concrete request sequences whose outcomes follow from the contracts.

Validation is made of pure functions. A failure is a `Failure` value, never an exception.

The model follows the code in these places, where one might expect otherwise:

- `title` is `z.string()` with no minimum length, so an empty title is accepted.
- `genre` is `z.array(...)` without `.nonempty()`, so an empty genre list is accepted on creation.
- In partial mode, `.partial()` wraps the defaulted `rate` in an optional. A patch without
  `rate` therefore carries no `rate`, and no default 5 is applied to patches. This is the
  behaviour of zod 3, where an optional wrapper around a defaulted field returns `undefined`
  for a missing key. zod 4 applies the inner default there, and under it a patch without
  `rate` would set it to 5. The model assumes zod 3.
- The origin check also accepts an *empty* `Origin` value (`!origin`), not only a missing one.
- Lookup by id returns the *first* record with that id (`find`/`findIndex`).

## Model

| member | source | states |
|---|---|---|
| `MovieSchema.ElementIssues` | schemas/movies.js:20-26 | a genre array raises no issue iff every element is one of the nine enumeration strings; each issue is about `genre` |
| `MovieSchema.FieldIssues` | schemas/movies.js:7-26 | a present value raises no issue iff it satisfies its field's rule; every issue it raises is about that field |
| `MovieSchema.MemberIssues` | schemas/movies.js:4-27 | a field raises no issue iff it is acceptable in the mode: an absent field is `Required` in full mode, except `rate` |
| `MovieSchema.ObjectIssuesExact` | schemas/movies.js:4-27 | an object has no issues iff every field is acceptable, and some issue names field f iff f is not acceptable |
| `MovieSchema.TextsRoundTrip` | schemas/movies.js:20-26 | reading the strings out of a JSON array of strings and writing them back as JSON gives the same array |
| `MovieSchema.DataOf` | schemas/movies.js:4-26 | the normalised data of an accepted payload holds, for every field the payload sent (`rate` included), exactly the payload's value; an omitted `rate` is 5; the data is well-formed: year in [1900, 2025], duration > 0, rate in [0, 10], valid poster URL, genres from the enumeration |
| `MovieSchema.PatchOf` | schemas/movies.js:33-37 | a normalised patch carries exactly the schema fields that were sent, each with exactly the value sent, and each well-formed |
| `MovieSchema.ValidateMovie` | schemas/movies.js:29-31 | succeeds iff the body is an object whose every field obeys its rule and every field but `rate` is present; the data holds the body's value for every sent field and rate 5 when `rate` is omitted, and is well-formed; a failure carries the non-empty issue list |
| `MovieSchema.ValidatePartialMovie` | schemas/movies.js:33-37 | succeeds iff the body is an object whose present fields obey their rules; the patch holds exactly the sent fields with the body's values, well-formed; a failure carries the non-empty issue list |
| `MovieSchema.RejectionNamesFailedFields` | schemas/movies.js:4-37 | in both modes, validation fails with an issue naming field f exactly when f breaks its rule (or is missing in full mode) |
| `MovieSchema.YearRule` | schemas/movies.js:13 | a creation payload is accepted only with an integer `year` in [1900, 2025], kept as is; any other or a missing year fails with a `year` issue |
| `MovieSchema.DurationRule` | schemas/movies.js:15 | a present `duration` raises no issue iff it is a positive integer; a patch that passes carries that integer |
| `MovieSchema.RateRule` | schemas/movies.js:16 | a present `rate` is accepted iff it lies in [0, 10] and is kept; a creation payload without `rate` gets 5; a patch without `rate` carries none; both modes judge `rate` alike |
| `MovieSchema.GenreRule` | schemas/movies.js:20-26 | a present `genre` is accepted iff every element is in the enumeration; a creation payload without `genre` fails with `genre` marked required |
| `MovieSchema.NonSchemaKeysIgnored` | schemas/movies.js:4-5 | adding, changing or removing a key outside the schema (such as `id`) leaves both validations' results unchanged, so a client cannot set an id |
| `MovieSchema.SameSchemaFields` | schemas/movies.js:4-27 | two bodies that agree on the schema's keys validate identically in both modes |
| `MovieSchema.FullImpliesPartial` | schemas/movies.js:29-37 | whatever passes full validation passes partial validation, with the same field values and without an invented `rate` |
| `MovieSchema.CompletePatchIsFull` | schemas/movies.js:29-37 | a patch that passes and sends every required field also passes full validation, with the same values |
| `MoviesApp.Includes` | app.js:26 | `includes` answers true iff the string is in the list |
| `MoviesApp.OriginAccepted` | app.js:24-28 | an origin is accepted iff it is absent, empty, or one of the three listed origins |
| `MoviesApp.CorsHeaders` | app.js:116-122 | the allow-origin header is set iff the origin is accepted and then echoes it; the allowed-methods header is set iff it is a preflight and the origin is accepted |
| `MoviesApp.OriginAllowList` | app.js:10-14 | a present origin is accepted iff it is the empty string or one of `http://localhost:8080`, `http://localhost:1234`, `http://movies.com` |
| `MoviesApp.SomeMatches` | app.js:35 | true iff some genre of the list equals the query when both are lower-cased |
| `MoviesApp.FilterByGenre` | app.js:33-36 | the result holds exactly the movies of the list having the queried genre, case ignored, and is no longer than the list |
| `MoviesApp.FilterAppend` | app.js:33-36 | filtering a concatenation is concatenating the filtered parts, so the result keeps store order |
| `MoviesApp.FilterIgnoresCase` | app.js:35 | two queries equal up to ASCII case ("sci-fi", "Sci-Fi") select the same movies |
| `MoviesApp.FindIndex` | app.js:83 | the result is -1 iff no record has the id; otherwise it is the first index whose record has the id |
| `MoviesApp.Merge` | app.js:87-90 | the merged record keeps the old id |
| `MoviesApp.MergeOverwritesOnlySent` | app.js:87-90 | a merge takes every field the patch carries and keeps every other field and the id |
| `MoviesApp.PatchAppliesSentFields` | app.js:76-92 | after a patch body passes, the fields it sends take the validated values, the fields it omits keep their old values, and the id is kept |
| `MoviesApp.MergeIdempotent` | app.js:87-90 | applying the same patch twice equals applying it once |
| `MoviesApp.MergeKeepsWellFormed` | app.js:87-92 | a validated patch merged into a well-formed record gives a well-formed record |
| `MoviesApp.CompletePatchReplaces` | app.js:87-90 | a patch sending every field replaces the whole record except its id |
| `MoviesApp.RemovalKeepsUnique` | app.js:111 | removing one record from a list with unique ids keeps the ids unique |
| `MoviesApp.SecondDeleteNotFound` | app.js:105-111 | with unique ids, once the record with an id is removed, no record has that id |
| `MoviesApp.CreatedIsFound` | app.js:59-71 | after appending a record with a fresh id, lookup of that id finds it at the end, and unique ids stay unique |
| `MoviesApp.MovieStore.constructor` | app.js:2 | the store starts as the given seed list |
| `MoviesApp.MovieStore.List` | app.js:30-39 | without a non-empty `genre` query the whole list; with one, the genre filter of the list: exactly the movies having that genre, case ignored, in store order (`FilterAppend`) |
| `MoviesApp.MovieStore.FindById` | app.js:42-48 | none iff no record has the id; otherwise the first record with the id |
| `MoviesApp.MovieStore.Create` | app.js:50-73 | an invalid body gives `BadRequest` with the issues and leaves the list unchanged; a valid one appends exactly one record (fresh id plus validated data) at the end and replies `Created` with it; unique ids and well-formed records are kept |
| `MoviesApp.MovieStore.Patch` | app.js:75-94 | validation comes before lookup: an invalid body gives `BadRequest` even for an unknown id; an unknown id gives `NotFound`; in both cases the list is unchanged; otherwise only the first matching index is replaced by the merge, which is the reply; unique ids and well-formed records are kept |
| `MoviesApp.MovieStore.Delete` | app.js:96-114 | an unknown id gives `NotFound` and no change; otherwise exactly the first matching record is removed, the others keep their order, and the reply is `Deleted`; unique ids are kept |
| `Scenarios.CreationDefaultsRate` | schemas/movies.js:4-31 | a complete creation payload without `rate` and with a client `id` is accepted as that data with rate 5 and no id |
| `Scenarios.YearOutOfRangeRejected` | schemas/movies.js:13 | the same payload with year 1899 is rejected with a `year` issue |
| `Scenarios.PatchRateOnly` | app.js:75-93 | PATCH `{rate: 9}` on a stored id replies with that record with rate 9 and all other fields and the id unchanged, and changes only that index |
| `Scenarios.DeleteTwice` | app.js:96-113 | with unique ids, the first DELETE of an id answers by whether it exists, and the second answers `NotFound` |

## Left out

- HTTP plumbing is not modelled: Express setup, routing, `express.json()` and JSON parsing of the body (the body arrives as a `Json` value), response serialisation, `JSON.parse` of the error message, `res.send`, `app.listen` and `PORT`. A `Reply` stands for the status and body of POST, PATCH and DELETE (201, 200, 400 or 404). The two GET handlers are the functions `List` and `FindById`, whose results stand for the 200 body and, for a missing id, the 404.
- Id generation (`crypto.randomUUID()`) is a foreign call. The new id is the parameter `freshId`.
- `MoviesApp.MovieStore.Create`: requires `freshId` to be absent from the store, which the source does not check. It relies on the id being random. Uniqueness "across all ids ever created" (including deleted ones) depends on that randomness too and is not stated.
- The URL check of `poster` belongs to the validation library. It is the parameter `urlOk` (a `const` of the store), and nothing is assumed about it.
- The issue's message text and zod's extra issue fields (`expected`, `received`, the bound of a failed check) are not modelled. Only the path and a code are kept.
- Lower-casing is ASCII only. `toLowerCase` and `toLocaleLowerCase` do full Unicode case mapping, which is not modelled.
- A `genre` query given more than once (an array, on which the source's `toLocaleLowerCase` throws) is not modelled. The query is an optional string.
- JavaScript numbers are reals here. NaN, infinities, `-0` and floating-point rounding are not modelled.
- When the origin is absent, Express writes the header with the text `undefined`. The model records the header value as the absent origin itself.
- The seed file `movies.json` is not part of this model. The store starts from an arbitrary list of typed records. Unique ids and well-formed records are therefore kept as "preserved if they held before", not assumed of the seed.
- Request handling is single-threaded in the source. Concurrency is not modelled.
