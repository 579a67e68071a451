/** The movie API's handler logic: the origin allow-list, the genre filter and
    lookup of GET /movies and GET /movies/:id, and the in-memory store that
    POST, PATCH and DELETE change in place. Each handler's HTTP response is a
    `Reply`; id generation is a parameter (`freshId`). */
module MoviesApp {
  import opened Wrappers
  import opened MovieSchema

  /** A stored record: the server-assigned id and the validated fields. */
  datatype Movie = Movie(id: string, info: MovieData)

  /** What a state-changing handler answers, in place of a status code and a JSON body. */
  datatype Reply =
    | Created(movie: Movie)          // 201 with the new record
    | Updated(movie: Movie)          // 200 with the merged record
    | Deleted                        // 200 with a confirmation message
    | BadRequest(issues: seq<Issue>) // 400 with the validation issues
    | NotFound                       // 404 with a "not found" message

  // ---------------------------------------------------------------------------
  // Cross-origin handling
  // ---------------------------------------------------------------------------

  const AcceptedOrigins: seq<string> :=
    ["http://localhost:8080", "http://localhost:1234", "http://movies.com"]

  /** Membership of a string in a list of strings, scanning from the front. */
  function Includes(list: seq<string>, x: string): (r: bool)
    ensures r <==> x in list
  {
    if list == [] then false
    else list[0] == x || Includes(list[1..], x)
  }

  /** The request's `Origin` header (`None` when absent) is echoed back exactly
      when it is one of the listed origins, or is absent, or is the empty string. */
  function OriginAccepted(origin: Option<string>): (ok: bool)
    ensures ok <==> origin.None? || origin == Some("") || (origin.Some? && origin.value in AcceptedOrigins)
  {
    (origin.Some? && Includes(AcceptedOrigins, origin.value)) || origin.None? || origin.value == ""
  }

  datatype Header = AllowOrigin(origin: Option<string>) | AllowMethods(methods: string)

  const PreflightMethods: string := "GET, POST, PATCH, DELETE"

  /** The cross-origin headers a handler sets: GET /movies and DELETE set the
      allow-origin header, the OPTIONS preflight (`preflight`) also the allowed methods. */
  function CorsHeaders(origin: Option<string>, preflight: bool): (hs: seq<Header>)
    ensures (exists h :: h in hs && h.AllowOrigin?) <==> OriginAccepted(origin)
    ensures forall h :: h in hs && h.AllowOrigin? ==> h.origin == origin
    ensures (exists h :: h in hs && h.AllowMethods?) <==> preflight && OriginAccepted(origin)
    ensures forall h :: h in hs && h.AllowMethods? ==> h.methods == PreflightMethods
  {
    if !OriginAccepted(origin) then []
    else if preflight then
      var hs := [AllowOrigin(origin), AllowMethods(PreflightMethods)];
      assert hs[0] in hs && hs[1] in hs;
      hs
    else
      var hs := [AllowOrigin(origin)];
      assert hs[0] in hs;
      hs
  }

  // ---------------------------------------------------------------------------
  // Reads: genre filter and lookup by id
  // ---------------------------------------------------------------------------

  /** Lower-casing, on ASCII letters only. */
  function LowerChar(c: char): char {
    if 'A' <= c <= 'Z' then (c as int - 'A' as int + 'a' as int) as char else c
  }

  function Lower(s: string): string {
    seq(|s|, i requires 0 <= i < |s| => LowerChar(s[i]))
  }

  /** Movie `m` lists a genre equal to `q` when case is ignored. */
  predicate HasGenre(m: Movie, q: string) {
    exists i :: 0 <= i < |m.info.genre| && Lower(m.info.genre[i]) == Lower(q)
  }

  /** Some genre of the list equals the query once both are lower-cased. */
  function SomeMatches(genres: seq<string>, q: string): (r: bool)
    ensures r <==> exists i :: 0 <= i < |genres| && Lower(genres[i]) == Lower(q)
  {
    if genres == [] then false
    else
      var rest := SomeMatches(genres[1..], q);
      assert forall i :: 1 <= i < |genres| ==> genres[i] == genres[1..][i - 1];
      Lower(genres[0]) == Lower(q) || rest
  }

  /** The movies, in list order, that list the queried genre, case ignored. */
  function FilterByGenre(ms: seq<Movie>, q: string): (r: seq<Movie>)
    ensures |r| <= |ms|
    ensures forall m :: m in r <==> m in ms && HasGenre(m, q)
  {
    if ms == [] then []
    else
      assert ms == [ms[0]] + ms[1..];
      (if SomeMatches(ms[0].info.genre, q) then [ms[0]] else []) + FilterByGenre(ms[1..], q)
  }

  /** The first index whose record holds `id`, or -1 when there is none. */
  function FindIndex(ms: seq<Movie>, id: string): (r: int)
    ensures -1 <= r < |ms|
    ensures r == -1 <==> forall j :: 0 <= j < |ms| ==> ms[j].id != id
    ensures 0 <= r ==> ms[r].id == id && forall j :: 0 <= j < r ==> ms[j].id != id
  {
    if ms == [] then -1
    else if ms[0].id == id then 0
    else
      var k := FindIndex(ms[1..], id);
      if k < 0 then -1 else k + 1
  }

  predicate UniqueIds(ms: seq<Movie>) {
    forall i, j :: 0 <= i < j < |ms| ==> ms[i].id != ms[j].id
  }

  predicate AllWellFormed(ms: seq<Movie>, urlOk: string -> bool) {
    forall m :: m in ms ==> WellFormed(m.info, urlOk)
  }

  // ---------------------------------------------------------------------------
  // The merge of PATCH
  // ---------------------------------------------------------------------------

  /** The stored record with every field the patch carries overwritten by the
      patch's value; fields the patch does not carry, and the id, are kept. */
  function Merge(m: Movie, p: MoviePatch): (r: Movie)
    ensures r.id == m.id
  {
    Movie(m.id, MovieData(
      p.title.GetOr(m.info.title),
      p.year.GetOr(m.info.year),
      p.director.GetOr(m.info.director),
      p.duration.GetOr(m.info.duration),
      p.rate.GetOr(m.info.rate),
      p.poster.GetOr(m.info.poster),
      p.genre.GetOr(m.info.genre)))
  }

  /** Field `f` has the same value in `a` and `b`. */
  predicate SameField(a: MovieData, b: MovieData, f: Field) {
    match f
    case Title => a.title == b.title
    case Year => a.year == b.year
    case Director => a.director == b.director
    case Duration => a.duration == b.duration
    case Rate => a.rate == b.rate
    case Poster => a.poster == b.poster
    case Genre => a.genre == b.genre
  }

  /** Patch `p` carries, for field `f`, the value `d` holds. */
  predicate Carries(p: MoviePatch, d: MovieData, f: Field) {
    match f
    case Title => p.title == Some(d.title)
    case Year => p.year == Some(d.year)
    case Director => p.director == Some(d.director)
    case Duration => p.duration == Some(d.duration)
    case Rate => p.rate == Some(d.rate)
    case Poster => p.poster == Some(d.poster)
    case Genre => p.genre == Some(d.genre)
  }

  // ---------------------------------------------------------------------------
  // The store
  // ---------------------------------------------------------------------------

  /** The process-wide list of movies, seeded at start-up and changed in place
      by the POST, PATCH and DELETE handlers. */
  class MovieStore {
    var movies: seq<Movie>
    /** The URL syntax check applied to `poster`. */
    const urlOk: string -> bool

    constructor (seed: seq<Movie>, urlOk: string -> bool)
      ensures movies == seed && this.urlOk == urlOk
    {
      movies := seed;
      this.urlOk := urlOk;
    }

    /** GET /movies: every movie, or with a non-empty `genre` query the movies
        having that genre, case ignored, in store order. */
    function List(genre: Option<string>): (r: seq<Movie>)
      reads this
      ensures genre.None? || genre.value == "" ==> r == movies
      ensures genre.Some? && genre.value != "" ==>
        |r| <= |movies| && forall m :: m in r <==> m in movies && HasGenre(m, genre.value)
      ensures genre.Some? && genre.value != "" ==> r == FilterByGenre(movies, genre.value)
    {
      if genre.Some? && genre.value != "" then FilterByGenre(movies, genre.value) else movies
    }

    /** GET /movies/:id: the first movie with that id, or none. */
    function FindById(id: string): (r: Option<Movie>)
      reads this
      ensures r.None? <==> forall m :: m in movies ==> m.id != id
      ensures r.Some? ==> r.value.id == id && exists i ::
        && 0 <= i < |movies|
        && movies[i] == r.value
        && forall j :: 0 <= j < i ==> movies[j].id != id
    {
      var i := FindIndex(movies, id);
      if i < 0 then None else Some(movies[i])
    }

    /** POST /movies with a fresh id: validate, then append. */
    method Create(freshId: string, body: Json) returns (reply: Reply)
      requires forall m :: m in movies ==> m.id != freshId
      modifies this`movies
      ensures ValidateMovie(body, urlOk).Failure? ==>
        reply == BadRequest(ValidateMovie(body, urlOk).error) && movies == old(movies)
      ensures ValidateMovie(body, urlOk).Success? ==>
        var created := Movie(freshId, ValidateMovie(body, urlOk).value);
        reply == Created(created) && movies == old(movies) + [created]
      ensures old(UniqueIds(movies)) ==> UniqueIds(movies)
      ensures old(AllWellFormed(movies, urlOk)) ==> AllWellFormed(movies, urlOk)
    {
      var result := ValidateMovie(body, urlOk);
      if result.Failure? {
        return BadRequest(result.error);
      }
      var created := Movie(freshId, result.value);
      movies := movies + [created];
      reply := Created(created);
    }

    /** PATCH /movies/:id: validate the patch first, then look the id up, then
        replace that one record by the merge. */
    method Patch(id: string, body: Json) returns (reply: Reply)
      modifies this`movies
      ensures ValidatePartialMovie(body, urlOk).Failure? ==>
        reply == BadRequest(ValidatePartialMovie(body, urlOk).error) && movies == old(movies)
      ensures ValidatePartialMovie(body, urlOk).Success? && FindIndex(old(movies), id) < 0 ==>
        reply == NotFound && movies == old(movies)
      ensures ValidatePartialMovie(body, urlOk).Success? && 0 <= FindIndex(old(movies), id) ==>
        var i := FindIndex(old(movies), id);
        var merged := Merge(old(movies)[i], ValidatePartialMovie(body, urlOk).value);
        reply == Updated(merged) && movies == old(movies)[i := merged]
      ensures old(UniqueIds(movies)) ==> UniqueIds(movies)
      ensures old(AllWellFormed(movies, urlOk)) ==> AllWellFormed(movies, urlOk)
    {
      var result := ValidatePartialMovie(body, urlOk);
      if result.Failure? {
        return BadRequest(result.error);
      }
      var i := FindIndex(movies, id);
      if i < 0 {
        return NotFound;
      }
      var merged := Merge(movies[i], result.value);
      if AllWellFormed(movies, urlOk) {
        assert movies[i] in movies;
        MergeKeepsWellFormed(movies[i], result.value, urlOk);
      }
      movies := movies[i := merged];
      reply := Updated(merged);
    }

    /** DELETE /movies/:id: remove the first record with that id. */
    method Delete(id: string) returns (reply: Reply)
      modifies this`movies
      ensures FindIndex(old(movies), id) < 0 ==> reply == NotFound && movies == old(movies)
      ensures 0 <= FindIndex(old(movies), id) ==>
        var i := FindIndex(old(movies), id);
        reply == Deleted && movies == old(movies)[..i] + old(movies)[i + 1..]
      ensures old(UniqueIds(movies)) ==> UniqueIds(movies)
      ensures old(AllWellFormed(movies, urlOk)) ==> AllWellFormed(movies, urlOk)
    {
      var i := FindIndex(movies, id);
      if i == -1 {
        return NotFound;
      }
      RemovalKeepsUnique(movies, i);
      movies := movies[..i] + movies[i + 1..];
      reply := Deleted;
    }
  }

  // ---------------------------------------------------------------------------
  // Properties
  // ---------------------------------------------------------------------------

  /** Only the three listed origins, besides an absent or empty one, are accepted. */
  lemma OriginAllowList(origin: string)
    ensures OriginAccepted(Some(origin)) <==>
      origin in {"", "http://localhost:8080", "http://localhost:1234", "http://movies.com"}
  {
  }

  /** The filter distributes over concatenation: it keeps the movies' relative order. */
  lemma {:induction false} FilterAppend(a: seq<Movie>, b: seq<Movie>, q: string)
    ensures FilterByGenre(a + b, q) == FilterByGenre(a, q) + FilterByGenre(b, q)
  {
    if a == [] {
      assert a + b == b;
    } else {
      var head := if SomeMatches(a[0].info.genre, q) then [a[0]] else [];
      assert (a + b)[0] == a[0] && (a + b)[1..] == a[1..] + b;
      FilterAppend(a[1..], b, q);
      calc {
        FilterByGenre(a + b, q);
        head + FilterByGenre(a[1..] + b, q);
        head + (FilterByGenre(a[1..], q) + FilterByGenre(b, q));
        (head + FilterByGenre(a[1..], q)) + FilterByGenre(b, q);
      }
    }
  }

  /** Queries equal up to case select the same movies ("sci-fi" and "Sci-Fi"). */
  lemma {:induction false} FilterIgnoresCase(ms: seq<Movie>, q1: string, q2: string)
    requires Lower(q1) == Lower(q2)
    ensures FilterByGenre(ms, q1) == FilterByGenre(ms, q2)
  {
    if ms != [] {
      FilterIgnoresCase(ms[1..], q1, q2);
    }
  }

  /** Removing one record of a list with unique ids keeps the ids unique. */
  lemma RemovalKeepsUnique(ms: seq<Movie>, i: nat)
    requires i < |ms|
    ensures UniqueIds(ms) ==> UniqueIds(ms[..i] + ms[i + 1..])
  {
  }

  /** With unique ids, after the record holding `id` is removed no record holds
      it, so a second DELETE of the same id finds nothing. */
  lemma SecondDeleteNotFound(ms: seq<Movie>, id: string)
    requires UniqueIds(ms) && 0 <= FindIndex(ms, id)
    ensures var i := FindIndex(ms, id); FindIndex(ms[..i] + ms[i + 1..], id) == -1
  {
  }

  /** After a successful create, looking the fresh id up finds the new record. */
  lemma CreatedIsFound(ms: seq<Movie>, created: Movie)
    requires forall m :: m in ms ==> m.id != created.id
    ensures FindIndex(ms + [created], created.id) == |ms|
    ensures UniqueIds(ms) ==> UniqueIds(ms + [created])
  {
    var r := ms + [created];
    forall j | 0 <= j < |ms|
      ensures r[j].id != created.id
    {
      assert r[j] == ms[j] && ms[j] in ms;
    }
    assert r[|ms|] == created;
  }

  /** A merge takes every field the patch carries and keeps every other field and the id. */
  lemma MergeOverwritesOnlySent(m: Movie, p: MoviePatch)
    ensures Merge(m, p).id == m.id
    ensures forall f :: Sent(p, f) ==> Carries(p, Merge(m, p).info, f)
    ensures forall f :: !Sent(p, f) ==> SameField(Merge(m, p).info, m.info, f)
  {
  }

  /** PATCH with a body: the fields the body sends take the validated values,
      the fields it does not send keep their old values. */
  lemma PatchAppliesSentFields(m: Movie, body: Json, urlOk: string -> bool)
    requires ValidatePartialMovie(body, urlOk).Success?
    ensures var r := Merge(m, ValidatePartialMovie(body, urlOk).value);
      && r.id == m.id
      && (forall f :: Key(f) in body.members ==> Carries(ValidatePartialMovie(body, urlOk).value, r.info, f))
      && (forall f :: Key(f) !in body.members ==> SameField(r.info, m.info, f))
  {
    MergeOverwritesOnlySent(m, ValidatePartialMovie(body, urlOk).value);
  }

  /** Applying the same patch twice is the same as applying it once. */
  lemma MergeIdempotent(m: Movie, p: MoviePatch)
    ensures Merge(Merge(m, p), p) == Merge(m, p)
  {
  }

  /** A validated patch applied to a well-formed record leaves it well-formed. */
  lemma MergeKeepsWellFormed(m: Movie, p: MoviePatch, urlOk: string -> bool)
    requires WellFormed(m.info, urlOk) && PatchWellFormed(p, urlOk)
    ensures WellFormed(Merge(m, p).info, urlOk)
  {
  }

  /** A patch that sends every field (rate included) replaces all of the record but its id. */
  lemma CompletePatchReplaces(m: Movie, d: MovieData)
    ensures Merge(m, AsPatch(d, true)) == Movie(m.id, d)
  {
  }
}
