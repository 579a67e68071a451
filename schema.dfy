/** The movie payload validator: the field rules of `movieSchema` and the two
    entry points `validateMovie` (creation, every field but `rate` required)
    and `validatePartialMovie` (patches, every field optional).

    A request body is a parsed JSON value. Validation collects one issue per
    failed check, in the order of the schema's keys and, within a key, in the
    order of the chained checks, and either returns the normalised data or the
    list of issues. Keys the schema does not name (such as `id`) are dropped. */
module MovieSchema {
  import opened Wrappers

  /** A parsed JSON value. JavaScript numbers are modelled as reals. */
  datatype Json =
    | JNull
    | JBool(b: bool)
    | JNum(n: real)
    | JStr(s: string)
    | JArr(items: seq<Json>)
    | JObj(members: map<string, Json>)

  /** The keys of the schema, in declaration order. */
  datatype Field = Title | Year | Director | Duration | Rate | Poster | Genre

  function Key(f: Field): (k: string)
    ensures k in SchemaKeys
  {
    match f
    case Title => "title"
    case Year => "year"
    case Director => "director"
    case Duration => "duration"
    case Rate => "rate"
    case Poster => "poster"
    case Genre => "genre"
  }

  const SchemaKeys: set<string> := {"title", "year", "director", "duration", "rate", "poster", "genre"}

  /** The value `rate` takes when a creation payload omits it. */
  const DefaultRate: real := 5.0

  /** The genre enumeration; membership is case-sensitive. */
  const Genres: seq<string> :=
    ["Action", "Crime", "Drama", "Adventure", "Sci-Fi", "Romance", "Animation", "Biography", "Fantasy"]

  /** Which validation modes exist: creation (`validateMovie`) or patch (`validatePartialMovie`). */
  datatype Mode = Full | Partial

  /** What a failed check complains about (the issue's message text is not modelled). */
  datatype Code = Required | WrongType | NotInteger | TooSmall | TooBig | InvalidUrl | NotInEnum

  /** Where an issue is: the body itself, a field, or one element of the genre array. */
  datatype Path = Body | OnField(field: Field) | OnElement(field: Field, index: nat)

  datatype Issue = Issue(path: Path, code: Code)

  predicate Concerns(iss: Issue, f: Field) {
    !iss.path.Body? && iss.path.field == f
  }

  /** Some issue in `issues` is about field `f`. */
  predicate Reported(issues: seq<Issue>, f: Field) {
    exists iss :: iss in issues && Concerns(iss, f)
  }

  /** The normalised result of a full validation. */
  datatype MovieData = MovieData(
    title: string,
    year: int,
    director: string,
    duration: int,
    rate: real,
    poster: string,
    genre: seq<string>)

  /** The result of a partial validation: a field is `Some` exactly when it was sent. */
  datatype MoviePatch = MoviePatch(
    title: Option<string>,
    year: Option<int>,
    director: Option<string>,
    duration: Option<int>,
    rate: Option<real>,
    poster: Option<string>,
    genre: Option<seq<string>>)

  // ---------------------------------------------------------------------------
  // The field rules, stated as predicates (the reference definition)
  // ---------------------------------------------------------------------------

  predicate IsInteger(x: real) {
    x.Floor as real == x
  }

  predicate IsGenre(v: Json) {
    v.JStr? && v.s in Genres
  }

  /** Value `v`, present under field `f`, satisfies that field's rule.
      `urlOk` stands for the URL syntax check of the validation library. */
  predicate Accepts(f: Field, v: Json, urlOk: string -> bool) {
    match f
    case Title => v.JStr?
    case Year => v.JNum? && IsInteger(v.n) && 1900.0 <= v.n <= 2025.0
    case Director => v.JStr?
    case Duration => v.JNum? && IsInteger(v.n) && 0.0 < v.n
    case Rate => v.JNum? && 0.0 <= v.n <= 10.0
    case Poster => v.JStr? && urlOk(v.s)
    case Genre => v.JArr? && forall i :: 0 <= i < |v.items| ==> IsGenre(v.items[i])
  }

  /** Field `f` of object `members` is acceptable in `mode`: when present it obeys
      its rule, and when absent the mode lets it be absent (partial mode, or `rate`). */
  predicate FieldOk(f: Field, members: map<string, Json>, mode: Mode, urlOk: string -> bool) {
    if Key(f) in members then Accepts(f, members[Key(f)], urlOk)
    else mode == Partial || f == Rate
  }

  predicate ObjectOk(members: map<string, Json>, mode: Mode, urlOk: string -> bool) {
    forall f :: FieldOk(f, members, mode, urlOk)
  }

  /** What every record created from validated data satisfies. */
  predicate WellFormed(d: MovieData, urlOk: string -> bool) {
    && 1900 <= d.year <= 2025
    && 0 < d.duration
    && 0.0 <= d.rate <= 10.0
    && urlOk(d.poster)
    && forall g :: g in d.genre ==> g in Genres
  }

  /** What every validated patch satisfies, field by field for the fields it carries. */
  predicate PatchWellFormed(p: MoviePatch, urlOk: string -> bool) {
    && (p.year.Some? ==> 1900 <= p.year.value <= 2025)
    && (p.duration.Some? ==> 0 < p.duration.value)
    && (p.rate.Some? ==> 0.0 <= p.rate.value <= 10.0)
    && (p.poster.Some? ==> urlOk(p.poster.value))
    && (p.genre.Some? ==> forall g :: g in p.genre.value ==> g in Genres)
  }

  /** Field `f` is carried by patch `p`. */
  predicate Sent(p: MoviePatch, f: Field) {
    match f
    case Title => p.title.Some?
    case Year => p.year.Some?
    case Director => p.director.Some?
    case Duration => p.duration.Some?
    case Rate => p.rate.Some?
    case Poster => p.poster.Some?
    case Genre => p.genre.Some?
  }

  // ---------------------------------------------------------------------------
  // The checks as the schema runs them: one issue per failed check
  // ---------------------------------------------------------------------------

  function Check(f: Field, failed: bool, code: Code): seq<Issue> {
    if failed then [Issue(OnField(f), code)] else []
  }

  /** Issues for the elements of a genre array whose first element has index `from`. */
  function ElementIssues(items: seq<Json>, from: nat): (r: seq<Issue>)
    ensures r == [] <==> forall i :: 0 <= i < |items| ==> IsGenre(items[i])
    ensures forall iss :: iss in r ==> Concerns(iss, Genre)
    decreases |items|
  {
    if items == [] then []
    else
      var head :=
        if !items[0].JStr? then [Issue(OnElement(Genre, from), WrongType)]
        else if items[0].s !in Genres then [Issue(OnElement(Genre, from), NotInEnum)]
        else [];
      var tail := ElementIssues(items[1..], from + 1);
      assert forall i :: 1 <= i < |items| ==> items[i] == items[1..][i - 1];
      head + tail
  }

  /** Issues raised by value `v` present under field `f`. A value of the wrong
      JSON type stops that field's checks; otherwise every chained check runs. */
  function FieldIssues(f: Field, v: Json, urlOk: string -> bool): (r: seq<Issue>)
    ensures r == [] <==> Accepts(f, v, urlOk)
    ensures forall iss :: iss in r ==> Concerns(iss, f)
  {
    match f
    case Title | Director =>
      Check(f, !v.JStr?, WrongType)
    case Year =>
      if !v.JNum? then Check(Year, true, WrongType)
      else
        Check(Year, !IsInteger(v.n), NotInteger)  // .int()
        + Check(Year, v.n <= 0.0, TooSmall)       // .positive()
        + Check(Year, v.n < 1900.0, TooSmall)     // .min(1900)
        + Check(Year, v.n > 2025.0, TooBig)       // .max(2025)
    case Duration =>
      if !v.JNum? then Check(Duration, true, WrongType)
      else
        Check(Duration, !IsInteger(v.n), NotInteger)  // .int()
        + Check(Duration, v.n <= 0.0, TooSmall)       // .positive()
    case Rate =>
      if !v.JNum? then Check(Rate, true, WrongType)
      else Check(Rate, v.n < 0.0, TooSmall) + Check(Rate, v.n > 10.0, TooBig)
    case Poster =>
      if !v.JStr? then Check(Poster, true, WrongType)
      else Check(Poster, !urlOk(v.s), InvalidUrl)
    case Genre =>
      if !v.JArr? then Check(Genre, true, WrongType)
      else ElementIssues(v.items, 0)
  }

  /** Issues for field `f` of an object: its checks when present, `Required`
      when absent in full mode (except `rate`, which has a default). */
  function MemberIssues(f: Field, members: map<string, Json>, mode: Mode, urlOk: string -> bool): (r: seq<Issue>)
    ensures r == [] <==> FieldOk(f, members, mode, urlOk)
    ensures forall iss :: iss in r ==> Concerns(iss, f)
  {
    if Key(f) in members then FieldIssues(f, members[Key(f)], urlOk)
    else Check(f, mode == Full && f != Rate, Required)
  }

  /** All issues of an object, in the order of the schema's keys. */
  function ObjectIssues(members: map<string, Json>, mode: Mode, urlOk: string -> bool): seq<Issue> {
    MemberIssues(Title, members, mode, urlOk)
      + MemberIssues(Year, members, mode, urlOk)
      + MemberIssues(Director, members, mode, urlOk)
      + MemberIssues(Duration, members, mode, urlOk)
      + MemberIssues(Rate, members, mode, urlOk)
      + MemberIssues(Poster, members, mode, urlOk)
      + MemberIssues(Genre, members, mode, urlOk)
  }

  /** An object has no issues exactly when every field is acceptable; and an
      issue names field `f` exactly when `f` is not acceptable. */
  lemma {:induction false} ObjectIssuesExact(members: map<string, Json>, mode: Mode, urlOk: string -> bool)
    ensures ObjectIssues(members, mode, urlOk) == [] <==> ObjectOk(members, mode, urlOk)
    ensures forall f :: Reported(ObjectIssues(members, mode, urlOk), f) <==> !FieldOk(f, members, mode, urlOk)
  {
    var all := ObjectIssues(members, mode, urlOk);
    forall f
      ensures Reported(all, f) <==> !FieldOk(f, members, mode, urlOk)
    {
      var own := MemberIssues(f, members, mode, urlOk);
      if !FieldOk(f, members, mode, urlOk) {
        assert own[0] in all && Concerns(own[0], f);
      }
      if Reported(all, f) {
        var iss :| iss in all && Concerns(iss, f);
        assert iss in own;
      }
    }
  }

  // ---------------------------------------------------------------------------
  // Extraction of the normalised values
  // ---------------------------------------------------------------------------

  function Texts(items: seq<Json>): (r: seq<string>)
    requires forall i :: 0 <= i < |items| ==> items[i].JStr?
  {
    seq(|items|, i requires 0 <= i < |items| => items[i].s)
  }

  /** A list of strings as a JSON array of strings. */
  function StrArray(gs: seq<string>): Json {
    JArr(seq(|gs|, i requires 0 <= i < |gs| => JStr(gs[i])))
  }

  /** Field `f` of normalised data, written back as the JSON value it stands for. */
  function FieldJson(d: MovieData, f: Field): Json {
    match f
    case Title => JStr(d.title)
    case Year => JNum(d.year as real)
    case Director => JStr(d.director)
    case Duration => JNum(d.duration as real)
    case Rate => JNum(d.rate)
    case Poster => JStr(d.poster)
    case Genre => StrArray(d.genre)
  }

  /** Field `f` of a patch, written back as the JSON value sent, or `None` when not sent. */
  function PatchJson(p: MoviePatch, f: Field): Option<Json> {
    match f
    case Title => if p.title.Some? then Some(JStr(p.title.value)) else None
    case Year => if p.year.Some? then Some(JNum(p.year.value as real)) else None
    case Director => if p.director.Some? then Some(JStr(p.director.value)) else None
    case Duration => if p.duration.Some? then Some(JNum(p.duration.value as real)) else None
    case Rate => if p.rate.Some? then Some(JNum(p.rate.value)) else None
    case Poster => if p.poster.Some? then Some(JStr(p.poster.value)) else None
    case Genre => if p.genre.Some? then Some(StrArray(p.genre.value)) else None
  }

  /** Reading the strings out of a JSON array of strings and writing them back gives the array. */
  lemma TextsRoundTrip(items: seq<Json>)
    requires forall i :: 0 <= i < |items| ==> items[i].JStr?
    ensures StrArray(Texts(items)) == JArr(items)
  {
    var back := StrArray(Texts(items)).items;
    assert |back| == |items|;
    forall i | 0 <= i < |items| ensures back[i] == items[i] {
      assert back[i] == JStr(items[i].s);
    }
  }

  /** The normalised data of an object that passes full validation: the schema's
      fields only, with `rate` defaulted. */
  function DataOf(members: map<string, Json>, urlOk: string -> bool): (d: MovieData)
    requires ObjectOk(members, Full, urlOk)
    ensures WellFormed(d, urlOk)
    ensures forall f :: Key(f) in members ==> FieldJson(d, f) == members[Key(f)]
    ensures Key(Rate) !in members ==> d.rate == DefaultRate
  {
    assert FieldOk(Title, members, Full, urlOk) && FieldOk(Year, members, Full, urlOk);
    assert FieldOk(Director, members, Full, urlOk) && FieldOk(Duration, members, Full, urlOk);
    assert FieldOk(Rate, members, Full, urlOk) && FieldOk(Poster, members, Full, urlOk);
    assert FieldOk(Genre, members, Full, urlOk);
    var genre := members[Key(Genre)].items;
    TextsRoundTrip(genre);
    MovieData(
      members[Key(Title)].s,
      members[Key(Year)].n.Floor,
      members[Key(Director)].s,
      members[Key(Duration)].n.Floor,
      if Key(Rate) in members then members[Key(Rate)].n else DefaultRate,
      members[Key(Poster)].s,
      Texts(genre))
  }

  /** A sent string field, as the string it holds. */
  function SentText(members: map<string, Json>, f: Field): (r: Option<string>)
    requires Key(f) in members ==> members[Key(f)].JStr?
    ensures r.Some? <==> Key(f) in members
    ensures r.Some? ==> JStr(r.value) == members[Key(f)]
  {
    if Key(f) in members then Some(members[Key(f)].s) else None
  }

  /** A sent integer-valued number field, as that integer. */
  function SentWhole(members: map<string, Json>, f: Field): (r: Option<int>)
    requires Key(f) in members ==> members[Key(f)].JNum? && IsInteger(members[Key(f)].n)
    ensures r.Some? <==> Key(f) in members
    ensures r.Some? ==> JNum(r.value as real) == members[Key(f)]
  {
    if Key(f) in members then Some(members[Key(f)].n.Floor) else None
  }

  /** A sent genre array, as its list of strings. */
  function SentGenres(members: map<string, Json>): (r: Option<seq<string>>)
    requires Key(Genre) in members ==> members[Key(Genre)].JArr?
    requires Key(Genre) in members ==>
      forall i :: 0 <= i < |members[Key(Genre)].items| ==> IsGenre(members[Key(Genre)].items[i])
    ensures r.Some? <==> Key(Genre) in members
    ensures r.Some? ==> forall g :: g in r.value ==> g in Genres
    ensures r.Some? ==> StrArray(r.value) == members[Key(Genre)]
  {
    if Key(Genre) in members then
      var items := members[Key(Genre)].items;
      assert forall i :: 0 <= i < |items| ==> IsGenre(items[i]);
      TextsRoundTrip(items);
      var gs := Texts(items);
      assert forall i :: 0 <= i < |gs| ==> gs[i] == items[i].s;
      Some(gs)
    else None
  }

  /** The normalised patch of an object that passes partial validation: exactly
      the schema's fields that were sent. */
  function PatchOf(members: map<string, Json>, urlOk: string -> bool): (p: MoviePatch)
    requires ObjectOk(members, Partial, urlOk)
    ensures PatchWellFormed(p, urlOk)
    ensures forall f :: Sent(p, f) <==> Key(f) in members
    ensures forall f :: PatchJson(p, f) == if Key(f) in members then Some(members[Key(f)]) else None
  {
    assert FieldOk(Title, members, Partial, urlOk) && FieldOk(Year, members, Partial, urlOk);
    assert FieldOk(Director, members, Partial, urlOk) && FieldOk(Duration, members, Partial, urlOk);
    assert FieldOk(Rate, members, Partial, urlOk) && FieldOk(Poster, members, Partial, urlOk);
    assert FieldOk(Genre, members, Partial, urlOk);
    MoviePatch(
      SentText(members, Title),
      SentWhole(members, Year),
      SentText(members, Director),
      SentWhole(members, Duration),
      if Key(Rate) in members then Some(members[Key(Rate)].n) else None,
      SentText(members, Poster),
      SentGenres(members))
  }

  // ---------------------------------------------------------------------------
  // The two entry points
  // ---------------------------------------------------------------------------

  /** All issues of a body in a mode: a body that is not an object is one issue. */
  function Issues(body: Json, mode: Mode, urlOk: string -> bool): seq<Issue> {
    if body.JObj? then ObjectIssues(body.members, mode, urlOk) else [Issue(Body, WrongType)]
  }

  /** `validateMovie`: full validation of a creation payload. */
  function ValidateMovie(body: Json, urlOk: string -> bool): (r: Result<MovieData, seq<Issue>>)
    ensures r.Success? <==> body.JObj? && ObjectOk(body.members, Full, urlOk)
    ensures r.Success? ==> WellFormed(r.value, urlOk)
    ensures r.Success? ==> forall f :: Key(f) in body.members ==> FieldJson(r.value, f) == body.members[Key(f)]
    ensures r.Success? && Key(Rate) !in body.members ==> r.value.rate == DefaultRate
    ensures r.Failure? ==> r.error != [] && r.error == Issues(body, Full, urlOk)
  {
    if !body.JObj? then Failure([Issue(Body, WrongType)])
    else
      ObjectIssuesExact(body.members, Full, urlOk);
      var issues := ObjectIssues(body.members, Full, urlOk);
      if issues == [] then Success(DataOf(body.members, urlOk)) else Failure(issues)
  }

  /** `validatePartialMovie`: the same rules with every field optional. */
  function ValidatePartialMovie(body: Json, urlOk: string -> bool): (r: Result<MoviePatch, seq<Issue>>)
    ensures r.Success? <==> body.JObj? && ObjectOk(body.members, Partial, urlOk)
    ensures r.Success? ==> PatchWellFormed(r.value, urlOk)
    ensures r.Success? ==> forall f :: Sent(r.value, f) <==> Key(f) in body.members
    ensures r.Success? ==> forall f ::
      PatchJson(r.value, f) == if Key(f) in body.members then Some(body.members[Key(f)]) else None
    ensures r.Failure? ==> r.error != [] && r.error == Issues(body, Partial, urlOk)
  {
    if !body.JObj? then Failure([Issue(Body, WrongType)])
    else
      ObjectIssuesExact(body.members, Partial, urlOk);
      var issues := ObjectIssues(body.members, Partial, urlOk);
      if issues == [] then Success(PatchOf(body.members, urlOk)) else Failure(issues)
  }

  // ---------------------------------------------------------------------------
  // Properties
  // ---------------------------------------------------------------------------

  /** The data a full validation would have produced, seen as a patch that sends
      every field (`rate` only when the payload itself carried it). */
  function AsPatch(d: MovieData, rateSent: bool): MoviePatch {
    MoviePatch(Some(d.title), Some(d.year), Some(d.director), Some(d.duration),
      if rateSent then Some(d.rate) else None, Some(d.poster), Some(d.genre))
  }

  /** A rejected object names exactly the fields that break their rule, in either mode. */
  lemma RejectionNamesFailedFields(body: Json, urlOk: string -> bool)
    requires body.JObj?
    ensures forall f ::
      !FieldOk(f, body.members, Full, urlOk) <==>
        ValidateMovie(body, urlOk).Failure? && Reported(ValidateMovie(body, urlOk).error, f)
    ensures forall f ::
      !FieldOk(f, body.members, Partial, urlOk) <==>
        ValidatePartialMovie(body, urlOk).Failure? && Reported(ValidatePartialMovie(body, urlOk).error, f)
  {
    ObjectIssuesExact(body.members, Full, urlOk);
    ObjectIssuesExact(body.members, Partial, urlOk);
  }

  /** A creation payload is accepted only with an integer `year` in [1900, 2025],
      which it keeps; any other or a missing `year` is reported as a `year` issue. */
  lemma YearRule(body: Json, urlOk: string -> bool)
    ensures var r := ValidateMovie(body, urlOk);
      r.Success? ==>
        && Key(Year) in body.members
        && body.members[Key(Year)].JNum?
        && IsInteger(body.members[Key(Year)].n)
        && 1900.0 <= body.members[Key(Year)].n <= 2025.0
        && r.value.year as real == body.members[Key(Year)].n
    ensures var r := ValidateMovie(body, urlOk);
      body.JObj? && !(Key(Year) in body.members && Accepts(Year, body.members[Key(Year)], urlOk)) ==>
        r.Failure? && Reported(r.error, Year)
  {
    if body.JObj? {
      RejectionNamesFailedFields(body, urlOk);
      assert ValidateMovie(body, urlOk).Success? ==> FieldOk(Year, body.members, Full, urlOk);
    }
  }

  /** `duration` is accepted only as a positive integer, in either mode. */
  lemma DurationRule(body: Json, urlOk: string -> bool)
    requires body.JObj? && Key(Duration) in body.members
    ensures var v := body.members[Key(Duration)];
      (v.JNum? && IsInteger(v.n) && v.n > 0.0) <==> !Reported(Issues(body, Full, urlOk), Duration)
    ensures var v := body.members[Key(Duration)];
      ValidatePartialMovie(body, urlOk).Success? ==>
        v.JNum? && IsInteger(v.n) && v.n > 0.0 && ValidatePartialMovie(body, urlOk).value.duration == Some(v.n.Floor)
  {
    ObjectIssuesExact(body.members, Full, urlOk);
    ObjectIssuesExact(body.members, Partial, urlOk);
    assert ValidatePartialMovie(body, urlOk).Success? ==> FieldOk(Duration, body.members, Partial, urlOk);
  }

  /** A present `rate` must lie in [0, 10]. A creation payload without `rate`
      gets the default 5; a patch without `rate` carries none. */
  lemma RateRule(body: Json, urlOk: string -> bool)
    requires body.JObj?
    ensures Key(Rate) in body.members ==>
      (Accepts(Rate, body.members[Key(Rate)], urlOk) <==> !Reported(Issues(body, Full, urlOk), Rate))
    ensures Key(Rate) in body.members && ValidateMovie(body, urlOk).Success? ==>
      ValidateMovie(body, urlOk).value.rate == body.members[Key(Rate)].n
    ensures Key(Rate) !in body.members && ValidateMovie(body, urlOk).Success? ==>
      ValidateMovie(body, urlOk).value.rate == DefaultRate
    ensures Key(Rate) !in body.members && ValidatePartialMovie(body, urlOk).Success? ==>
      ValidatePartialMovie(body, urlOk).value.rate == None
    ensures !Reported(Issues(body, Full, urlOk), Rate) <==> !Reported(Issues(body, Partial, urlOk), Rate)
  {
    ObjectIssuesExact(body.members, Full, urlOk);
    ObjectIssuesExact(body.members, Partial, urlOk);
  }

  /** Every accepted genre is one of the nine listed values, and a creation
      payload without `genre` fails with `genre` marked as required. */
  lemma GenreRule(body: Json, urlOk: string -> bool)
    requires body.JObj?
    ensures Key(Genre) in body.members ==>
      (Accepts(Genre, body.members[Key(Genre)], urlOk) <==> !Reported(Issues(body, Full, urlOk), Genre))
    ensures ValidateMovie(body, urlOk).Success? ==> forall g :: g in ValidateMovie(body, urlOk).value.genre ==> g in Genres
    ensures Key(Genre) !in body.members ==>
      ValidateMovie(body, urlOk).Failure? && Issue(OnField(Genre), Required) in ValidateMovie(body, urlOk).error
  {
    ObjectIssuesExact(body.members, Full, urlOk);
    if Key(Genre) !in body.members {
      assert MemberIssues(Genre, body.members, Full, urlOk) == [Issue(OnField(Genre), Required)];
    }
  }

  /** Keys outside the schema (`id` among them) never influence either validation:
      adding, changing or removing one gives the same result. */
  lemma NonSchemaKeysIgnored(members: map<string, Json>, k: string, v: Json, urlOk: string -> bool)
    requires k !in SchemaKeys
    ensures ValidateMovie(JObj(members[k := v]), urlOk) == ValidateMovie(JObj(members), urlOk)
    ensures ValidatePartialMovie(JObj(members[k := v]), urlOk) == ValidatePartialMovie(JObj(members), urlOk)
    ensures ValidateMovie(JObj(members - {k}), urlOk) == ValidateMovie(JObj(members), urlOk)
    ensures ValidatePartialMovie(JObj(members - {k}), urlOk) == ValidatePartialMovie(JObj(members), urlOk)
  {
    SameSchemaFields(members[k := v], members, urlOk);
    SameSchemaFields(members - {k}, members, urlOk);
  }

  lemma SameSchemaFields(a: map<string, Json>, b: map<string, Json>, urlOk: string -> bool)
    requires forall f :: (Key(f) in a <==> Key(f) in b) && (Key(f) in a ==> a[Key(f)] == b[Key(f)])
    ensures ValidateMovie(JObj(a), urlOk) == ValidateMovie(JObj(b), urlOk)
    ensures ValidatePartialMovie(JObj(a), urlOk) == ValidatePartialMovie(JObj(b), urlOk)
  {
    forall f, mode
      ensures MemberIssues(f, a, mode, urlOk) == MemberIssues(f, b, mode, urlOk)
      ensures FieldOk(f, a, mode, urlOk) == FieldOk(f, b, mode, urlOk)
    {
    }
    assert ObjectIssues(a, Full, urlOk) == ObjectIssues(b, Full, urlOk);
    assert ObjectIssues(a, Partial, urlOk) == ObjectIssues(b, Partial, urlOk);
    if ObjectOk(a, Full, urlOk) {
      assert DataOf(a, urlOk) == DataOf(b, urlOk);
    }
    if ObjectOk(a, Partial, urlOk) {
      assert PatchOf(a, urlOk) == PatchOf(b, urlOk);
    }
  }

  /** Whatever passes full validation passes partial validation, and the patch
      carries the same values (no default `rate` is invented in partial mode). */
  lemma FullImpliesPartial(body: Json, urlOk: string -> bool)
    requires ValidateMovie(body, urlOk).Success?
    ensures ValidatePartialMovie(body, urlOk) ==
      Success(AsPatch(ValidateMovie(body, urlOk).value, Key(Rate) in body.members))
  {
  }

  /** Conversely, a patch that sends every required field passes full validation. */
  lemma CompletePatchIsFull(body: Json, urlOk: string -> bool)
    requires ValidatePartialMovie(body, urlOk).Success?
    requires forall f :: f != Rate ==> Key(f) in body.members
    ensures ValidateMovie(body, urlOk).Success?
    ensures ValidatePartialMovie(body, urlOk).value == AsPatch(ValidateMovie(body, urlOk).value, Key(Rate) in body.members)
  {
  }
}
