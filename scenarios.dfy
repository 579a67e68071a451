/** Concrete request sequences against the store and the validator: the
    expected outcome of each follows from the contracts alone. */
module Scenarios {
  import opened Wrappers
  import opened MovieSchema
  import opened MoviesApp

  function SampleBody(): Json {
    JObj(map[
      "title" := JStr("X"),
      "year" := JNum(2020.0),
      "director" := JStr("D"),
      "duration" := JNum(100.0),
      "poster" := JStr("http://a.com/p.jpg"),
      "genre" := JArr([JStr("Action")]),
      "id" := JStr("chosen-by-client")])
  }

  /** A creation payload without `rate` (and with a client-chosen `id`, which is
      dropped) is accepted with the default rate 5. */
  lemma CreationDefaultsRate(urlOk: string -> bool)
    requires urlOk("http://a.com/p.jpg")
    ensures ValidateMovie(SampleBody(), urlOk) ==
      Success(MovieData("X", 2020, "D", 100, 5.0, "http://a.com/p.jpg", ["Action"]))
  {
    var body := SampleBody();
    var m := body.members;
    assert Key(Rate) !in m;
    assert m[Key(Title)] == JStr("X") && m[Key(Director)] == JStr("D");
    assert m[Key(Year)] == JNum(2020.0) && m[Key(Duration)] == JNum(100.0);
    assert m[Key(Poster)] == JStr("http://a.com/p.jpg") && m[Key(Genre)] == JArr([JStr("Action")]);
    assert [JStr("Action")][0] == JStr("Action");
    forall f ensures FieldOk(f, m, Full, urlOk) {
      match f
      case Title =>
      case Year =>
      case Director =>
      case Duration =>
      case Rate =>
      case Poster =>
      case Genre =>
    }
    assert Texts([JStr("Action")]) == ["Action"];
    assert DataOf(m, urlOk) == MovieData("X", 2020, "D", 100, 5.0, "http://a.com/p.jpg", ["Action"]);
  }

  /** A year outside [1900, 2025] is rejected with a `year` issue. */
  lemma YearOutOfRangeRejected(urlOk: string -> bool)
    ensures var body := JObj(SampleBody().members[Key(Year) := JNum(1899.0)]);
      ValidateMovie(body, urlOk).Failure? && Reported(ValidateMovie(body, urlOk).error, Year)
  {
    YearRule(JObj(SampleBody().members[Key(Year) := JNum(1899.0)]), urlOk);
  }

  /** PATCH `{rate: 9}` on a stored movie: the reply carries rate 9 and every
      other field as before; the store changes at that index only. */
  method PatchRateOnly(store: MovieStore, id: string) returns (reply: Reply)
    requires 0 <= FindIndex(store.movies, id)
    modifies store
    ensures var i := FindIndex(old(store.movies), id);
      && reply.Updated?
      && reply.movie.info == old(store.movies[i].info).(rate := 9.0)
      && reply.movie.id == id
      && store.movies == old(store.movies)[i := reply.movie]
  {
    var body := JObj(map["rate" := JNum(9.0)]);
    assert forall f :: FieldOk(f, body.members, Partial, store.urlOk);
    reply := store.Patch(id, body);
  }

  /** A second DELETE of the same id answers not-found, ids being unique. */
  method DeleteTwice(store: MovieStore, id: string) returns (first: Reply, second: Reply)
    requires UniqueIds(store.movies)
    modifies store
    ensures first == (if FindIndex(old(store.movies), id) < 0 then NotFound else Deleted)
    ensures second == NotFound
  {
    ghost var before := store.movies;
    first := store.Delete(id);
    if first == Deleted {
      SecondDeleteNotFound(before, id);
    }
    second := store.Delete(id);
  }
}
