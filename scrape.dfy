/** scrape.py: one day's document from the showtimes of every configured
    theater (`get_showtimes`), and the run over the seven days starting
    today (`main`). Days are offsets 0..6 from the day of the run; the
    listing site is given per theater id and day. */
module Scrape {
  import opened Common
  import opened Movies
  import opened Showtimes
  import opened Grouping
  import opened Ranking

  /** The listing pages the site serves for a theater id on a day offset. */
  type Web = (string, nat) -> seq<Response>

  /** One theater's showtimes of a day, or the error its listing raises. */
  type TheaterListing = Theater -> Result<seq<Showtime>>

  /** `theater.getShowtimes(date)` for every theater on `day`: its listing
      from page 1, with nothing gathered yet. */
  function DayListing(web: Web, catalog: Catalog, day: nat): TheaterListing {
    (t: Theater) => Listing(t, web(t.id, day), catalog, 1, [])
  }

  /** Some theater's listing raises `e`. */
  predicate SomeTheaterFails(theaters: seq<Theater>, listing: TheaterListing, e: Error) {
    exists t :: t in theaters && listing(t) == Err(e)
  }

  /** The `extend` loop of `get_showtimes`: the showtimes of `theaters`,
      theater after theater in the configured order, or the first error. */
  function Gather(theaters: seq<Theater>, listing: TheaterListing): (r: Result<seq<Showtime>>)
    ensures r.Err? ==> SomeTheaterFails(theaters, listing, r.error)
    decreases |theaters|
  {
    if theaters == [] then Ok([])
    else
      var last := theaters[|theaters| - 1];
      var before :- Gather(theaters[..|theaters| - 1], listing);
      var these :- listing(last);
      Ok(before + these)
  }

  /** The showtimes of `theaters` on `day`. */
  function Fetched(theaters: seq<Theater>, web: Web, catalog: Catalog, day: nat): Result<seq<Showtime>> {
    Gather(theaters, DayListing(web, catalog, day))
  }

  /** The day's document: the grouped showtimes, most wanted first. */
  function DayMovies(theaters: seq<Theater>, web: Web, catalog: Catalog, day: nat): (r: Result<seq<MovieDoc>>)
    ensures r.Ok? <==> Fetched(theaters, web, catalog, day).Ok?
    ensures r.Err? ==> r.error == Fetched(theaters, web, catalog, day).error
    ensures r.Ok? ==> Descending(r.value) && |r.value| <= |Fetched(theaters, web, catalog, day).value|
  {
    var ss :- Fetched(theaters, web, catalog, day);
    SortDescending(Group(ss));
    Ok(SortDesc(Group(ss)))
  }

  /** A failing theater fails the whole day, whatever the theaters after it
      would give. */
  lemma {:induction false} GatherFails(theaters: seq<Theater>, listing: TheaterListing, i: nat)
    requires i <= |theaters| && Gather(theaters[..i], listing).Err?
    ensures Gather(theaters, listing) == Gather(theaters[..i], listing)
    decreases |theaters| - i
  {
    if i < |theaters| {
      var t := theaters[..i + 1];
      assert t[..i] == theaters[..i];
      GatherFails(theaters, listing, i + 1);
    } else {
      assert theaters[..i] == theaters;
    }
  }

  /** The day of one theater is that theater's listing. */
  lemma GatherSingle(t: Theater, listing: TheaterListing)
    ensures Gather([t], listing) == listing(t)
  {
    assert [t][..0] == [];
    assert listing(t).Ok? ==> [] + listing(t).value == listing(t).value;
  }

  /** A day without errors over two groups of theaters is the first
      group's showtimes followed by the second's; `GatherFails` gives the
      error of a failing day. */
  lemma {:induction false} GatherSplit(a: seq<Theater>, b: seq<Theater>, listing: TheaterListing)
    requires Gather(a + b, listing).Ok?
    ensures Gather(a, listing).Ok? && Gather(b, listing).Ok?
    ensures Gather(a + b, listing).value == Gather(a, listing).value + Gather(b, listing).value
    decreases |b|
  {
    if b == [] {
      assert a + b == a;
      assert Gather(a, listing).value + [] == Gather(a, listing).value;
    } else {
      var n := |b| - 1;
      var t := b[n];
      var ab := a + b;
      assert ab[..|ab| - 1] == a + b[..n] && ab[|ab| - 1] == t;
      GatherSplit(a, b[..n], listing);
      var fa, fb, l := Gather(a, listing).value, Gather(b[..n], listing).value, listing(t).value;
      AppendAssociates(fa, fb, l);
    }
  }

  /** Theater `i`'s listing succeeds and sits between the showtimes of the
      theaters before it and those of the theaters after it. */
  predicate ListedAt(theaters: seq<Theater>, listing: TheaterListing, i: nat)
    requires i < |theaters|
  {
    var before, after := Gather(theaters[..i], listing), Gather(theaters[i + 1..], listing);
    && before.Ok? && listing(theaters[i]).Ok? && after.Ok? && Gather(theaters, listing).Ok?
    && Gather(theaters, listing).value == before.value + listing(theaters[i]).value + after.value
  }

  /** In a day without errors every theater's listing succeeds, and the
      day is the theaters' showtimes in configured order. */
  lemma GatherConcatenates(theaters: seq<Theater>, listing: TheaterListing)
    requires Gather(theaters, listing).Ok?
    ensures forall i :: 0 <= i < |theaters| ==> ListedAt(theaters, listing, i)
  {
    forall i | 0 <= i < |theaters| ensures ListedAt(theaters, listing, i) {
      var before, here, after := theaters[..i], [theaters[i]], theaters[i + 1..];
      assert before + (here + after) == theaters;
      GatherSplit(before, here + after, listing);
      GatherSplit(here, after, listing);
      GatherSingle(theaters[i], listing);
      AppendAssociates(Gather(before, listing).value, listing(theaters[i]).value, Gather(after, listing).value);
    }
  }

  /** The day's document holds every title of the day's showtimes once,
      most wanted first with ties in the order the titles were first seen,
      and one seance per showtime. */
  lemma DayDocument(theaters: seq<Theater>, web: Web, catalog: Catalog, day: nat)
    requires Fetched(theaters, web, catalog, day).Ok?
    ensures var ss, r := Fetched(theaters, web, catalog, day).value, DayMovies(theaters, web, catalog, day).value;
      && Descending(r)
      && (forall k :: WithCount(r, k) == WithCount(Group(ss), k))
      && (forall k :: InFirstSeenOrder(WithCount(r, k), TitlesOf(ss)))
      && DistinctTitles(r)
      && (forall t :: HasTitle(r, t) <==> t in TitlesOf(ss))
      && Total(r) == |ss|
  {
    var ss := Fetched(theaters, web, catalog, day).value;
    GroupTitles(ss);
    GroupCount(ss);
    SortFacts(Group(ss));
    forall k ensures InFirstSeenOrder(WithCount(Group(ss), k), TitlesOf(ss)) {
      WithCountOrder(Group(ss), k, TitlesOf(ss));
    }
  }

  // ---------------------------------------------------------------------
  // get_showtimes

  /** One iteration of the grouping loop, in the code's steps: create the
      title's entry, create the theater's bucket, append the seance. */
  method AddToDay(data: seq<MovieDoc>, s: Showtime) returns (next: seq<MovieDoc>)
    ensures next == AddShowtime(data, s)
  {
    next := data;
    var k := TitleIndex(next, s.movie.title);
    if k == |next| {
      next := next + [NewDoc(s.movie)];
    }
    var doc := next[k];
    ghost var entry := doc;
    var b := BucketIndex(doc.seances, s.theater.name);
    if b == |doc.seances| {
      doc := doc.(seances := doc.seances + [TheaterSeances(s.theater.name, [])]);
    }
    var bucket := doc.seances[b];
    doc := doc.(seances := doc.seances[b := bucket.(seances := bucket.seances + [SeanceOf(s)])]);
    if b == |entry.seances| {
      assert bucket == TheaterSeances(s.theater.name, []);
      assert bucket.seances + [SeanceOf(s)] == [SeanceOf(s)];
      assert (entry.seances + [bucket])[b := TheaterSeances(s.theater.name, [SeanceOf(s)])]
        == entry.seances + [TheaterSeances(s.theater.name, [SeanceOf(s)])];
    }
    assert doc == Record(entry, s);
    next := next[k := doc];
    if k == |data| {
      assert next == data + [Record(NewDoc(s.movie), s)];
    }
  }

  /** `get_showtimes(theaters, date)`: the theaters' listings in order, the
      grouping loop, the sort. Any theater's error ends the day with it. */
  method GetDay(theaters: seq<Theater>, web: Web, catalog: Catalog, day: nat) returns (r: Result<seq<MovieDoc>>)
    ensures r == DayMovies(theaters, web, catalog, day)
  {
    var list: seq<Showtime> := [];
    for i := 0 to |theaters|
      invariant Fetched(theaters[..i], web, catalog, day) == Ok(list)
    {
      var t := theaters[i];
      var got := GetShowtimes(t, web(t.id, day), catalog, 1, []);
      assert theaters[..i + 1][..i] == theaters[..i];
      if got.Err? {
        GatherFails(theaters, DayListing(web, catalog, day), i + 1);
        return Err(got.error);
      }
      list := list + got.value;
    }
    assert theaters[..|theaters|] == theaters;
    var data: seq<MovieDoc> := [];
    for i := 0 to |list|
      invariant data == Group(list[..i])
    {
      assert list[..i + 1][..i] == list[..i];
      data := AddToDay(data, list[i]);
    }
    assert list[..|list|] == list;
    r := Ok(SortDesc(data));
  }

  // ---------------------------------------------------------------------
  // The entry's "url" key, as written

  /** The grouping step as written: a new title's entry reads
      `movie.letterboxd_url`, an attribute `Movie` never sets, so the first
      showtime of every title raises. */
  function AddShowtimeAsWritten(docs: seq<MovieDoc>, s: Showtime): Result<seq<MovieDoc>> {
    var k := TitleIndex(docs, s.movie.title);
    if k == |docs| then Err(MissingAttribute("letterboxd_url"))
    else Ok(docs[k := Record(docs[k], s)])
  }

  function GroupAsWritten(ss: seq<Showtime>): Result<seq<MovieDoc>>
    decreases |ss|
  {
    if ss == [] then Ok([])
    else
      var docs :- GroupAsWritten(ss[..|ss| - 1]);
      AddShowtimeAsWritten(docs, ss[|ss| - 1])
  }

  /** As written, a day with at least one showtime always raises, so no day
      with showtimes is ever saved; only empty days group. */
  lemma {:induction false} AsWrittenFailsOnShowtimes(ss: seq<Showtime>)
    ensures GroupAsWritten(ss) == if ss == [] then Ok([]) else Err(MissingAttribute("letterboxd_url"))
    decreases |ss|
  {
    if ss != [] {
      var p := ss[..|ss| - 1];
      AsWrittenFailsOnShowtimes(p);
      if p == [] {
        assert TitleIndex([], ss[|ss| - 1].movie.title) == 0;
      }
    }
  }

  // ---------------------------------------------------------------------
  // main

  /** One entry of the theater configuration. */
  datatype TheaterConfig = TheaterConfig(id: string, name: string)

  datatype Day = Day(offset: nat, movies: seq<MovieDoc>)

  /** How a run ends: nothing configured (no fetch, no file), an exception
      out of some day, or the seven days written out. */
  datatype RunOutcome = NotConfigured | Crashed(error: Error) | Saved(days: seq<Day>)

  const WindowDays := 7

  /** The theaters the run builds from its configuration. */
  function TheatersOf(config: seq<TheaterConfig>): (ts: seq<Theater>)
    ensures |ts| == |config|
    ensures forall i :: 0 <= i < |ts| ==> ts[i].id == config[i].id && ts[i].name == config[i].name
  {
    seq(|config|, i requires 0 <= i < |config| => Theater(config[i].name, config[i].id))
  }

  /** `main`: an empty configuration returns at once; otherwise the days
      0..6 are built in order, the first failing day ends the run with its
      error, and a run that reaches the end saves the seven days, day `i`
      with offset `i` and that day's document. */
  method Run(config: seq<TheaterConfig>, web: Web, catalog: Catalog) returns (o: RunOutcome)
    ensures config == [] <==> o == NotConfigured
    ensures o.Saved? ==>
      && |o.days| == WindowDays
      && forall i :: 0 <= i < WindowDays ==>
        o.days[i].offset == i && DayMovies(TheatersOf(config), web, catalog, i) == Ok(o.days[i].movies)
    ensures o.Crashed? ==>
      exists i :: 0 <= i < WindowDays && DayMovies(TheatersOf(config), web, catalog, i) == Err(o.error) &&
        forall j :: 0 <= j < i ==> DayMovies(TheatersOf(config), web, catalog, j).Ok?
    ensures config != [] ==>
      (o.Saved? <==> forall i :: 0 <= i < WindowDays ==> DayMovies(TheatersOf(config), web, catalog, i).Ok?)
  {
    if config == [] {
      return NotConfigured;
    }
    var theaters: seq<Theater> := [];
    for i := 0 to |config|
      invariant theaters == TheatersOf(config[..i])
    {
      theaters := theaters + [Theater(config[i].name, config[i].id)];
    }
    assert config[..|config|] == config;
    var days: seq<Day> := [];
    for i := 0 to WindowDays
      invariant |days| == i
      invariant forall j :: 0 <= j < i ==>
        days[j].offset == j && DayMovies(theaters, web, catalog, j) == Ok(days[j].movies)
    {
      var movies := GetDay(theaters, web, catalog, i);
      if movies.Err? {
        return Crashed(movies.error);
      }
      days := days + [Day(i, movies.value)];
    }
    return Saved(days);
  }
}
