/** One theater's showtimes for one day (`Theater.getShowtimes` in
    modules/Classes.py): page after page of the listing site, each page's
    movies turned into showtime records tagged with a language and a
    presentation format. */
module Showtimes {
  import opened Common
  import opened Text
  import opened Movies

  datatype Lang = VO | VF

  /** The time of day a showtime starts at. */
  datatype Time = Time(hour: int, minute: int)

  datatype Theater = Theater(name: string, id: string)

  /** One entry of a showtime bucket. A missing or null marker list is the
      empty one. */
  datatype ShowtimeData = ShowtimeData(startsAt: Time, projection: seq<string>, experience: seq<string>)

  /** The value of one key of an entry's `showtimes` object. */
  datatype Bucket = Listed(items: seq<ShowtimeData>) | NotAList

  /** One element of a page's `results`: the movie payload (`None` is a
      JSON null) and the showtime buckets, keyed by audio track, in the
      object's order. */
  datatype Entry = Entry(movie: Option<MoviePayload>, showtimes: seq<(string, Bucket)>)

  /** A decoded page. `page` and `totalPages` are the page's own
      `pagination` entries. */
  datatype Body =
    | Unparsable
    | Json(message: string, error: bool, results: seq<Entry>, page: int, totalPages: int)

  datatype Response = Response(status: int, body: Body)

  datatype Showtime = Showtime(startsAt: Time, theater: Theater, movie: Movie, language: Lang, format: Option<string>)

  // ---------------------------------------------------------------------
  // Language and format of one showtime

  /** The language of a bucket: original audio for keys starting with
      "original"; "dubbed", "local" and every other key are dubbed. */
  function Language(key: string): (l: Lang)
    ensures l == VO <==> StartsWith(key, "original")
  {
    if StartsWith(key, "original") then VO
    else if key in ["dubbed", "local"] then VF
    else VF
  }

  /** Where the marker of a format tag is looked for. */
  datatype Marker = Projection(name: string) | Experience(name: string)

  /** The format tags in their fixed order, each with its marker. */
  const FormatTags: seq<(string, Marker)> := [
    ("IMAX", Projection("IMAX")),
    ("3D", Projection("F_3D")),
    ("4DX", Experience("E_4DX")),
    ("PLF", Experience("PLF"))
  ]

  const FormatSeparator := ", "

  predicate Shows(d: ShowtimeData, m: Marker) {
    match m
    case Projection(x) => x in d.projection
    case Experience(x) => x in d.experience
  }

  /** The tags of `tags` whose marker `d` shows, in the order of `tags`. */
  function TagsFrom(d: ShowtimeData, tags: seq<(string, Marker)>): seq<string> {
    if tags == [] then []
    else (if Shows(d, tags[0].1) then [tags[0].0] else []) + TagsFrom(d, tags[1..])
  }

  function Tags(d: ShowtimeData): seq<string> {
    TagsFrom(d, FormatTags)
  }

  /** The format string: the present tags joined by ", ", or `None`. */
  function Format(d: ShowtimeData): Option<string> {
    var tags := Tags(d);
    if tags == [] then None else Some(Join(tags, FormatSeparator))
  }

  /** The position of a tag in the fixed order. */
  function Rank(tag: string): int {
    if tag == "IMAX" then 0 else if tag == "3D" then 1 else if tag == "4DX" then 2 else if tag == "PLF" then 3 else 4
  }

  /** The format of one showtime entry, built as the code builds it: a list
      of tags appended to in the fixed order, then joined. */
  method DeriveFormat(d: ShowtimeData) returns (format: Option<string>)
    ensures format == Format(d)
  {
    var formats: seq<string> := [];
    var projections := d.projection;
    if |projections| > 0 {
      if "IMAX" in projections {
        formats := formats + ["IMAX"];
      }
      if "F_3D" in projections {
        formats := formats + ["3D"];
      }
    }
    var experience := d.experience;
    if |experience| > 0 {
      if "E_4DX" in experience {
        formats := formats + ["4DX"];
      }
      if "PLF" in experience {
        formats := formats + ["PLF"];
      }
    }
    format := if |formats| > 0 then Some(Join(formats, FormatSeparator)) else None;
    TagsSpelledOut(d);
    assert formats == Tags(d);
  }

  /** The table read in its order: what the four appends of the code
      build. */
  lemma TagsSpelledOut(d: ShowtimeData)
    ensures Tags(d) ==
      (if "IMAX" in d.projection then ["IMAX"] else []) +
      (if "F_3D" in d.projection then ["3D"] else []) +
      (if "E_4DX" in d.experience then ["4DX"] else []) +
      (if "PLF" in d.experience then ["PLF"] else [])
  {
    var t0 := FormatTags;
    var t1 := [("3D", Projection("F_3D")), ("4DX", Experience("E_4DX")), ("PLF", Experience("PLF"))];
    var t2 := [("4DX", Experience("E_4DX")), ("PLF", Experience("PLF"))];
    var t3 := [("PLF", Experience("PLF"))];
    assert t0[1..] == t1 && t1[1..] == t2 && t2[1..] == t3 && t3[1..] == [];
    var plf := if "PLF" in d.experience then ["PLF"] else [];
    var fdx := if "E_4DX" in d.experience then ["4DX"] else [];
    var td := if "F_3D" in d.projection then ["3D"] else [];
    var imax := if "IMAX" in d.projection then ["IMAX"] else [];
    assert TagsFrom(d, t3) == plf + [];
    assert TagsFrom(d, t2) == fdx + plf;
    assert TagsFrom(d, t1) == td + (fdx + plf);
    assert TagsFrom(d, t0) == imax + (td + (fdx + plf));
  }

  /** There is no format exactly when none of the four markers is there. */
  lemma FormatAbsent(d: ShowtimeData)
    ensures Format(d).None? <==>
      "IMAX" !in d.projection && "F_3D" !in d.projection && "E_4DX" !in d.experience && "PLF" !in d.experience
  {
    TagsSpelledOut(d);
  }

  /** Each tag's rank is its place in the table. */
  lemma RankIsPlace(k: nat)
    requires k < |FormatTags|
    ensures Rank(FormatTags[k].0) == k
  {
    assert k == 0 || k == 1 || k == 2 || k == 3;
  }

  /** The tags taken from the table from place `m` on are table tags of
      place `m` or later, each listed exactly when its marker is shown. */
  lemma {:induction false} TagsFromMembers(d: ShowtimeData, m: nat)
    requires m <= |FormatTags|
    ensures forall t :: t in TagsFrom(d, FormatTags[m..]) ==> m <= Rank(t) < |FormatTags| && FormatTags[Rank(t)].0 == t
    ensures forall k :: m <= k < |FormatTags| ==> (FormatTags[k].0 in TagsFrom(d, FormatTags[m..]) <==> Shows(d, FormatTags[k].1))
    decreases |FormatTags| - m
  {
    if m < |FormatTags| {
      TagsFromMembers(d, m + 1);
      RankIsPlace(m);
      assert FormatTags[m..][1..] == FormatTags[m + 1..];
      forall k | m < k < |FormatTags| ensures FormatTags[k].0 != FormatTags[m].0 {
        RankIsPlace(k);
      }
    }
  }

  /** Putting an element of rank `m` in front of elements of higher,
      strictly increasing ranks keeps the ranks strictly increasing. */
  lemma ConsIncreasing(h: seq<string>, rest: seq<string>, rank: string -> int, m: int)
    requires |h| <= 1 && (forall t :: t in h ==> rank(t) == m) && (forall t :: t in rest ==> rank(t) > m)
    requires forall i, j :: 0 <= i < j < |rest| ==> rank(rest[i]) < rank(rest[j])
    ensures forall i, j :: 0 <= i < j < |h + rest| ==> rank((h + rest)[i]) < rank((h + rest)[j])
  {
    var ts := h + rest;
    forall i, j | 0 <= i < j < |ts| ensures rank(ts[i]) < rank(ts[j]) {
      assert ts[j] == rest[j - |h|] && rest[j - |h|] in rest;
      if i < |h| {
        assert ts[i] in h;
      } else {
        assert ts[i] == rest[i - |h|];
      }
    }
  }

  /** ... and they come in strictly increasing rank. */
  lemma {:induction false} TagsFromOrdered(d: ShowtimeData, m: nat)
    requires m <= |FormatTags|
    ensures forall i, j :: 0 <= i < j < |TagsFrom(d, FormatTags[m..])| ==>
      Rank(TagsFrom(d, FormatTags[m..])[i]) < Rank(TagsFrom(d, FormatTags[m..])[j])
    decreases |FormatTags| - m
  {
    if m < |FormatTags| {
      TagsFromOrdered(d, m + 1);
      TagsFromMembers(d, m + 1);
      RankIsPlace(m);
      assert FormatTags[m..][1..] == FormatTags[m + 1..];
      var head := if Shows(d, FormatTags[m].1) then [FormatTags[m].0] else [];
      var rest := TagsFrom(d, FormatTags[m + 1..]);
      assert TagsFrom(d, FormatTags[m..]) == head + rest;
      ConsIncreasing(head, rest, Rank, m);
    }
  }

  /** A tag is in the format exactly when its marker is shown, and the tags
      keep the fixed order IMAX, 3D, 4DX, PLF without repeats. */
  lemma TagsInFixedOrder(d: ShowtimeData)
    ensures forall k :: 0 <= k < |FormatTags| ==> (FormatTags[k].0 in Tags(d) <==> Shows(d, FormatTags[k].1))
    ensures forall i, j :: 0 <= i < j < |Tags(d)| ==> Rank(Tags(d)[i]) < Rank(Tags(d)[j])
    ensures forall t :: t in Tags(d) ==> 0 <= Rank(t) < |FormatTags| && FormatTags[Rank(t)].0 == t
  {
    assert FormatTags[0..] == FormatTags;
    TagsFromMembers(d, 0);
    TagsFromOrdered(d, 0);
  }

  /** The reading of a stored format back into its tags. */
  function ParseFormat(f: Option<string>): seq<string> {
    match f
    case None => []
    case Some(s) => Split(s, FormatSeparator)
  }

  /** The format string loses nothing: splitting it at ", " gives the tags
      back. */
  lemma FormatRoundTrip(d: ShowtimeData)
    ensures ParseFormat(Format(d)) == Tags(d)
  {
    var tags := Tags(d);
    if tags != [] {
      forall i | 0 <= i < |tags| ensures FormatSeparator[0] !in tags[i] {
        TagsInFixedOrder(d);
        assert tags[i] in tags;
      }
      SplitJoin(tags, FormatSeparator);
    }
  }

  /** A showtime with the IMAX and 3D projections and the 4DX experience has
      the format "IMAX, 3D, 4DX". */
  lemma FormatExample(t: Time)
    ensures Format(ShowtimeData(t, ["IMAX", "F_3D"], ["E_4DX"])) == Some("IMAX, 3D, 4DX")
  {
    var d := ShowtimeData(t, ["IMAX", "F_3D"], ["E_4DX"]);
    TagsSpelledOut(d);
    assert Tags(d) == ["IMAX", "3D", "4DX"];
    assert Join(["4DX"], ", ") == "4DX";
    assert Join(["3D", "4DX"], ", ") == "3D" + ", " + "4DX" == "3D, 4DX";
    assert ["IMAX", "3D", "4DX"][1..] == ["3D", "4DX"];
    assert Join(["IMAX", "3D", "4DX"], ", ") == "IMAX" + ", " + "3D, 4DX" == "IMAX, 3D, 4DX";
  }

  // ---------------------------------------------------------------------
  // The showtimes of one page

  /** One showtime per entry of a bucket, in the bucket's order. */
  function BucketShowtimes(theater: Theater, movie: Movie, lang: Lang, items: seq<ShowtimeData>): (r: seq<Showtime>)
  {
    seq(|items|, i requires 0 <= i < |items| => Showtime(items[i].startsAt, theater, movie, lang, Format(items[i])))
  }

  /** The showtimes of one result entry: the non-empty list buckets in the
      object's order; the other buckets contribute nothing. */
  function EntryShowtimes(theater: Theater, movie: Movie, buckets: seq<(string, Bucket)>): seq<Showtime>
    decreases |buckets|
  {
    if buckets == [] then []
    else
      var (key, b) := buckets[|buckets| - 1];
      EntryShowtimes(theater, movie, buckets[..|buckets| - 1]) +
      (if b.Listed? && |b.items| > 0 then BucketShowtimes(theater, movie, Language(key), b.items) else [])
  }

  /** The showtimes of one result entry, once its movie is built. A null
      payload, or a movie that cannot be built, raises even when the entry
      has no showtimes. */
  function EntryResult(theater: Theater, entry: Entry, catalog: Catalog): Result<seq<Showtime>> {
    match entry.movie
    case None => Err(NullPayload("movie"))
    case Some(payload) =>
      match NewMovie(payload, catalog)
      case Err(e) => Err(e)
      case Ok(m) => Ok(EntryShowtimes(theater, m, entry.showtimes))
  }

  /** The showtimes of a page's results, entry after entry; the first entry
      that raises makes the page raise. */
  function PageShowtimes(theater: Theater, results: seq<Entry>, catalog: Catalog): Result<seq<Showtime>>
    decreases |results|
  {
    if results == [] then Ok([])
    else
      match PageShowtimes(theater, results[..|results| - 1], catalog)
      case Err(e) => Err(e)
      case Ok(before) =>
        match EntryResult(theater, results[|results| - 1], catalog)
        case Err(e) => Err(e)
        case Ok(these) => Ok(before + these)
  }

  /** The number of entries in the list buckets of an entry. */
  function Listed(buckets: seq<(string, Bucket)>): nat
    decreases |buckets|
  {
    if buckets == [] then 0
    else
      var b := buckets[|buckets| - 1].1;
      Listed(buckets[..|buckets| - 1]) + (if b.Listed? then |b.items| else 0)
  }

  /** The number of entries in the list buckets of a page. */
  function ListedOnPage(results: seq<Entry>): nat
    decreases |results|
  {
    if results == [] then 0 else ListedOnPage(results[..|results| - 1]) + Listed(results[|results| - 1].showtimes)
  }

  /** An entry gives exactly one showtime per element of its list buckets. */
  lemma {:induction false} EntryCount(theater: Theater, movie: Movie, buckets: seq<(string, Bucket)>)
    ensures |EntryShowtimes(theater, movie, buckets)| == Listed(buckets)
  {
    if buckets != [] {
      EntryCount(theater, movie, buckets[..|buckets| - 1]);
    }
  }

  /** A page that can be read gives exactly one showtime per element of the
      list buckets of its results. */
  lemma {:induction false} PageCount(theater: Theater, results: seq<Entry>, catalog: Catalog)
    requires PageShowtimes(theater, results, catalog).Ok?
    ensures |PageShowtimes(theater, results, catalog).value| == ListedOnPage(results)
  {
    if results != [] {
      var last := results[|results| - 1];
      PageCount(theater, results[..|results| - 1], catalog);
      EntryCount(theater, NewMovie(last.movie.value, catalog).value, last.showtimes);
      assert EntryResult(theater, last, catalog).value ==
        EntryShowtimes(theater, NewMovie(last.movie.value, catalog).value, last.showtimes);
    }
  }

  /** Once a prefix of the results raises, the whole page raises with the
      same error. */
  lemma {:induction false} PageErrorStays(theater: Theater, results: seq<Entry>, k: nat, catalog: Catalog)
    requires k <= |results| && PageShowtimes(theater, results[..k], catalog).Err?
    ensures PageShowtimes(theater, results, catalog) == PageShowtimes(theater, results[..k], catalog)
    decreases |results| - k
  {
    if k < |results| {
      assert results[..k + 1][..k] == results[..k];
      PageErrorStays(theater, results, k + 1, catalog);
    } else {
      assert results[..k] == results;
    }
  }

  /** Reading a page's results in two halves gives the showtimes of the
      first half followed by those of the second. */
  lemma {:induction false} PageAppend(theater: Theater, xs: seq<Entry>, ys: seq<Entry>, catalog: Catalog)
    requires PageShowtimes(theater, xs + ys, catalog).Ok?
    ensures PageShowtimes(theater, xs, catalog).Ok? && PageShowtimes(theater, ys, catalog).Ok?
    ensures PageShowtimes(theater, xs + ys, catalog).value ==
      PageShowtimes(theater, xs, catalog).value + PageShowtimes(theater, ys, catalog).value
    decreases |ys|
  {
    if ys == [] {
      assert xs + ys == xs;
    } else {
      var zs := xs + ys;
      var ys' := ys[..|ys| - 1];
      var last := ys[|ys| - 1];
      assert zs[..|zs| - 1] == xs + ys';
      assert zs[|zs| - 1] == last;
      assert PageShowtimes(theater, xs + ys', catalog).Ok?;
      assert EntryResult(theater, last, catalog).Ok?;
      PageAppend(theater, xs, ys', catalog);
      var a, b, c := PageShowtimes(theater, xs, catalog).value, PageShowtimes(theater, ys', catalog).value,
        EntryResult(theater, last, catalog).value;
      assert PageShowtimes(theater, zs, catalog).value == a + b + c;
      assert PageShowtimes(theater, ys, catalog).value == b + c;
      AppendAssociates(a, b, c);
    }
  }

  /** The innermost loop of `getShowtimes`: one showtime per entry of a
      bucket, with the bucket's language and the entry's format. */
  method AppendBucket(theater: Theater, movie: Movie, language: Lang, items: seq<ShowtimeData>, showtimes: seq<Showtime>)
    returns (acc: seq<Showtime>)
    ensures acc == showtimes + BucketShowtimes(theater, movie, language, items)
  {
    acc := showtimes;
    for k := 0 to |items|
      invariant acc == showtimes + BucketShowtimes(theater, movie, language, items[..k])
    {
      var format := DeriveFormat(items[k]);
      acc := acc + [Showtime(items[k].startsAt, theater, movie, language, format)];
    }
    assert items[..|items|] == items;
  }

  /** The bucket loop of `getShowtimes`: the buckets of one result entry
      in the object's order; only non-empty lists are read. */
  method AppendEntry(theater: Theater, movie: Movie, buckets: seq<(string, Bucket)>, showtimes: seq<Showtime>)
    returns (acc: seq<Showtime>)
    ensures acc == showtimes + EntryShowtimes(theater, movie, buckets)
  {
    acc := showtimes;
    for j := 0 to |buckets|
      invariant acc == showtimes + EntryShowtimes(theater, movie, buckets[..j])
    {
      assert buckets[..j + 1][..j] == buckets[..j];
      var (key, value) := buckets[j];
      if value.Listed? && |value.items| > 0 {
        var language := Language(key);
        acc := AppendBucket(theater, movie, language, value.items, acc);
      }
    }
    assert buckets[..|buckets|] == buckets;
  }

  /** One more result entry: the page so far, then that entry. */
  lemma PageStep(theater: Theater, results: seq<Entry>, i: nat, catalog: Catalog)
    requires i < |results|
    ensures PageShowtimes(theater, results[..i + 1], catalog) ==
      match PageShowtimes(theater, results[..i], catalog)
      case Err(e) => Err(e)
      case Ok(before) =>
        match EntryResult(theater, results[i], catalog)
        case Err(e) => Err(e)
        case Ok(these) => Ok(before + these)
  {
    assert results[..i + 1][..i] == results[..i];
  }

  /** The result loop of `getShowtimes`: for every result its movie, then
      its buckets, appended to the accumulator. */
  method ParsePage(theater: Theater, results: seq<Entry>, catalog: Catalog, showtimes: seq<Showtime>)
    returns (r: Result<seq<Showtime>>)
    ensures r == match PageShowtimes(theater, results, catalog)
      case Err(e) => Err(e)
      case Ok(ps) => Ok(showtimes + ps)
  {
    var acc := showtimes;
    for i := 0 to |results|
      invariant PageShowtimes(theater, results[..i], catalog).Ok?
      invariant acc == showtimes + PageShowtimes(theater, results[..i], catalog).value
    {
      var entry := results[i];
      PageStep(theater, results, i, catalog);
      if entry.movie.None? {
        PageErrorStays(theater, results, i + 1, catalog);
        return Err(NullPayload("movie"));
      }
      var made := NewMovie(entry.movie.value, catalog);
      if made.Err? {
        PageErrorStays(theater, results, i + 1, catalog);
        return Err(made.error);
      }
      ghost var before := PageShowtimes(theater, results[..i], catalog).value;
      ghost var these := EntryShowtimes(theater, made.value, entry.showtimes);
      acc := AppendEntry(theater, made.value, entry.showtimes, acc);
      AppendAssociates(showtimes, before, these);
    }
    assert results[..|results|] == results;
    r := Ok(acc);
  }

  // ---------------------------------------------------------------------
  // The listing, page after page

  /** The site's answer to a request for `page`: `site[p - 1]` answers page
      `p`; a page the listing does not have is a 404. */
  function Fetch(site: seq<Response>, page: int): Response {
    if 1 <= page <= |site| then site[page - 1] else Response(404, Unparsable)
  }

  datatype PageOutcome = Failure(error: Error) | NoShowtimes | Page(body: Body)

  /** The checks made on a page before its results are read, in the code's
      order: the status, the decoding, the two "nothing scheduled" messages,
      the `error` entry. */
  function ReadPage(resp: Response): (o: PageOutcome)
    ensures resp.status != 200 ==> o == Failure(HttpStatus(resp.status))
    ensures resp.status == 200 && resp.body.Unparsable? ==> o == Failure(UnparsableBody)
    ensures o == NoShowtimes <==>
      resp.status == 200 && resp.body.Json? && resp.body.message in {"no.showtime.error", "next.showtime.on"}
    ensures o.Page? <==>
      resp.status == 200 && resp.body.Json? && resp.body.message !in {"no.showtime.error", "next.showtime.on"} &&
      !resp.body.error
    ensures o.Page? ==> o.body == resp.body
    ensures o.Failure? ==> o.error in {HttpStatus(resp.status), UnparsableBody, ApiError}
  {
    if resp.status != 200 then Failure(HttpStatus(resp.status))
    else
      match resp.body
      case Unparsable => Failure(UnparsableBody)
      case Json(message, error, _, _, _) =>
        if message == "no.showtime.error" then NoShowtimes
        else if message == "next.showtime.on" then NoShowtimes
        else if error then Failure(ApiError)
        else Page(resp.body)
  }

  /** The recursion of `getShowtimes` from `page` on, with the accumulator
      `acc` of the earlier pages. It goes on with `page + 1` while the page
      reports a page number below its page count. */
  function Listing(theater: Theater, site: seq<Response>, catalog: Catalog, page: int, acc: seq<Showtime>)
    : Result<seq<Showtime>>
    decreases |site| + 1 - page
  {
    match ReadPage(Fetch(site, page))
    case Failure(e) => Err(e)
    case NoShowtimes => Ok([])
    case Page(body) =>
      assert 1 <= page <= |site|;
      match PageShowtimes(theater, body.results, catalog)
      case Err(e) => Err(e)
      case Ok(ps) =>
        if body.page < body.totalPages then Listing(theater, site, catalog, page + 1, acc + ps)
        else Ok(acc + ps)
  }

  /** What a walk over the pages from `page` on finds, without an
      accumulator: an error, a "nothing scheduled" page, or showtimes. */
  datatype Collected = Failed(error: Error) | Nothing | Found(showtimes: seq<Showtime>)

  /** The independent description of the listing: the showtimes of this
      page followed by those of the pages after it. */
  function Collect(theater: Theater, site: seq<Response>, catalog: Catalog, page: int): Collected
    decreases |site| + 1 - page
  {
    match ReadPage(Fetch(site, page))
    case Failure(e) => Failed(e)
    case NoShowtimes => Nothing
    case Page(body) =>
      assert 1 <= page <= |site|;
      match PageShowtimes(theater, body.results, catalog)
      case Err(e) => Failed(e)
      case Ok(ps) =>
        if body.page < body.totalPages then
          match Collect(theater, site, catalog, page + 1)
          case Failed(e) => Failed(e)
          case Nothing => Nothing
          case Found(rest) => Found(ps + rest)
        else Found(ps)
  }

  /** The accumulator only ever prefixes the result: the listing gives the
      earlier pages' showtimes followed by the current and later pages' in
      page order; a "nothing scheduled" page, even a later one, gives the
      empty list and drops what the earlier pages found; an error anywhere
      is the listing's error. */
  lemma {:induction false} ListingIsCollect(theater: Theater, site: seq<Response>, catalog: Catalog, page: int, acc: seq<Showtime>)
    ensures Listing(theater, site, catalog, page, acc) == match Collect(theater, site, catalog, page)
      case Failed(e) => Err(e)
      case Nothing => Ok([])
      case Found(r) => Ok(acc + r)
    decreases |site| + 1 - page
  {
    var o := ReadPage(Fetch(site, page));
    if o.Page? && o.body.page < o.body.totalPages {
      assert 1 <= page <= |site|;
      var p := PageShowtimes(theater, o.body.results, catalog);
      if p.Ok? {
        ListingIsCollect(theater, site, catalog, page + 1, acc + p.value);
        var c := Collect(theater, site, catalog, page + 1);
        if c.Found? {
          AppendAssociates(acc, p.value, c.showtimes);
        }
      }
    }
  }

  /** The results of several pages, one page after the other. */
  function Flatten(parts: seq<seq<Entry>>): seq<Entry> {
    if parts == [] then [] else parts[0] + Flatten(parts[1..])
  }

  /** A listing whose page `i + 1` holds `parts[i]` and reports itself as
      page `i + 1` of `|parts|`. */
  function Pages(m: string, parts: seq<seq<Entry>>): seq<Response> {
    seq(|parts|, i requires 0 <= i < |parts| => Response(200, Json(m, false, parts[i], i + 1, |parts|)))
  }

  /** From page `p` on, such a listing finds the showtimes of the results
      of its pages `p` and after, read as one page. */
  lemma {:induction false} CollectPages(theater: Theater, catalog: Catalog, m: string, parts: seq<seq<Entry>>, p: nat)
    requires m !in {"no.showtime.error", "next.showtime.on"}
    requires 1 <= p <= |parts|
    requires PageShowtimes(theater, Flatten(parts[p - 1..]), catalog).Ok?
    ensures Collect(theater, Pages(m, parts), catalog, p) ==
      Found(PageShowtimes(theater, Flatten(parts[p - 1..]), catalog).value)
    decreases |parts| - p
  {
    var site := Pages(m, parts);
    var here, later := parts[p - 1], parts[p..];
    assert Fetch(site, p) == Response(200, Json(m, false, here, p, |parts|));
    assert parts[p - 1..][1..] == later;
    assert Flatten(parts[p - 1..]) == here + Flatten(later);
    PageAppend(theater, here, Flatten(later), catalog);
    if p < |parts| {
      assert parts[(p + 1) - 1..] == later;
      CollectPages(theater, catalog, m, parts, p + 1);
    } else {
      assert later == [];
    }
  }

  /** The same results give the same showtimes however the site spreads
      them over pages, one page holding them all included. */
  lemma SplitAcrossPages(theater: Theater, catalog: Catalog, m: string, parts: seq<seq<Entry>>)
    requires m !in {"no.showtime.error", "next.showtime.on"}
    requires |parts| > 0 && PageShowtimes(theater, Flatten(parts), catalog).Ok?
    ensures Collect(theater, Pages(m, parts), catalog, 1) == Found(PageShowtimes(theater, Flatten(parts), catalog).value)
    ensures Collect(theater, Pages(m, parts), catalog, 1) == Collect(theater, Pages(m, [Flatten(parts)]), catalog, 1)
  {
    assert parts[0..] == parts;
    CollectPages(theater, catalog, m, parts, 1);
    var one := [Flatten(parts)];
    assert one[0..] == one && one[1..] == [];
    assert Flatten(one) == Flatten(parts) + [];
    assert Flatten(parts) + [] == Flatten(parts);
    CollectPages(theater, catalog, m, one, 1);
  }

  /** `getShowtimes(date, page, showtimes)`, recursion and all. */
  method GetShowtimes(theater: Theater, site: seq<Response>, catalog: Catalog, page: int, showtimes: seq<Showtime>)
    returns (r: Result<seq<Showtime>>)
    ensures r == Listing(theater, site, catalog, page, showtimes)
    decreases |site| + 1 - page
  {
    var resp := Fetch(site, page);
    if resp.status != 200 {
      return Err(HttpStatus(resp.status));
    }
    if resp.body.Unparsable? {
      return Err(UnparsableBody);
    }
    var data := resp.body;
    if data.message == "no.showtime.error" {
      return Ok([]);
    }
    if data.message == "next.showtime.on" {
      return Ok([]);
    }
    if data.error {
      return Err(ApiError);
    }
    var acc :- ParsePage(theater, data.results, catalog, showtimes);
    if data.page < data.totalPages {
      r := GetShowtimes(theater, site, catalog, page + 1, acc);
      return;
    }
    return Ok(acc);
  }
}
