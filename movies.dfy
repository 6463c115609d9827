/** A movie of a listing page (`Movie` in modules/Classes.py): the fields
    taken from the listing's movie payload, and the release year, rating
    and synopsis looked up in the external movie catalog. */
module Movies {
  import opened Common
  import opened Text

  /** `releaseDate` of a movie payload; `date` is an ISO date such as
      "2024-05-01". */
  datatype ReleaseDate = ReleaseDate(date: Field<string>)

  datatype Poster = Poster(url: Field<string>)

  /** The first-listed credit's person; `None` stands for a JSON null. */
  datatype Person = Person(firstName: Option<string>, lastName: Option<string>)

  /** The listing's `movie` object. `genres` holds the `translate` label of
      each genre, `wantToSee` the `stats.wantToSeeCount` counter. */
  datatype MoviePayload = MoviePayload(
    title: string,
    internalId: int,
    runtime: string,
    releaseDate: Field<ReleaseDate>,
    genres: seq<string>,
    wantToSee: int,
    poster: Field<Poster>,
    credits: seq<Person>)

  /** One catalog search hit. `rating` is the display form of a truthy
      `vote_average`, `None` when the average is missing, null or zero. */
  datatype SearchResult = SearchResult(id: int, releaseDate: Field<string>, rating: Option<string>)

  /** The external catalog, as seen by the lookup. `search(query, year)`
      gives the `results` list of a search (an absent or null list is the
      empty one), or `None` when the request or its decoding raises;
      `details(id)` gives the `overview` entry of a movie's details, or
      `None` when that request raises. */
  datatype Catalog = Catalog(
    search: (string, string) -> Option<seq<SearchResult>>,
    details: int -> Option<Field<string>>)

  /** The enrichment block. `synopsis` is `None` when the catalog's
      overview is a JSON null, which the code passes through. */
  datatype Enrichment = Enrichment(year: string, rating: string, synopsis: Option<string>)

  const Unknown := Enrichment("inconnue", "Note inconnue", Some("Synopsis non disponible"))

  const Placeholder := "/static/images/nocontent.png"

  const UnknownDirector := "Inconnu"

  datatype Movie = Movie(
    title: string,
    id: int,
    runtime: string,
    sourceYear: string,
    releaseYear: string,
    rating: string,
    synopsis: Option<string>,
    genres: seq<string>,
    wantToSee: int,
    affiche: Option<string>,
    director: string)

  /** The listing's own release year: the text before the first "-" of
      `releaseDate.date`, "" when either key is missing. A null at either
      level makes `.get` or `.split` raise. */
  function SourceYear(d: Field<ReleaseDate>): (r: Result<string>)
    ensures r.Err? <==> d.Null? || (d.Present? && d.value.date.Null?)
    ensures r.Ok? ==> '-' !in r.value
    ensures r.Ok? && d.Present? && d.value.date.Present? ==> StartsWith(d.value.date.value, r.value)
    ensures r.Ok? && d.Present? && d.value.date.Present? ==>
      |r.value| == |d.value.date.value| || d.value.date.value[|r.value|] == '-'
    ensures r.Ok? && r.value != "" ==> d.Present? && d.value.date.Present?
  {
    match d
    case Absent => Ok("")
    case Null => Err(NullPayload("releaseDate"))
    case Present(rd) =>
      match rd.date
      case Absent => Ok("")
      case Null => Err(NullPayload("releaseDate.date"))
      case Present(s) => Ok(PrefixBefore(s, '-'))
  }

  /** The search query: the title, followed by " y:" and the year when the
      listing gave one. */
  function SearchQuery(title: string, year: string): string {
    if year != "" then title + " y:" + year else title
  }

  /** `r.get("release_date", "")` for a date that is not null. */
  function DateText(d: Field<string>): string {
    if d.Present? then d.value else ""
  }

  predicate HasYear(r: SearchResult, year: string) {
    StartsWith(DateText(r.releaseDate), year)
  }

  /** The hits whose release date starts with `year`, in order. */
  function Kept(results: seq<SearchResult>, year: string): seq<SearchResult> {
    if results == [] then []
    else (if HasYear(results[0], year) then [results[0]] else []) + Kept(results[1..], year)
  }

  /** What the filter keeps: every hit of the year and nothing else, the
      first hit of the year in front. */
  lemma {:induction false} KeptHits(results: seq<SearchResult>, year: string)
    ensures forall m :: m in Kept(results, year) ==> m in results && HasYear(m, year)
    ensures forall i :: 0 <= i < |results| && HasYear(results[i], year) ==> results[i] in Kept(results, year)
    ensures Kept(results, year) != [] ==>
      exists i :: 0 <= i < |results| && results[i] == Kept(results, year)[0] && HasYear(results[i], year) &&
        forall j :: 0 <= j < i ==> !HasYear(results[j], year)
  {
    if results != [] {
      var rest := results[1..];
      KeptHits(rest, year);
      forall i | 0 <= i < |results| && HasYear(results[i], year) ensures results[i] in Kept(results, year) {
        if i > 0 {
          assert results[i] == rest[i - 1];
        }
      }
      if !HasYear(results[0], year) && Kept(rest, year) != [] {
        var i :| 0 <= i < |rest| && rest[i] == Kept(rest, year)[0] && HasYear(rest[i], year) &&
          forall j :: 0 <= j < i ==> !HasYear(rest[j], year);
        assert results[i + 1] == rest[i];
        forall j | 0 <= j < i + 1 ensures !HasYear(results[j], year) {
          if j > 0 {
            assert results[j] == rest[j - 1];
          }
        }
      }
    }
  }

  /** Filtering two lists one after the other is filtering their
      concatenation. */
  lemma {:induction false} KeptConcat(a: seq<SearchResult>, b: seq<SearchResult>, year: string)
    ensures Kept(a + b, year) == Kept(a, year) + Kept(b, year)
  {
    if a == [] {
      assert a + b == b;
    } else {
      assert (a + b)[0] == a[0] && (a + b)[1..] == a[1..] + b;
      KeptConcat(a[1..], b, year);
      AppendAssociates(if HasYear(a[0], year) then [a[0]] else [], Kept(a[1..], year), Kept(b, year));
    }
  }

  predicate SomeNullDate(results: seq<SearchResult>) {
    exists i :: 0 <= i < |results| && results[i].releaseDate.Null?
  }

  /** The comprehension keeping the hits whose release date starts with
      `year`. It visits every hit, and `.startswith` on a null date raises;
      `None` stands for that exception. */
  function Matching(results: seq<SearchResult>, year: string): (r: Option<seq<SearchResult>>)
    ensures r.Some? <==> forall i :: 0 <= i < |results| ==> !results[i].releaseDate.Null?
    ensures r.Some? ==> forall m :: m in r.value ==> m in results && HasYear(m, year)
    ensures r.Some? ==> forall i :: 0 <= i < |results| && HasYear(results[i], year) ==> results[i] in r.value
    ensures r.Some? ==> (r.value == [] <==> forall i :: 0 <= i < |results| ==> !HasYear(results[i], year))
    ensures r.Some? && r.value != [] ==>
      exists i :: 0 <= i < |results| && results[i] == r.value[0] && HasYear(results[i], year) &&
        forall j :: 0 <= j < i ==> !HasYear(results[j], year)
  {
    KeptHits(results, year);
    if SomeNullDate(results) then None else Some(Kept(results, year))
  }

  /** Filtering a list is filtering its two halves and joining what they
      keep, in order; with the one-element case given by `HasYear`, this
      fixes the kept hits and their order. A null date in either half
      raises. */
  lemma MatchingConcat(a: seq<SearchResult>, b: seq<SearchResult>, year: string)
    ensures Matching(a + b, year) ==
      if Matching(a, year).Some? && Matching(b, year).Some? then Some(Matching(a, year).value + Matching(b, year).value)
      else None
  {
    KeptConcat(a, b, year);
    var ab := a + b;
    if SomeNullDate(a) {
      var i :| 0 <= i < |a| && a[i].releaseDate.Null?;
      assert ab[i] == a[i];
    }
    if SomeNullDate(b) {
      var i :| 0 <= i < |b| && b[i].releaseDate.Null?;
      assert ab[|a| + i] == b[i];
    }
    if SomeNullDate(ab) {
      var i :| 0 <= i < |ab| && ab[i].releaseDate.Null?;
      if i < |a| {
        assert ab[i] == a[i];
      } else {
        assert ab[i] == b[i - |a|];
      }
    }
  }

  /** Which search hit the lookup uses. With a listing year, the first hit
      released that year, else the first hit; without one, the first hit.
      `None` is the exception of a null release date met while filtering. */
  function Choose(results: seq<SearchResult>, year: string): (r: Option<SearchResult>)
    requires |results| > 0
    ensures year == "" ==> r == Some(results[0])
    ensures year != "" ==> (r.None? <==> exists i :: 0 <= i < |results| && results[i].releaseDate.Null?)
    ensures year != "" && r.Some? ==>
      || (exists i :: 0 <= i < |results| && r.value == results[i] && HasYear(results[i], year) &&
            forall j :: 0 <= j < i ==> !HasYear(results[j], year))
      || ((forall i :: 0 <= i < |results| ==> !HasYear(results[i], year)) && r.value == results[0])
  {
    if year != "" then
      match Matching(results, year)
      case None => None
      case Some(m) => Some(if m != [] then m[0] else results[0])
    else Some(results[0])
  }

  /** `_get_data_from_tmdb`: search the catalog, choose a hit, read its
      details. Every way of not finding anything, and every exception,
      ends in the `Unknown` block. */
  function Enrich(title: string, year: string, catalog: Catalog): (e: Enrichment)
    ensures e.year != "" && '-' !in e.year
    ensures e.year == Unknown.year || (catalog.search(SearchQuery(title, year), year).Some? &&
      exists r :: r in catalog.search(SearchQuery(title, year), year).value && StartsWith(DateText(r.releaseDate), e.year))
  {
    match catalog.search(SearchQuery(title, year), year)
    case None => Unknown
    case Some(results) =>
      if |results| == 0 then Unknown
      else
        match Choose(results, year)
        case None => Unknown
        case Some(hit) =>
          match catalog.details(hit.id)
          case None => Unknown
          case Some(overview) =>
            if hit.releaseDate.Null? then Unknown   // `.split` on a null date raises
            else
              var y := PrefixBefore(DateText(hit.releaseDate), '-');
              Enrichment(
                if y == "" then "inconnue" else y,
                hit.rating.GetOr("Note inconnue"),
                match overview
                case Absent => Some("Synopsis non disponible")
                case Null => None
                case Present(s) => Some(s))
  }

  /** The lookup falls back to the `Unknown` block on every path the code
      does not complete: the search raises or finds nothing, the year
      filter meets a null date, the details request raises, or the chosen
      hit's date is null, which makes `.split` raise. */
  lemma EnrichFallback(title: string, year: string, catalog: Catalog)
    ensures var s := catalog.search(SearchQuery(title, year), year);
      (|| s.None? || s.value == []
       || Choose(s.value, year).None?
       || catalog.details(Choose(s.value, year).value.id).None?
       || Choose(s.value, year).value.releaseDate.Null?)
      ==> Enrich(title, year, catalog) == Unknown
  {
  }

  /** When the lookup succeeds, its block is read from the chosen hit: the
      year is the text before the first "-" of its release date
      ("inconnue" when that is empty), the rating its rating or
      "Note inconnue", and the synopsis the details' `overview`, the
      default text when the key is absent and `None` when it is null. */
  lemma EnrichUsesChosenHit(title: string, year: string, catalog: Catalog, results: seq<SearchResult>, hit: SearchResult)
    requires catalog.search(SearchQuery(title, year), year) == Some(results)
    requires |results| > 0 && Choose(results, year) == Some(hit)
    requires catalog.details(hit.id).Some? && !hit.releaseDate.Null?
    ensures var e, y := Enrich(title, year, catalog), PrefixBefore(DateText(hit.releaseDate), '-');
      && e.year == (if y == "" then "inconnue" else y)
      && e.rating == hit.rating.GetOr("Note inconnue")
      && e.synopsis == match catalog.details(hit.id).value
        case Absent => Unknown.synopsis
        case Null => None
        case Present(o) => Some(o)
  {
  }

  /** `affiche`: the poster's url. A missing poster or url, or a null
      poster, raises inside the bare `try` and gives the placeholder; a null
      url is stored as it is. */
  function Affiche(p: Field<Poster>): (r: Option<string>)
    ensures r == Some(Placeholder) <==> !p.Present? || p.value.url.Absent? || p.value.url == Present(Placeholder)
    ensures r.None? <==> p.Present? && p.value.url.Null?
    ensures p.Present? && p.value.url.Present? ==> r == Some(p.value.url.value)
  {
    match p
    case Present(Poster(Present(u))) => Some(u)
    case Present(Poster(Null)) => None
    case _ => Some(Placeholder)
  }

  /** The director's display name: "Inconnu" without credits, otherwise
      the first credit's "first last" with null parts read as "" and the
      leading whitespace stripped. */
  function Director(credits: seq<Person>): string {
    if |credits| == 0 then UnknownDirector
    else LStrip(credits[0].firstName.GetOr("") + " " + credits[0].lastName.GetOr(""))
  }

  /** What the director's name is made of. */
  lemma {:induction false} DirectorName(credits: seq<Person>)
    ensures credits == [] ==> Director(credits) == UnknownDirector
    ensures credits != [] ==>
      var first := credits[0].firstName.GetOr("");
      var last := credits[0].lastName.GetOr("");
      var full := first + " " + last;
      var d := Director(credits);
      && (d == [] || !IsSpace(d[0]))
      && (exists k :: 0 <= k <= |full| && d == full[k..] && forall i :: 0 <= i < k ==> IsSpace(full[i]))
      && (first == "" ==> d == LStrip(last))
      && (first != "" && !IsSpace(first[0]) ==> d == full)
  {
    if credits != [] {
      var first := credits[0].firstName.GetOr("");
      var last := credits[0].lastName.GetOr("");
      var full := first + " " + last;
      var d := Director(credits);
      assert d == full[|full| - |d|..];
      if first == "" {
        assert full == [' '] + last;
        assert full[1..] == last;
      }
    }
  }

  /** `Movie.__init__`: the listing's fields, step by step, with the
      catalog block in the middle. Only a null release date can make the
      construction raise. */
  function NewMovie(data: MoviePayload, catalog: Catalog): (r: Result<Movie>)
    ensures r.Err? <==> SourceYear(data.releaseDate).Err?
    ensures r.Ok? ==>
      var m := r.value;
      && m.title == data.title && m.id == data.internalId && m.runtime == data.runtime
      && m.wantToSee == data.wantToSee && m.genres == data.genres
      && m.affiche == Affiche(data.poster) && m.director == Director(data.credits)
      && m.sourceYear == SourceYear(data.releaseDate).value
      && Enrichment(m.releaseYear, m.rating, m.synopsis) == Enrich(data.title, m.sourceYear, catalog)
  {
    var year :- SourceYear(data.releaseDate);
    var e := Enrich(data.title, year, catalog);
    Ok(Movie(
      title := data.title,
      id := data.internalId,
      runtime := data.runtime,
      sourceYear := year,
      releaseYear := e.year,
      rating := e.rating,
      synopsis := e.synopsis,
      genres := data.genres,
      wantToSee := data.wantToSee,
      affiche := Affiche(data.poster),
      director := Director(data.credits)))
  }
}
