# CinéLyon showtime scraper — a Dafny model

CinéLyon collects the week's cinema showtimes of a set of theaters from a
listing site, enriches each movie from an external movie catalog, groups
everything per day into one document per movie, and serves the result as
a web page with a strip of seven dates. This project models that core and
proves what it promises:

- `modules/Classes.py` becomes `movies.dfy` and `showtimes.dfy`.
  - `Movie.__init__` and the hit selection of `_get_data_from_tmdb` are
    modelled as values and functions.
  - `Theater.getShowtimes` is an imperative method. It reads pages, parses
    results with nested loops, builds format tags by appends, and follows
    pagination recursively. It is proved against a recursive description of
    the listing.
- `scrape.py` becomes `grouping.dfy`, `ranking.dfy` and `scrape.dfy`.
  - The grouping loop of `get_showtimes` is a fold. It is proved equal to
    an independent description: one entry per title in order of first
    appearance, the first showtime's fields, buckets per theater in order
    of first appearance.
  - The stable descending sort is an insertion sort. It is proved to be
    the only order that is non-increasing and keeps ties in input order.
  - `main`'s seven-day run is a method.
  - Fetching a day walks the theaters in configured order (`Scrape.Gather`).
    `Scrape.Fetched` applies that walk to each theater's listing for the day,
    so the `Gather` lemmas state what fetching does.
- `app.py` becomes `app.dfy`. It holds the two lookup tables, the `delta`
  clamp and date strip of `home`, and `load_movies_data` with its padding.
- `text.dfy` holds the Python string operations used: `startswith`,
  `split(c)[0]`, `lstrip()`, `join` and `split`.
- `common.dfy` holds JSON null / absent fields, results and the error kinds.

The outside world is replaced by parameters:

- The listing site is a sequence of responses: element `p - 1` answers
  page `p`, and any other page answers 404.
- The whole web is a function from theater id and day offset to such a
  sequence.
- The catalog is a pair of functions, one for search results and one for
  details. Either returns `None` where the request raises.
- Dates are day offsets 0..6 from today. The calendar is a function from
  offset to weekday, day and month.

Where the code and its design description disagree, the model follows the
code:

- A null movie payload raises instead of being skipped.
- The format tags include `PLF` besides IMAX, 3D and 4DX.
- An error of one theater is not caught. It ends the day and the run.
- The catalog's `overview` is passed through even when it is null.
- There is no enrichment cache, no ticketing URL and no rolling-window
  reconciliation in this code. None of these is modelled.

## Model

| member | source | states |
|---|---|---|
| Text.PrefixBefore | modules/Classes.py:27 | the text before the first separator. It is a prefix, holds no separator, and is all of the input or is followed by the separator |
| Text.LStrip | modules/Classes.py:51 | drops exactly the leading Python whitespace. The result is a suffix and does not start with whitespace |
| Movies.SourceYear | modules/Classes.py:27 | the listing year is "" when the date or its key is missing, and raises exactly on a null. Otherwise it is the date text up to its first "-": a dash-free prefix that is all of the date or is followed by "-" |
| Movies.Matching | modules/Classes.py:79-82 | the comprehension raises exactly when some hit has a null date. Otherwise it keeps every hit dated in the year and only those, empty exactly when there is none, with the first such hit in front |
| Movies.MatchingConcat | modules/Classes.py:79-82 | filtering two result lists one after the other is filtering their concatenation; a null date in either half makes the whole raise |
| Movies.Choose | modules/Classes.py:77-88 | without a year the first hit. With a year, the first hit of that year, else the first hit. It raises exactly on a null date |
| Movies.Enrich | modules/Classes.py:56-113 | the enriched year is never empty and holds no "-". It is "inconnue" or a prefix of the date of one of the search results |
| Movies.EnrichFallback | modules/Classes.py:74-113 | a failed search, no results, a failed choice, a failed details request or a null date of the chosen hit each give the "inconnue" / "Note inconnue" / "Synopsis non disponible" block |
| Movies.EnrichUsesChosenHit | modules/Classes.py:91-104 | a successful lookup takes the year as the chosen hit's date up to its first "-" (or "inconnue" when that is empty), the hit's rating or "Note inconnue", and the overview: the default when absent, None when null, the text otherwise |
| Movies.Affiche | modules/Classes.py:35-38 | the placeholder exactly when the poster or its url is missing (or the url is the placeholder). None exactly for a null url. A present url is the result |
| Movies.DirectorName | modules/Classes.py:41-51 | "Inconnu" without credits. Otherwise "first last" with nulls read as "" and leading whitespace removed, and just the last name when there is no first name |
| Movies.NewMovie | modules/Classes.py:20-51 | building a movie raises exactly when the listing year does. Id, title, runtime, count, genres, year, poster and director come from the payload; the enrichment comes from the lookup of title and year |
| Showtimes.Language | modules/Classes.py:171-176 | VO exactly for bucket keys starting with "original"; "dubbed", "local" and all other keys are VF |
| Showtimes.DeriveFormat | modules/Classes.py:178-198 | the code's appends and join give the tags present, in table order, joined by ", ", or None |
| Showtimes.TagsSpelledOut | modules/Classes.py:180-196 | the tag table read in order is the four conditional appends IMAX, 3D, 4DX, PLF |
| Showtimes.FormatAbsent | modules/Classes.py:198 | the format is None exactly when none of the four markers is present |
| Showtimes.TagsInFixedOrder | modules/Classes.py:180-198 | a tag is listed exactly when its marker is present. Tags appear in strictly increasing table order |
| Showtimes.FormatRoundTrip | modules/Classes.py:198 | splitting the format string at ", " gives back the tag list |
| Showtimes.FormatExample | modules/Classes.py:180-198 | IMAX and 3D projections with the 4DX experience give "IMAX, 3D, 4DX" |
| Showtimes.EntryCount | modules/Classes.py:166-199 | an entry gives one showtime per element of its list buckets. Empty and non-list buckets give none |
| Showtimes.PageCount | modules/Classes.py:163-199 | a readable page gives one showtime per element of the list buckets of its results |
| Showtimes.PageErrorStays | modules/Classes.py:163-164 | once a result raises, the page raises with that error |
| Showtimes.PageAppend | modules/Classes.py:163-199 | the showtimes of a page are those of its first results followed by those of the rest |
| Showtimes.AppendBucket | modules/Classes.py:178-199 | the inner loop appends one showtime per bucket element, in order |
| Showtimes.AppendEntry | modules/Classes.py:166-199 | the bucket loop appends each non-empty list bucket's showtimes, in order |
| Showtimes.ParsePage | modules/Classes.py:163-199 | the page loop either raises with the page's error or appends the page's showtimes to the accumulator |
| Showtimes.ReadPage | modules/Classes.py:144-161 | a non-200 status, an undecodable body or a truthy `error` raise. The two sentinel messages mean "nothing scheduled"; they are checked before `error` |
| Showtimes.ListingIsCollect | modules/Classes.py:154-204 | the recursion gives the earlier pages' showtimes and then each later page's in page order. A sentinel on any page gives [] and drops what was gathered; any error is the result |
| Showtimes.SplitAcrossPages | modules/Classes.py:201-204 | the same results spread over any number of pages give the showtimes of all of them in order, the same as on one page |
| Showtimes.CollectPages | modules/Classes.py:154-204 | the walk from page p of a split listing gives the showtimes of the results of pages p and after, in order |
| Showtimes.GetShowtimes | modules/Classes.py:139-204 | the recursive method computes the listing description page after page |
| Grouping.NewDoc | scrape.py:36-49 | a new entry takes title and count from the movie and has no buckets |
| Grouping.AddShowtime | scrape.py:35-58 | one loop step keeps every entry's title in place, adds at most one entry at the end, and leaves an entry with the showtime's title |
| Grouping.Group | scrape.py:31-58 | the loop makes at most one entry per showtime |
| Grouping.FirstSeen | scrape.py:35-51 | the keys of an insertion-ordered dictionary: each key once, exactly the keys seen, in order of their first appearance |
| Grouping.FirstMovie | scrape.py:35-49 | the movie of the first showtime with the title |
| Grouping.GroupIsReference | scrape.py:31-58 | the grouping loop builds the reference description of the day |
| Grouping.GroupTitles | scrape.py:31-49 | each title seen appears exactly once, no other title appears, and the entries are in order of first appearance of their titles |
| Grouping.GroupEntries | scrape.py:35-58 | an entry's shared fields come from the first showtime with its title. A theater has a bucket exactly when it showed the movie, with its seances in input order |
| Grouping.DocBuckets | scrape.py:51-58 | the bucket of a theater holds that theater's seances of the movie in input order, and exists only if there is one |
| Grouping.GroupCount | scrape.py:31-58 | the seances of the day number as many as its showtimes |
| Ranking.SortDescending | scrape.py:61 | the sorted day is non-increasing in wantToSee |
| Ranking.SortDesc | scrape.py:61 | the sort is a permutation of the day's entries |
| Ranking.SortStable | scrape.py:61 | movies with equal counts keep their input order |
| Ranking.WithCountOrder | scrape.py:60-61 | the entries of one count keep the first-appearance order of the whole day |
| Ranking.StableSortIsSortDesc | scrape.py:61 | every non-increasing order that keeps ties in input order is the model's sort |
| Ranking.SortDistinct | scrape.py:60-61 | sorting neither merges nor duplicates titles |
| Ranking.SortTotal | scrape.py:60-61 | sorting keeps every seance |
| Ranking.SortFacts | scrape.py:60-61 | sorting keeps sortedness, stability, distinct titles, the set of titles and the seance count together |
| Scrape.Gather | scrape.py:24-27 | a failing walk over the theaters fails with the error of one of them |
| Scrape.GatherFails | scrape.py:26-27 | once the theaters so far have failed, the later theaters do not change the error |
| Scrape.GatherSingle | scrape.py:24-27 | one theater gives its own listing |
| Scrape.GatherSplit | scrape.py:24-27 | the showtimes of two groups of theaters are those of the first group followed by those of the second, and both halves succeed |
| Scrape.GatherConcatenates | scrape.py:24-27 | in a successful day every theater's listing succeeds and sits between the showtimes of the theaters before it and those after it, so the day is the listings in configured order |
| Scrape.DayDocument | scrape.py:22-63 | the document has each title of the day exactly once, sorted, with ties in input order and so in order of first appearance, and one seance per showtime |
| Scrape.DayMovies | scrape.py:22-63 | the day's document fails exactly when fetching does, with its error. Otherwise it is non-increasing and has at most one entry per showtime |
| Scrape.AddToDay | scrape.py:31-58 | one loop step creates the entry, creates the bucket and appends the seance, as the fold step |
| Scrape.GetDay | scrape.py:22-63 | `get_showtimes` gives the day document, or the first theater error |
| Scrape.AsWrittenFailsOnShowtimes | scrape.py:47 | as written, any day with a showtime raises on `letterboxd_url` |
| Scrape.TheatersOf | scrape.py:79-87 | one theater per configuration entry, in order, with its id and name |
| Scrape.Run | scrape.py:66-110 | an empty configuration stops before any fetch. Otherwise the run saves 7 days with offsets 0..6 and each day's document, or stops on the first failing day with its error |
| App.TranslateMonth | app.py:55-69 | "???" exactly outside 1..12 |
| App.MonthsDistinct | app.py:55-69 | the twelve month names are distinct |
| App.TranslateDay | app.py:71-80 | "???" exactly outside 0..6 |
| App.DaysDistinct | app.py:71-80 | the seven day names are distinct |
| App.Clamp | app.py:90-91 | the offset lies in 0..6 and is unchanged when already there |
| App.Home | app.py:86-108 | 7 dates with `index` i, exactly one chosen, at the clamped offset, and that day's movies. A missing offset counts as 0 |
| App.LoadedDays | app.py:25-47 | no file gives 7 empty days. Otherwise there are max(7, #days) days: the saved days' movie lists in order (a day without movies is []), then empty days |
| App.Loaded | app.py:25-47 | there are always at least seven days |
| App.LoadMoviesData | app.py:25-47 | the loading and padding loops compute the loaded days, at least seven |
| App.LoadSavedRun | app.py:39-47 | loading a run's saved file gives back the seven day documents, day i at index i |

## Left out

- Network calls are the site and catalog parameters. This covers the listing and catalog requests and `Theater.new`.
- The site model cannot express an endless listing, where every page reports a further page.
- The catalog rating is an opaque string. It stands for the float rounding and formatting of `vote_average`.
- Dates are offsets and an abstract calendar. Showtime start times are abstract hour/minute values. This leaves out parsing with `fromisoformat` and printing with `strftime`.
- Showtime fields the model does not use are left out, along with errors from reading them: `diffusionVersion`, latitude, longitude, location, `generated_at` and the date strings.
- KeyError and TypeError on payload keys other than those modelled are left out. A modelled key is where the code reacts to absent or null differently.
- Messages and fields read from a payload are taken to be strings. Null `days` or `movies` values in the saved file are not modelled.
- JSON decoding, environment and dotenv loading, and file reading and writing are left out. Also left out are the printed messages and the missing catalog key warning, which is only printed.
- Flask routing and template rendering are left out. From `home` the model keeps the data handed to the template.
- static/sw.js is left out: it is browser service-worker glue.
- tests/test_basic.py is left out: it checks HTTP status codes through Flask's test client.
- App.TranslateMonth and App.TranslateDay: the contracts state only where "???" is returned. The exact names are the function bodies, and their distinctness is stated in MonthsDistinct and DaysDistinct.

## Findings

| source | as written | input that shows it | evidently intended | confidence | as-written member | corrected member |
|---|---|---|---|---|---|---|
| scrape.py:47 | a new entry reads `movie.letterboxd_url`, which `Movie` never sets (modules/Classes.py:20-51) | any day with at least one showtime: the first showtime's entry raises an attribute error | the entry is built without that key | not executed | Scrape.AsWrittenFailsOnShowtimes | Scrape.DayDocument |
