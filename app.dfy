/** The view side of app.py: the French month and weekday abbreviations,
    the home page's choice of day and its strip of seven dates, and the
    loading of the saved days. */
module App {
  import opened Common
  import opened Grouping
  import opened Scrape

  /** `translateMonth`: month 1..12 to its abbreviation, anything else to
      "???". */
  function TranslateMonth(num: int): (r: string)
    ensures r == "???" <==> !(1 <= num <= 12)
  {
    match num
    case 1 => "janv"
    case 2 => "févr"
    case 3 => "mars"
    case 4 => "avr"
    case 5 => "mai"
    case 6 => "juin"
    case 7 => "juil"
    case 8 => "août"
    case 9 => "sept"
    case 10 => "oct"
    case 11 => "nov"
    case 12 => "déc"
    case _ => "???"
  }

  /** `translateDay`: weekday 0 (Monday) .. 6 (Sunday) to its
      abbreviation, anything else to "???". */
  function TranslateDay(weekday: int): (r: string)
    ensures r == "???" <==> !(0 <= weekday <= 6)
  {
    match weekday
    case 0 => "lun"
    case 1 => "mar"
    case 2 => "mer"
    case 3 => "jeu"
    case 4 => "ven"
    case 5 => "sam"
    case 6 => "dim"
    case _ => "???"
  }

  /** No two months share an abbreviation. */
  lemma MonthsDistinct(a: int, b: int)
    requires 1 <= a <= 12 && 1 <= b <= 12 && a != b
    ensures TranslateMonth(a) != TranslateMonth(b)
  {
  }

  /** No two weekdays share an abbreviation. */
  lemma DaysDistinct(a: int, b: int)
    requires 0 <= a <= 6 && 0 <= b <= 6 && a != b
    ensures TranslateDay(a) != TranslateDay(b)
  {
  }

  // ---------------------------------------------------------------------
  // home

  /** The calendar date `i` days after today. `weekday` counts from Monday
      = 0. */
  datatype CalendarDay = CalendarDay(weekday: int, day: int, month: int)

  /** One entry of the date strip. */
  datatype DateEntry = DateEntry(jour: string, chiffre: int, mois: string, choisi: bool, index: int)

  const LastDay := 6

  /** The requested day offset brought into the window 0..6. */
  function Clamp(delta: int): (d: int)
    ensures 0 <= d <= LastDay
    ensures 0 <= delta <= LastDay ==> d == delta
    ensures delta > LastDay ==> d == LastDay
    ensures delta < 0 ==> d == 0
  {
    if delta > LastDay then LastDay else if delta < 0 then 0 else delta
  }

  /** `home`: the `delta` argument (`None` when it is missing or not an
      integer, read as 0) clamped to the window, the seven dates from today
      with the clamped one marked, and that day's movies. `showtimes` holds
      at least seven days, as loading guarantees. */
  method Home(delta: Option<int>, calendar: nat -> CalendarDay, showtimes: seq<seq<MovieDoc>>)
    returns (films: seq<MovieDoc>, dates: seq<DateEntry>)
    requires |showtimes| > LastDay
    ensures var d := Clamp(delta.GetOr(0));
      && films == showtimes[d]
      && |dates| == LastDay + 1
      && (forall i :: 0 <= i < |dates| ==>
        && dates[i].index == i
        && dates[i].choisi == (i == d)
        && dates[i].jour == TranslateDay(calendar(i).weekday)
        && dates[i].chiffre == calendar(i).day
        && dates[i].mois == TranslateMonth(calendar(i).month))
    ensures exists i :: 0 <= i < |dates| && dates[i].choisi
    ensures forall i, j :: 0 <= i < |dates| && 0 <= j < |dates| && dates[i].choisi && dates[j].choisi ==> i == j
  {
    var d := delta.GetOr(0);
    if d > LastDay {
      d := LastDay;
    }
    if d < 0 {
      d := 0;
    }
    dates := [];
    for i := 0 to LastDay + 1
      invariant |dates| == i
      invariant forall j :: 0 <= j < i ==>
        && dates[j].index == j
        && dates[j].choisi == (j == d)
        && dates[j].jour == TranslateDay(calendar(j).weekday)
        && dates[j].chiffre == calendar(j).day
        && dates[j].mois == TranslateMonth(calendar(j).month)
    {
      var day := calendar(i);
      dates := dates + [DateEntry(TranslateDay(day.weekday), day.day, TranslateMonth(day.month), i == d, i)];
    }
    assert dates[d].choisi;
    films := showtimes[d];
  }

  // ---------------------------------------------------------------------
  // load_movies_data

  /** A saved day; `None` when it has no "movies" key. */
  datatype StoredDay = StoredDay(movies: Option<seq<MovieDoc>>)

  /** The saved file: missing, or its "days" list (`None` when the key is
      absent). */
  datatype MoviesFile = Missing | Stored(days: Option<seq<StoredDay>>)

  const MinDays := 7

  /** The loaded days: the saved days' movie lists in order, padded with
      empty days up to seven; seven empty days without a file. */
  function Loaded(file: MoviesFile): (r: seq<seq<MovieDoc>>)
    ensures |r| >= MinDays
  {
    match file
    case Missing => seq(MinDays, _ => [])
    case Stored(days) =>
      var ds := days.GetOr([]);
      var lists := seq(|ds|, i requires 0 <= i < |ds| => ds[i].movies.GetOr([]));
      if |lists| < MinDays then lists + seq(MinDays - |lists|, _ => []) else lists
  }

  /** What loading gives: at least seven days, the saved ones first and in
      order, empty days after them. */
  lemma LoadedDays(file: MoviesFile)
    ensures file.Missing? ==> Loaded(file) == seq(MinDays, _ => [])
    ensures file.Stored? ==>
      var ds := file.days.GetOr([]);
      var r := Loaded(file);
      && |r| == (if |ds| < MinDays then MinDays else |ds|)
      && (forall i :: 0 <= i < |ds| ==> r[i] == ds[i].movies.GetOr([]))
      && (forall i :: |ds| <= i < |r| ==> r[i] == [])
  {
  }

  /** `load_movies_data`: the loop over the saved days, then the padding
      loop. */
  method LoadMoviesData(file: MoviesFile) returns (showtimes: seq<seq<MovieDoc>>)
    ensures showtimes == Loaded(file)
    ensures |showtimes| >= MinDays
  {
    if file.Missing? {
      return seq(MinDays, _ => []);
    }
    var days := file.days.GetOr([]);
    showtimes := [];
    for i := 0 to |days|
      invariant showtimes == seq(i, j requires 0 <= j < i => days[j].movies.GetOr([]))
    {
      showtimes := showtimes + [days[i].movies.GetOr([])];
    }
    ghost var lists := showtimes;
    while |showtimes| < MinDays
      invariant |lists| <= |showtimes|
      invariant showtimes == lists + seq(|showtimes| - |lists|, _ => [])
      invariant |lists| >= MinDays ==> showtimes == lists
      invariant |lists| < MinDays ==> |showtimes| <= MinDays
      decreases MinDays - |showtimes|
    {
      showtimes := showtimes + [[]];
    }
  }

  /** The file a successful run saves: its days in order, each with its
      movies. */
  function SavedFile(days: seq<Day>): MoviesFile {
    Stored(Some(seq(|days|, i requires 0 <= i < |days| => StoredDay(Some(days[i].movies)))))
  }

  /** Loading what a run saved gives back its seven days' documents, day
      `i` at index `i`. */
  lemma LoadSavedRun(days: seq<Day>)
    requires |days| == MinDays
    ensures var r := Loaded(SavedFile(days));
      |r| == MinDays && forall i :: 0 <= i < MinDays ==> r[i] == days[i].movies
  {
  }
}
