/** The per-day document of `get_showtimes` in scrape.py: one entry per
    movie title, the shared fields taken from the first showtime seen with
    that title, and under it the seances grouped by theater name. The
    document's dictionaries keep insertion order, so each is modelled as a
    sequence of entries with distinct keys. */
module Grouping {
  import opened Common
  import opened Text
  import opened Movies
  import opened Showtimes

  /** One seance as written to the document. */
  datatype Seance = Seance(time: Time, lang: Lang, format: Option<string>)

  /** The seances of one theater for one movie. */
  datatype TheaterSeances = TheaterSeances(theater: string, seances: seq<Seance>)

  /** One movie of a day. `realisateur` and `director` hold the same name,
      `genres` the genre labels joined by ", ". */
  datatype MovieDoc = MovieDoc(
    title: string,
    releaseYear: string,
    duree: string,
    rating: string,
    genres: string,
    realisateur: string,
    synopsis: Option<string>,
    affiche: Option<string>,
    director: string,
    wantToSee: int,
    seances: seq<TheaterSeances>)

  /** The entry created for a title not seen before, with no seances yet. */
  function NewDoc(m: Movie): (d: MovieDoc)
    ensures d.title == m.title && d.wantToSee == m.wantToSee && d.seances == []
  {
    MovieDoc(m.title, m.releaseYear, m.runtime, m.rating, Join(m.genres, ", "), m.director,
      m.synopsis, m.affiche, m.director, m.wantToSee, [])
  }

  function SeanceOf(s: Showtime): Seance {
    Seance(s.startsAt, s.language, s.format)
  }

  /** An entry without its seances: the fields shared by all its showtimes. */
  function Header(d: MovieDoc): MovieDoc {
    d.(seances := [])
  }

  // ---------------------------------------------------------------------
  // The fold

  /** Where theater `n` sits among a movie's buckets, `|bs|` when absent. */
  function BucketIndex(bs: seq<TheaterSeances>, n: string): (k: nat)
    ensures k <= |bs|
    ensures k < |bs| ==> bs[k].theater == n
    ensures forall j :: 0 <= j < k ==> bs[j].theater != n
  {
    if bs == [] then 0 else if bs[0].theater == n then 0 else 1 + BucketIndex(bs[1..], n)
  }

  /** Where title `t` sits among the day's entries, `|docs|` when absent. */
  function TitleIndex(docs: seq<MovieDoc>, t: string): (k: nat)
    ensures k <= |docs|
    ensures k < |docs| ==> docs[k].title == t
    ensures forall j :: 0 <= j < k ==> docs[j].title != t
  {
    if docs == [] then 0 else if docs[0].title == t then 0 else 1 + TitleIndex(docs[1..], t)
  }

  /** Appends a seance to theater `n`'s bucket, creating the bucket at the
      end when the theater has none yet. */
  function AddSeance(bs: seq<TheaterSeances>, n: string, x: Seance): seq<TheaterSeances> {
    var k := BucketIndex(bs, n);
    if k == |bs| then bs + [TheaterSeances(n, [x])]
    else bs[k := bs[k].(seances := bs[k].seances + [x])]
  }

  /** Files a showtime's seance under its theater in a movie's entry. */
  function Record(d: MovieDoc, s: Showtime): MovieDoc {
    d.(seances := AddSeance(d.seances, s.theater.name, SeanceOf(s)))
  }

  /** The entries of `docs` keep their titles and places in `r`. */
  predicate KeepsTitles(docs: seq<MovieDoc>, r: seq<MovieDoc>) {
    |docs| <= |r| && forall i :: 0 <= i < |docs| ==> r[i].title == docs[i].title
  }

  /** One step of the loop over the day's showtimes: the entry of the
      showtime's title, created from its movie when new, gets the seance. */
  function AddShowtime(docs: seq<MovieDoc>, s: Showtime): (r: seq<MovieDoc>)
    ensures |docs| <= |r| <= |docs| + 1
    ensures KeepsTitles(docs, r)
    ensures HasTitle(r, s.movie.title)
  {
    var k := TitleIndex(docs, s.movie.title);
    if k == |docs| then
      var r := docs + [Record(NewDoc(s.movie), s)];
      assert r[k].title == s.movie.title;
      r
    else
      var r := docs[k := Record(docs[k], s)];
      assert r[k].title == s.movie.title;
      r
  }

  /** The entries after the loop has seen `ss`, in insertion order. */
  function Group(ss: seq<Showtime>): (r: seq<MovieDoc>)
    ensures |r| <= |ss|
    decreases |ss|
  {
    if ss == [] then [] else AddShowtime(Group(ss[..|ss| - 1]), ss[|ss| - 1])
  }

  // ---------------------------------------------------------------------
  // The reference description: what the document holds, without the fold

  function TitlesOf(ss: seq<Showtime>): seq<string> {
    seq(|ss|, i requires 0 <= i < |ss| => ss[i].movie.title)
  }

  function TheaterNames(ss: seq<Showtime>): seq<string> {
    seq(|ss|, i requires 0 <= i < |ss| => ss[i].theater.name)
  }

  /** Where `x` first occurs in `xs`, `|xs|` when it does not. */
  function FirstIndex(xs: seq<string>, x: string): (k: nat)
    ensures k <= |xs|
    ensures k < |xs| ==> xs[k] == x
    ensures forall j :: 0 <= j < k ==> xs[j] != x
  {
    if xs == [] then 0 else if xs[0] == x then 0 else 1 + FirstIndex(xs[1..], x)
  }

  /** First occurrences in `xs` are those of all of it but its last
      element, except for a key that occurs only there. */
  lemma FirstIndexLast(xs: seq<string>)
    requires xs != []
    ensures var p, y := xs[..|xs| - 1], xs[|xs| - 1];
      forall x :: FirstIndex(xs, x) ==
        if x in p then FirstIndex(p, x) else if x == y then |p| else |xs|
  {
    var p, y := xs[..|xs| - 1], xs[|xs| - 1];
    forall x ensures FirstIndex(xs, x) == if x in p then FirstIndex(p, x) else if x == y then |p| else |xs| {
      var k := FirstIndex(xs, x);
      if x in p {
        var k' := FirstIndex(p, x);
        assert k' < |p| && xs[k'] == x;
        assert k <= k';
        assert p[k] == x;
      } else {
        forall j | 0 <= j < |p| ensures xs[j] != x {
          assert xs[j] == p[j];
        }
        assert x == y ==> xs[|p|] == x;
      }
    }
  }

  /** The keys of `r` come in the order of their first occurrence in
      `xs`. */
  predicate InOrderOfFirst(r: seq<string>, xs: seq<string>) {
    forall i, j :: 0 <= i < j < |r| ==> FirstIndex(xs, r[i]) < FirstIndex(xs, r[j])
  }

  /** The keys in order of first appearance, each once. */
  function FirstSeen(xs: seq<string>): (r: seq<string>)
    ensures forall x :: x in r <==> x in xs
    ensures forall i, j :: 0 <= i < j < |r| ==> r[i] != r[j]
    ensures InOrderOfFirst(r, xs)
    decreases |xs|
  {
    if xs == [] then []
    else
      var p := FirstSeen(xs[..|xs| - 1]);
      FirstIndexLast(xs);
      if xs[|xs| - 1] in p then p else p + [xs[|xs| - 1]]
  }

  /** The showtimes of title `t`, in order. */
  function OfTitle(ss: seq<Showtime>, t: string): seq<Showtime>
    decreases |ss|
  {
    if ss == [] then []
    else OfTitle(ss[..|ss| - 1], t) + (if ss[|ss| - 1].movie.title == t then [ss[|ss| - 1]] else [])
  }

  /** The seances of title `t` at theater `n`, in order. */
  function At(ss: seq<Showtime>, t: string, n: string): seq<Seance>
    decreases |ss|
  {
    if ss == [] then []
    else
      var s := ss[|ss| - 1];
      At(ss[..|ss| - 1], t, n) + (if s.movie.title == t && s.theater.name == n then [SeanceOf(s)] else [])
  }

  /** The movie of the first showtime with title `t`. */
  function FirstMovie(ss: seq<Showtime>, t: string): (m: Movie)
    requires t in TitlesOf(ss)
    ensures m.title == t
    ensures exists i :: 0 <= i < |ss| && ss[i].movie == m && forall j :: 0 <= j < i ==> ss[j].movie.title != t
    decreases |ss|
  {
    var p := ss[..|ss| - 1];
    assert TitlesOf(ss) == TitlesOf(p) + [ss[|ss| - 1].movie.title];
    if t in TitlesOf(p) then
      var m := FirstMovie(p, t);
      assert forall i :: 0 <= i < |p| ==> p[i] == ss[i];
      m
    else
      assert forall j :: 0 <= j < |p| ==> p[j].movie.title == TitlesOf(p)[j];
      ss[|ss| - 1].movie
  }

  /** The entry of title `t`: its first movie's fields, and one bucket per
      theater that showed it, in order of first appearance, holding that
      theater's seances in order. */
  function DocOf(ss: seq<Showtime>, t: string): MovieDoc
    requires t in TitlesOf(ss)
  {
    var names := FirstSeen(TheaterNames(OfTitle(ss, t)));
    NewDoc(FirstMovie(ss, t)).(seances :=
      seq(|names|, j requires 0 <= j < |names| => TheaterSeances(names[j], At(ss, t, names[j]))))
  }

  /** The whole day: one entry per title, in order of first appearance. */
  function Reference(ss: seq<Showtime>): seq<MovieDoc> {
    var ts := FirstSeen(TitlesOf(ss));
    seq(|ts|, i requires 0 <= i < |ts| => DocOf(ss, ts[i]))
  }

  // ---------------------------------------------------------------------
  // The fold builds the reference

  lemma TitlesSnoc(p: seq<Showtime>, s: Showtime)
    ensures TitlesOf(p + [s]) == TitlesOf(p) + [s.movie.title]
    ensures TheaterNames(p + [s]) == TheaterNames(p) + [s.theater.name]
    ensures (p + [s])[..|p|] == p
  {
  }

  lemma {:induction false} AbsentTitle(ss: seq<Showtime>, t: string, n: string)
    requires t !in TitlesOf(ss)
    ensures OfTitle(ss, t) == [] && At(ss, t, n) == []
    decreases |ss|
  {
    if ss != [] {
      var p := ss[..|ss| - 1];
      TitlesSnoc(p, ss[|ss| - 1]);
      assert ss == p + [ss[|ss| - 1]];
      AbsentTitle(p, t, n);
    }
  }

  /** The theaters of a title with a non-empty bucket are those that showed
      it. */
  lemma {:induction false} NamesHaveSeances(ss: seq<Showtime>, t: string, n: string)
    ensures n in TheaterNames(OfTitle(ss, t)) <==> At(ss, t, n) != []
    decreases |ss|
  {
    if ss != [] {
      var p := ss[..|ss| - 1];
      var s := ss[|ss| - 1];
      NamesHaveSeances(p, t, n);
      if s.movie.title == t {
        TitlesSnoc(OfTitle(p, t), s);
      } else {
        assert OfTitle(ss, t) == OfTitle(p, t);
      }
    }
  }

  /** The seances of one title, built from the per-theater views. */
  function BucketsOf(ss: seq<Showtime>, t: string, names: seq<string>): seq<TheaterSeances> {
    seq(|names|, j requires 0 <= j < |names| => TheaterSeances(names[j], At(ss, t, names[j])))
  }

  /** In buckets named by distinct names, a name's bucket is at its
      position among the names. */
  lemma BucketIndexOfName(bs: seq<TheaterSeances>, names: seq<string>, j: nat)
    requires |bs| == |names| && j < |names|
    requires forall i :: 0 <= i < |bs| ==> bs[i].theater == names[i]
    requires forall i, i' :: 0 <= i < i' < |names| ==> names[i] != names[i']
    ensures BucketIndex(bs, names[j]) == j
  {
    var k := BucketIndex(bs, names[j]);
    assert bs[j].theater == names[j];
    assert k <= j;
    assert names[k] == names[j];
  }

  /** A seance of a theater that already has a bucket extends that bucket. */
  lemma BucketsExtendSeen(p: seq<Showtime>, s: Showtime, names: seq<string>)
    requires forall i, i' :: 0 <= i < i' < |names| ==> names[i] != names[i']
    requires s.theater.name in names
    ensures BucketsOf(p + [s], s.movie.title, names) ==
      AddSeance(BucketsOf(p, s.movie.title, names), s.theater.name, SeanceOf(s))
  {
    var t, n, x := s.movie.title, s.theater.name, SeanceOf(s);
    var ss := p + [s];
    assert ss[..|ss| - 1] == p && ss[|ss| - 1] == s;
    var old_ := BucketsOf(p, t, names);
    var j :| 0 <= j < |names| && names[j] == n;
    BucketIndexOfName(old_, names, j);
    var lhs := BucketsOf(ss, t, names);
    var rhs := AddSeance(old_, n, x);
    assert |lhs| == |rhs|;
    forall i | 0 <= i < |lhs| ensures lhs[i] == rhs[i] {
      assert At(ss, t, names[i]) == At(p, t, names[i]) + (if names[i] == n then [x] else []);
    }
  }

  /** A seance of a theater without a bucket adds its bucket at the end. */
  lemma BucketsExtendNew(p: seq<Showtime>, s: Showtime, names: seq<string>)
    requires s.theater.name !in names
    requires At(p, s.movie.title, s.theater.name) == []
    ensures BucketsOf(p + [s], s.movie.title, names + [s.theater.name]) ==
      AddSeance(BucketsOf(p, s.movie.title, names), s.theater.name, SeanceOf(s))
  {
    var t, n, x := s.movie.title, s.theater.name, SeanceOf(s);
    var ss := p + [s];
    assert ss[..|ss| - 1] == p && ss[|ss| - 1] == s;
    var old_ := BucketsOf(p, t, names);
    assert BucketIndex(old_, n) == |old_|;
    var names' := names + [n];
    var lhs := BucketsOf(ss, t, names');
    var rhs := AddSeance(old_, n, x);
    assert |lhs| == |rhs|;
    forall i | 0 <= i < |lhs| ensures lhs[i] == rhs[i] {
      assert At(ss, t, names'[i]) == At(p, t, names'[i]) + (if names'[i] == n then [x] else []);
      if i < |names| {
        assert names'[i] == names[i] != n;
      }
    }
  }

  /** Adding a seance of a theater already in `names` extends that bucket;
      a seance of any other theater adds its bucket at the end. */
  lemma BucketsExtend(p: seq<Showtime>, s: Showtime, names: seq<string>)
    requires names == FirstSeen(TheaterNames(OfTitle(p, s.movie.title)))
    ensures var t, n := s.movie.title, s.theater.name;
      var names' := if n in names then names else names + [n];
      BucketsOf(p + [s], t, names') == AddSeance(BucketsOf(p, t, names), n, SeanceOf(s))
  {
    if s.theater.name in names {
      BucketsExtendSeen(p, s, names);
    } else {
      NamesHaveSeances(p, s.movie.title, s.theater.name);
      BucketsExtendNew(p, s, names);
    }
  }

  /** How one more showtime changes the entry of a title seen before. */
  lemma DocOfExtend(p: seq<Showtime>, s: Showtime, t: string)
    requires t in TitlesOf(p)
    ensures t in TitlesOf(p + [s])
    ensures DocOf(p + [s], t) == if t == s.movie.title then Record(DocOf(p, t), s) else DocOf(p, t)
  {
    var ss := p + [s];
    TitlesSnoc(p, s);
    assert ss[..|ss| - 1] == p && ss[|ss| - 1] == s;
    assert FirstMovie(ss, t) == FirstMovie(p, t);
    var names := FirstSeen(TheaterNames(OfTitle(p, t)));
    if t == s.movie.title {
      assert OfTitle(ss, t) == OfTitle(p, t) + [s];
      TitlesSnoc(OfTitle(p, t), s);
      var src := TheaterNames(OfTitle(p, t));
      assert (src + [s.theater.name])[..|src|] == src;
      BucketsExtend(p, s, names);
    } else {
      assert OfTitle(ss, t) == OfTitle(p, t);
      var a := DocOf(ss, t).seances;
      var b := DocOf(p, t).seances;
      forall j | 0 <= j < |names| ensures a[j] == b[j] {
        assert At(ss, t, names[j]) == At(p, t, names[j]);
      }
    }
  }

  /** The entry of a title appearing for the first time. */
  lemma DocOfNew(p: seq<Showtime>, s: Showtime)
    requires s.movie.title !in TitlesOf(p)
    ensures s.movie.title in TitlesOf(p + [s])
    ensures DocOf(p + [s], s.movie.title) == Record(NewDoc(s.movie), s)
  {
    var ss, t, n := p + [s], s.movie.title, s.theater.name;
    TitlesSnoc(p, s);
    assert ss[..|ss| - 1] == p && ss[|ss| - 1] == s;
    AbsentTitle(p, t, n);
    assert OfTitle(ss, t) == [s];
    assert TheaterNames([s]) == [n];
    assert FirstSeen([n]) == [n] by {
      assert [n][..0] == [];
    }
    assert At(ss, t, n) == [SeanceOf(s)];
  }

  /** The entries of the reference carry its titles in order. */
  lemma ReferenceTitles(ss: seq<Showtime>)
    ensures var r, ts := Reference(ss), FirstSeen(TitlesOf(ss));
      |r| == |ts| && forall i :: 0 <= i < |r| ==> r[i].title == ts[i]
  {
  }

  /** A showtime of a title seen before files its seance in that title's
      entry and changes nothing else. */
  lemma ReferenceStepSeen(p: seq<Showtime>, s: Showtime)
    requires s.movie.title in TitlesOf(p)
    ensures AddShowtime(Reference(p), s) == Reference(p + [s])
  {
    var ss := p + [s];
    TitlesSnoc(p, s);
    assert ss[..|ss| - 1] == p && ss[|ss| - 1] == s;
    var t := s.movie.title;
    var ts := FirstSeen(TitlesOf(p));
    var r := Reference(p);
    ReferenceTitles(p);
    var k := TitleIndex(r, t);
    var lhs := AddShowtime(r, s);
    var rhs := Reference(ss);
    assert FirstSeen(TitlesOf(ss)) == ts;
    assert k < |r| by {
      var j :| 0 <= j < |ts| && ts[j] == t;
      assert r[j].title == t;
    }
    assert |lhs| == |rhs|;
    forall i | 0 <= i < |lhs| ensures lhs[i] == rhs[i] {
      DocOfExtend(p, s, ts[i]);
      if i != k {
        assert r[i].title != t by {
          assert ts[i] != ts[k];
        }
      }
    }
  }

  /** A showtime of a new title appends that title's entry. */
  lemma ReferenceStepNew(p: seq<Showtime>, s: Showtime)
    requires s.movie.title !in TitlesOf(p)
    ensures AddShowtime(Reference(p), s) == Reference(p + [s])
  {
    var ss := p + [s];
    TitlesSnoc(p, s);
    assert ss[..|ss| - 1] == p && ss[|ss| - 1] == s;
    var t := s.movie.title;
    var ts := FirstSeen(TitlesOf(p));
    var r := Reference(p);
    ReferenceTitles(p);
    var lhs := AddShowtime(r, s);
    var rhs := Reference(ss);
    assert FirstSeen(TitlesOf(ss)) == ts + [t];
    assert TitleIndex(r, t) == |r|;
    DocOfNew(p, s);
    assert |lhs| == |rhs|;
    forall i | 0 <= i < |lhs| ensures lhs[i] == rhs[i] {
      if i < |ts| {
        DocOfExtend(p, s, ts[i]);
      }
    }
  }

  /** The loop's state is always the reference description of what it has
      seen: entries in order of first appearance, the first showtime's
      fields, lazily created buckets with their seances in order. */
  lemma {:induction false} GroupIsReference(ss: seq<Showtime>)
    ensures Group(ss) == Reference(ss)
    decreases |ss|
  {
    if ss != [] {
      var p, s := ss[..|ss| - 1], ss[|ss| - 1];
      assert ss == p + [s];
      GroupIsReference(p);
      if s.movie.title in TitlesOf(p) {
        ReferenceStepSeen(p, s);
      } else {
        ReferenceStepNew(p, s);
      }
    }
  }

  // ---------------------------------------------------------------------
  // What the day's entries are, read off the reference

  /** A theater's bucket in a movie's entry, if there is one. */
  function BucketOf(bs: seq<TheaterSeances>, n: string): Option<seq<Seance>> {
    var k := BucketIndex(bs, n);
    if k < |bs| then Some(bs[k].seances) else None
  }

  /** A title's entry has a bucket for exactly the theaters that showed the
      movie, holding their seances of it in input order. */
  lemma DocBuckets(ss: seq<Showtime>, t: string, n: string)
    requires t in TitlesOf(ss)
    ensures BucketOf(DocOf(ss, t).seances, n) == if At(ss, t, n) == [] then None else Some(At(ss, t, n))
  {
    var names := FirstSeen(TheaterNames(OfTitle(ss, t)));
    var bs := DocOf(ss, t).seances;
    NamesHaveSeances(ss, t, n);
    var k := BucketIndex(bs, n);
    if n in names {
      var j :| 0 <= j < |names| && names[j] == n;
      BucketIndexOfName(bs, names, j);
    } else {
      assert k == |bs|;
    }
  }

  /** No two entries share a title. */
  predicate DistinctTitles(s: seq<MovieDoc>) {
    forall i, j :: 0 <= i < j < |s| ==> s[i].title != s[j].title
  }

  /** Some entry has title `t`. */
  predicate HasTitle(s: seq<MovieDoc>, t: string) {
    exists i :: 0 <= i < |s| && s[i].title == t
  }

  /** The entries' titles come in the order of their first occurrence in
      `ts`. */
  predicate InFirstSeenOrder(docs: seq<MovieDoc>, ts: seq<string>) {
    forall i, j :: 0 <= i < j < |docs| ==> FirstIndex(ts, docs[i].title) < FirstIndex(ts, docs[j].title)
  }

  /** Each title seen appears exactly once, in order of first appearance,
      and no other title appears. */
  lemma GroupTitles(ss: seq<Showtime>)
    ensures DistinctTitles(Group(ss))
    ensures forall t :: HasTitle(Group(ss), t) <==> t in TitlesOf(ss)
    ensures InFirstSeenOrder(Group(ss), TitlesOf(ss))
  {
    GroupIsReference(ss);
    ReferenceTitles(ss);
    var g := Group(ss);
    var ts := FirstSeen(TitlesOf(ss));
    forall t | t in TitlesOf(ss) ensures HasTitle(g, t) {
      var i :| 0 <= i < |ts| && ts[i] == t;
      assert g[i].title == t;
    }
  }

  /** An entry's shared fields come from the first showtime with its title;
      a theater has a bucket in it exactly when it showed the movie, and the
      bucket holds that theater's seances of the movie in input order. */
  lemma GroupEntries(ss: seq<Showtime>)
    ensures var g := Group(ss);
      forall i :: 0 <= i < |g| ==>
        && g[i].title in TitlesOf(ss)
        && Header(g[i]) == NewDoc(FirstMovie(ss, g[i].title))
        && forall n :: BucketOf(g[i].seances, n) == if At(ss, g[i].title, n) == [] then None else Some(At(ss, g[i].title, n))
  {
    GroupIsReference(ss);
    ReferenceTitles(ss);
    var g := Group(ss);
    forall i, n | 0 <= i < |g|
      ensures BucketOf(g[i].seances, n) == if At(ss, g[i].title, n) == [] then None else Some(At(ss, g[i].title, n))
    {
      DocBuckets(ss, g[i].title, n);
    }
  }

  // ---------------------------------------------------------------------
  // Nothing is lost

  function BucketTotal(bs: seq<TheaterSeances>): nat
    decreases |bs|
  {
    if bs == [] then 0 else BucketTotal(bs[..|bs| - 1]) + |bs[|bs| - 1].seances|
  }

  /** The number of seances across all movies and theaters. */
  function Total(docs: seq<MovieDoc>): nat
    decreases |docs|
  {
    if docs == [] then 0 else Total(docs[..|docs| - 1]) + BucketTotal(docs[|docs| - 1].seances)
  }

  lemma {:induction false} BucketTotalUpdate(bs: seq<TheaterSeances>, k: nat, b: TheaterSeances)
    requires k < |bs|
    ensures BucketTotal(bs[k := b]) == BucketTotal(bs) - |bs[k].seances| + |b.seances|
    decreases |bs|
  {
    var n := |bs| - 1;
    if k < n {
      assert bs[k := b][..n] == bs[..n][k := b];
      BucketTotalUpdate(bs[..n], k, b);
    } else {
      assert bs[k := b][..n] == bs[..n];
    }
  }

  lemma {:induction false} TotalUpdate(docs: seq<MovieDoc>, k: nat, d: MovieDoc)
    requires k < |docs|
    ensures Total(docs[k := d]) == Total(docs) - BucketTotal(docs[k].seances) + BucketTotal(d.seances)
    decreases |docs|
  {
    var n := |docs| - 1;
    if k < n {
      assert docs[k := d][..n] == docs[..n][k := d];
      TotalUpdate(docs[..n], k, d);
    } else {
      assert docs[k := d][..n] == docs[..n];
    }
  }

  lemma AddSeanceCount(bs: seq<TheaterSeances>, n: string, x: Seance)
    ensures BucketTotal(AddSeance(bs, n, x)) == BucketTotal(bs) + 1
  {
    var k := BucketIndex(bs, n);
    if k == |bs| {
      assert (bs + [TheaterSeances(n, [x])])[..|bs|] == bs;
    } else {
      BucketTotalUpdate(bs, k, bs[k].(seances := bs[k].seances + [x]));
    }
  }

  /** Every showtime becomes exactly one seance: the seances of the day
      number as many as its showtimes. */
  lemma {:induction false} GroupCount(ss: seq<Showtime>)
    ensures Total(Group(ss)) == |ss|
    decreases |ss|
  {
    if ss != [] {
      var p, s := ss[..|ss| - 1], ss[|ss| - 1];
      GroupCount(p);
      var docs := Group(p);
      var k := TitleIndex(docs, s.movie.title);
      assert Group(ss) == AddShowtime(docs, s);
      if k == |docs| {
        var d := Record(NewDoc(s.movie), s);
        AddSeanceCount([], s.theater.name, SeanceOf(s));
        assert (docs + [d])[..|docs|] == docs;
        assert Total(docs + [d]) == Total(docs) + BucketTotal(d.seances);
      } else {
        AddSeanceCount(docs[k].seances, s.theater.name, SeanceOf(s));
        TotalUpdate(docs, k, Record(docs[k], s));
      }
    }
  }
}
