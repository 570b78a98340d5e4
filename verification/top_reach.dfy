/** The "Top 5 Highest Reach" chart: songs grouped by (Artist, Title) with
    their summed followers and the distinct playlists that added them,
    highest reach first, cut to five bars. */
module TopReach {
  import opened Optional
  import opened Seqs
  import opened Sorting
  import opened GroupBy
  import opened Table

  /** One bar of the chart. */
  datatype Entry = Entry(song: Song, reach: int, playlists: seq<string>)

  /** The number of bars the page draws (`head(5)`). */
  const ChartSize := 5

  /** The distinct playlists that added `s`, in row order, as
      `list(x.unique())` lists them. */
  function SongPlaylists(rows: seq<Row>, s: Song): (ps: seq<string>)
    ensures Distinct(ps)
    ensures forall j :: 0 <= j < |ps| ==> exists i :: 0 <= i < |rows| && SongOf(rows[i]) == Some(s) && rows[i].playlist == ps[j]
    ensures forall i :: 0 <= i < |rows| && SongOf(rows[i]) == Some(s) ==> rows[i].playlist in ps
  {
    var key := (r: Row) => if SongOf(r) == Some(s) then Some(r.playlist) else None;
    var ps := Groups(rows, key);
    assert forall i :: 0 <= i < |rows| ==> key(rows[i]) == if SongOf(rows[i]) == Some(s) then Some(rows[i].playlist) else None;
    ps
  }

  function EntryOf(rows: seq<Row>, s: Song): Entry {
    Entry(s, Reach(rows, s), SongPlaylists(rows, s))
  }

  /** One entry per song, in the order the songs first appear. */
  function Entries(rows: seq<Row>): (es: seq<Entry>)
    ensures |es| == |Songs(rows)|
    ensures forall i :: 0 <= i < |es| ==> es[i] == EntryOf(rows, Songs(rows)[i])
  {
    var songs := Songs(rows);
    seq(|songs|, i requires 0 <= i < |songs| => EntryOf(rows, songs[i]))
  }

  /** Descending by reach: `sort_values(by='Followers', ascending=False)`. */
  function ReachKey(e: Entry): Key {
    [-e.reach]
  }

  lemma ReachKeyOrder(a: Entry, b: Entry)
    ensures KeyLe(ReachKey(a), ReachKey(b)) <==> a.reach >= b.reach
  {
    if a.reach != b.reach {
      KeyLeHead(ReachKey(a), ReachKey(b));
    } else {
      KeyLeReflexive(ReachKey(a));
    }
  }

  lemma EntriesDistinct(rows: seq<Row>)
    ensures Distinct(Entries(rows))
  {
    var es := Entries(rows);
    forall i, j | 0 <= i < j < |es| ensures es[i] != es[j] {
      assert es[i].song == Songs(rows)[i];
      assert es[j].song == Songs(rows)[j];
    }
  }

  /** Every song's entry, highest reach first: `sort_values(by='Followers',
      ascending=False)`. */
  function Ranked(rows: seq<Row>): (sorted: seq<Entry>)
    ensures |sorted| == |Songs(rows)|
    ensures multiset(sorted) == multiset(Entries(rows))
    ensures forall i, j :: 0 <= i < j < |sorted| ==> sorted[i].reach >= sorted[j].reach
    ensures forall i :: 0 <= i < |sorted| ==> sorted[i].song in Songs(rows) && sorted[i] == EntryOf(rows, sorted[i].song)
    ensures forall i, j :: 0 <= i < j < |sorted| ==> sorted[i].song != sorted[j].song
  {
    var es := Entries(rows);
    var sorted := SortBy(es, ReachKey);
    EntriesDistinct(rows);
    SortedByReach(sorted);
    EntriesGenuine(rows, es, sorted);
    sorted
  }

  /** The `n` songs of highest reach, highest first. Every bar carries the
      song's true reach and playlists, and no song is shown twice. */
  function TopByReach(rows: seq<Row>, n: nat): (r: seq<Entry>)
    ensures |r| == if n < |Songs(rows)| then n else |Songs(rows)|
    ensures forall i, j :: 0 <= i < j < |r| ==> r[i].reach >= r[j].reach
    ensures forall i :: 0 <= i < |r| ==> r[i].song in Songs(rows) && r[i] == EntryOf(rows, r[i].song)
    ensures forall i, j :: 0 <= i < j < |r| ==> r[i].song != r[j].song
  {
    Take(Ranked(rows), n)
  }

  lemma SortedByReach(sorted: seq<Entry>)
    requires SortedBy(sorted, ReachKey)
    ensures forall i, j :: 0 <= i < j < |sorted| ==> sorted[i].reach >= sorted[j].reach
  {
    forall i, j | 0 <= i < j < |sorted| ensures sorted[i].reach >= sorted[j].reach {
      ReachKeyOrder(sorted[i], sorted[j]);
    }
  }

  /** Reordering keeps every entry one of the table's songs, with its data;
      since the songs are distinct, so are the entries' songs. */
  lemma EntriesGenuine(rows: seq<Row>, es: seq<Entry>, sorted: seq<Entry>)
    requires es == Entries(rows)
    requires multiset(sorted) == multiset(es) && Distinct(sorted)
    ensures forall i :: 0 <= i < |sorted| ==> sorted[i].song in Songs(rows) && sorted[i] == EntryOf(rows, sorted[i].song)
    ensures forall i, j :: 0 <= i < j < |sorted| ==> sorted[i].song != sorted[j].song
  {
    forall i | 0 <= i < |sorted| ensures sorted[i].song in Songs(rows) && sorted[i] == EntryOf(rows, sorted[i].song) {
      assert sorted[i] in multiset(es);
      var k :| 0 <= k < |es| && es[k] == sorted[i];
    }
  }

  /** The first `n` of a list ordered by descending reach outrank every
      entry of the list they leave out. */
  lemma {:induction false} TakeOutranksRest(es: seq<Entry>, sorted: seq<Entry>, n: nat, e: Entry)
    requires multiset(sorted) == multiset(es)
    requires forall i, j :: 0 <= i < j < |sorted| ==> sorted[i].reach >= sorted[j].reach
    requires e in es && e !in Take(sorted, n)
    ensures forall i :: 0 <= i < |Take(sorted, n)| ==> e.reach <= Take(sorted, n)[i].reach
  {
    assert e in multiset(sorted);
    var j :| 0 <= j < |sorted| && sorted[j] == e;
    assert j >= |Take(sorted, n)|;
  }

  /** The chart shows the top of the table: a song left off the chart
      reaches no more than any song on it. */
  lemma {:induction false} LeftOffReachesNoMore(rows: seq<Row>, n: nat, s: Song)
    requires s in Songs(rows)
    requires forall i :: 0 <= i < |TopByReach(rows, n)| ==> TopByReach(rows, n)[i].song != s
    ensures forall i :: 0 <= i < |TopByReach(rows, n)| ==> Reach(rows, s) <= TopByReach(rows, n)[i].reach
  {
    var es := Entries(rows);
    var sorted := Ranked(rows);
    var top := TopByReach(rows, n);
    assert top == Take(sorted, n);
    var k :| 0 <= k < |Songs(rows)| && Songs(rows)[k] == s;
    var e := es[k];
    assert e.song == s && e.reach == Reach(rows, s);
    assert e !in top;
    TakeOutranksRest(es, sorted, n, e);
  }

  /** The chart as drawn: the five songs of highest reach, or all songs
      when there are fewer, highest first. */
  function TopFive(rows: seq<Row>): (r: seq<Entry>)
    ensures |r| == if ChartSize < |Songs(rows)| then ChartSize else |Songs(rows)|
    ensures forall i, j :: 0 <= i < j < |r| ==> r[i].reach >= r[j].reach
  {
    TopByReach(rows, ChartSize)
  }

  /** Every bar of the chart is a different song of the table, with its
      true reach and playlists. */
  lemma TopFiveGenuine(rows: seq<Row>)
    ensures forall i :: 0 <= i < |TopFive(rows)| ==>
      TopFive(rows)[i].song in Songs(rows) && TopFive(rows)[i] == EntryOf(rows, TopFive(rows)[i].song)
    ensures forall i, j :: 0 <= i < j < |TopFive(rows)| ==> TopFive(rows)[i].song != TopFive(rows)[j].song
  {
    var r := TopByReach(rows, ChartSize);
    assert TopFive(rows) == r;
  }
}
