/** Per-playlist views: the "Adds By Playlist" chart data and the "Cover
    Artists" table. */
module PlaylistStats {
  import opened Optional
  import opened Seqs
  import opened Sorting
  import opened GroupBy
  import opened Table

  /** A bar of the "Adds By Playlist" chart. */
  datatype PlaylistAdds = PlaylistAdds(playlist: string, adds: int)

  function AddsOf(a: PlaylistAdds): int {
    a.adds
  }

  /** One bar per playlist of `ps`, in that order. */
  function CountsFor(rows: seq<Row>, ps: seq<string>): (r: seq<PlaylistAdds>)
    ensures |r| == |ps|
    ensures forall i :: 0 <= i < |ps| ==> r[i] == PlaylistAdds(ps[i], AddsTo(rows, ps[i]))
    decreases |ps|
  {
    if ps == [] then []
    else CountsFor(rows, ps[..|ps| - 1]) + [PlaylistAdds(ps[|ps| - 1], AddsTo(rows, ps[|ps| - 1]))]
  }

  lemma {:induction false} CountsForSum(rows: seq<Row>, ps: seq<string>)
    ensures SumBy(CountsFor(rows, ps), AddsOf) == SumOfTotals(rows, PlaylistOf, AddIndicator, ps)
    decreases |ps|
  {
    if ps != [] {
      var c := CountsFor(rows, ps);
      CountsForSum(rows, ps[..|ps| - 1]);
      assert c[..|c| - 1] == CountsFor(rows, ps[..|ps| - 1]);
    }
  }

  /** Every row lies in a playlist, so summing the add indicator over the
      keyed rows counts the adds. */
  lemma {:induction false} KeyedAddsAreAdds(rows: seq<Row>)
    ensures KeyedTotal(rows, PlaylistOf, AddIndicator) == AddRowCount(rows)
    decreases |rows|
  {
    if rows != [] {
      KeyedAddsAreAdds(rows[..|rows| - 1]);
    }
  }

  function AddsKey(a: PlaylistAdds): Key {
    [a.adds]
  }

  lemma AddsKeyOrder(a: PlaylistAdds, b: PlaylistAdds)
    ensures KeyLe(AddsKey(a), AddsKey(b)) <==> a.adds <= b.adds
  {
    if a.adds != b.adds {
      KeyLeHead(AddsKey(a), AddsKey(b));
    } else {
      KeyLeReflexive(AddsKey(a));
    }
  }

  /** `value_counts()` of the add rows' playlists, reindexed to every
      playlist of the table with 0 for the missing ones, ascending: each
      playlist exactly once, with its number of adds, and the counts add up
      to the number of add rows. */
  function AddsPerPlaylist(rows: seq<Row>): (r: seq<PlaylistAdds>)
    ensures OneBarPerPlaylist(r)
    ensures BarsCoverTable(rows, r)
    ensures forall i :: 0 <= i < |r| ==> r[i].adds == AddsTo(rows, r[i].playlist)
    ensures forall i, j :: 0 <= i < j < |r| ==> r[i].adds <= r[j].adds
    ensures SumBy(r, AddsOf) == AddRowCount(rows)
  {
    var ps := Playlists(rows);
    var counts := CountsFor(rows, ps);
    CountsDistinct(rows, ps);
    var r := SortBy(counts, AddsKey);
    BarsFacts(rows, ps, counts, r);
    r
  }

  /** No playlist has two bars. */
  predicate OneBarPerPlaylist(r: seq<PlaylistAdds>) {
    forall i, j :: 0 <= i < j < |r| ==> r[i].playlist != r[j].playlist
  }

  /** The bars are exactly the table's playlists: each row's playlist has a
      bar, and each bar's playlist occurs in some row. */
  predicate BarsCoverTable(rows: seq<Row>, r: seq<PlaylistAdds>) {
    (forall k :: 0 <= k < |rows| ==> exists i :: 0 <= i < |r| && r[i].playlist == rows[k].playlist) &&
    (forall i :: 0 <= i < |r| ==> exists k :: 0 <= k < |rows| && rows[k].playlist == r[i].playlist)
  }

  lemma BarsFacts(rows: seq<Row>, ps: seq<string>, counts: seq<PlaylistAdds>, r: seq<PlaylistAdds>)
    requires ps == Playlists(rows) && counts == CountsFor(rows, ps)
    requires multiset(r) == multiset(counts) && Distinct(r) && SortedBy(r, AddsKey)
    ensures OneBarPerPlaylist(r)
    ensures BarsCoverTable(rows, r)
    ensures forall i :: 0 <= i < |r| ==> r[i].adds == AddsTo(rows, r[i].playlist)
    ensures forall i, j :: 0 <= i < j < |r| ==> r[i].adds <= r[j].adds
    ensures SumBy(r, AddsOf) == AddRowCount(rows)
  {
    BarsGenuine(rows, ps, counts, r);
    BarsCoverPlaylists(rows, ps, counts, r);
    BarsAscending(r);
    BarsAddUp(rows, ps, counts, r);
  }

  lemma BarsAscending(r: seq<PlaylistAdds>)
    requires SortedBy(r, AddsKey)
    ensures forall i, j :: 0 <= i < j < |r| ==> r[i].adds <= r[j].adds
  {
    forall i, j | 0 <= i < j < |r| ensures r[i].adds <= r[j].adds {
      AddsKeyOrder(r[i], r[j]);
    }
  }

  /** Sorting the bars keeps their sum, which is the number of add rows. */
  lemma BarsAddUp(rows: seq<Row>, ps: seq<string>, counts: seq<PlaylistAdds>, r: seq<PlaylistAdds>)
    requires ps == Playlists(rows) && counts == CountsFor(rows, ps)
    requires multiset(r) == multiset(counts)
    ensures SumBy(r, AddsOf) == AddRowCount(rows)
  {
    SumByPermutation(r, counts, AddsOf);
    CountsForSum(rows, ps);
    TotalsPartitionKeyedRows(rows, PlaylistOf, AddIndicator);
    KeyedAddsAreAdds(rows);
  }

  lemma CountsDistinct(rows: seq<Row>, ps: seq<string>)
    requires Distinct(ps)
    ensures Distinct(CountsFor(rows, ps))
  {
    var counts := CountsFor(rows, ps);
    forall i, j | 0 <= i < j < |counts| ensures counts[i] != counts[j] {
      assert counts[i].playlist == ps[i] && counts[j].playlist == ps[j];
    }
  }

  /** Each bar, after sorting, is one of the table's playlists with its count. */
  lemma BarsGenuine(rows: seq<Row>, ps: seq<string>, counts: seq<PlaylistAdds>, r: seq<PlaylistAdds>)
    requires ps == Playlists(rows) && counts == CountsFor(rows, ps)
    requires multiset(r) == multiset(counts) && Distinct(r)
    ensures forall i :: 0 <= i < |r| ==> r[i].playlist in ps && r[i].adds == AddsTo(rows, r[i].playlist)
    ensures forall i :: 0 <= i < |r| ==> exists k :: 0 <= k < |rows| && rows[k].playlist == r[i].playlist
    ensures forall i, j :: 0 <= i < j < |r| ==> r[i].playlist != r[j].playlist
  {
    forall i | 0 <= i < |r| ensures r[i].playlist in ps && r[i].adds == AddsTo(rows, r[i].playlist) {
      assert r[i] in multiset(counts);
      var a :| 0 <= a < |counts| && counts[a] == r[i];
    }
    forall i | 0 <= i < |r| ensures exists k :: 0 <= k < |rows| && rows[k].playlist == r[i].playlist {
      var a :| 0 <= a < |ps| && ps[a] == r[i].playlist;
      var k :| 0 <= k < |rows| && PlaylistOf(rows[k]) == Some(ps[a]);
    }
  }

  /** Every playlist of the table has a bar, zero adds included. */
  lemma BarsCoverPlaylists(rows: seq<Row>, ps: seq<string>, counts: seq<PlaylistAdds>, r: seq<PlaylistAdds>)
    requires ps == Playlists(rows) && counts == CountsFor(rows, ps)
    requires multiset(r) == multiset(counts)
    ensures forall k :: 0 <= k < |rows| ==> exists i :: 0 <= i < |r| && r[i].playlist == rows[k].playlist
  {
    forall k | 0 <= k < |rows| ensures exists i :: 0 <= i < |r| && r[i].playlist == rows[k].playlist {
      assert PlaylistOf(rows[k]).Some?;
      var a :| 0 <= a < |ps| && ps[a] == rows[k].playlist;
      assert counts[a] in multiset(r);
      var i :| 0 <= i < |r| && r[i] == counts[a];
    }
  }

  /** A row of the "Cover Artists" table. */
  datatype Cover = Cover(playlist: string, imageUrl: string, coverArtist: string)

  /** Rows with a null Cover_Artist or Image_URL are dropped first. */
  predicate HasCover(row: Row) {
    row.coverArtist.Some? && row.imageUrl.Some?
  }

  /** The group-by key on Playlist after that `dropna`. */
  function CoverKey(row: Row): Option<string> {
    if HasCover(row) then Some(row.playlist) else None
  }

  /** Row `i` is the first row of its playlist that has cover art. */
  predicate IsFirstCover(rows: seq<Row>, i: int)
    requires 0 <= i < |rows|
  {
    HasCover(rows[i]) && forall j :: 0 <= j < i ==> CoverKey(rows[j]) != Some(rows[i].playlist)
  }

  /** Some row of playlist `p` has cover art. */
  predicate HasCoverFor(rows: seq<Row>, p: string) {
    exists k :: 0 <= k < |rows| && CoverKey(rows[k]) == Some(p)
  }

  /** The first row at or after `from` with cover art for playlist `p`. */
  function FirstCoverFrom(rows: seq<Row>, p: string, from: nat): (i: nat)
    requires exists k :: from <= k < |rows| && CoverKey(rows[k]) == Some(p)
    ensures from <= i < |rows| && CoverKey(rows[i]) == Some(p)
    ensures forall j :: from <= j < i ==> CoverKey(rows[j]) != Some(p)
    decreases |rows| - from
  {
    if CoverKey(rows[from]) == Some(p) then from else FirstCoverFrom(rows, p, from + 1)
  }

  /** The `first` aggregate: playlist `p`'s cover art from its first row
      that has some. */
  function CoverOf(rows: seq<Row>, p: string): (c: Cover)
    requires HasCoverFor(rows, p)
    ensures exists i ::
      0 <= i < |rows| && IsFirstCover(rows, i) && rows[i].playlist == p &&
      c == Cover(p, rows[i].imageUrl.value, rows[i].coverArtist.value)
  {
    var i := FirstCoverFrom(rows, p, 0);
    Cover(p, rows[i].imageUrl.value, rows[i].coverArtist.value)
  }

  /** One cover per playlist of `ps`, each of which has cover art. */
  function CoversFor(rows: seq<Row>, ps: seq<string>): (r: seq<Cover>)
    requires forall a :: 0 <= a < |ps| ==> HasCoverFor(rows, ps[a])
    ensures |r| == |ps|
    ensures forall a :: 0 <= a < |ps| ==> r[a] == CoverOf(rows, ps[a])
  {
    seq(|ps|, a requires 0 <= a < |ps| => CoverOf(rows, ps[a]))
  }

  function PlaylistCodes(c: Cover): Key {
    Codes(c.playlist)
  }

  /** No playlist has two entries. */
  predicate OneCoverPerPlaylist(r: seq<Cover>) {
    forall i, j :: 0 <= i < j < |r| ==> r[i].playlist != r[j].playlist
  }

  /** Every playlist with a row carrying both cover fields has an entry. */
  predicate CoversEveryPlaylist(rows: seq<Row>, r: seq<Cover>) {
    forall k :: 0 <= k < |rows| && HasCover(rows[k]) ==> exists i :: 0 <= i < |r| && r[i].playlist == rows[k].playlist
  }

  /** Every entry is copied from the first row of its playlist that has
      cover art. */
  predicate CoversFromFirstRows(rows: seq<Row>, r: seq<Cover>) {
    forall i :: 0 <= i < |r| ==>
      (exists k :: 0 <= k < |rows| && IsFirstCover(rows, k) &&
         r[i] == Cover(rows[k].playlist, rows[k].imageUrl.value, rows[k].coverArtist.value))
  }

  /** `dropna(subset=['Cover_Artist', 'Image_URL']).groupby('Playlist')`
      with `first`: exactly one entry per playlist that has a row with both
      cover fields, taken from its first such row, in playlist order. */
  function CoverArt(rows: seq<Row>): (r: seq<Cover>)
    ensures OneCoverPerPlaylist(r)
    ensures CoversEveryPlaylist(rows, r)
    ensures CoversFromFirstRows(rows, r)
    ensures SortedBy(r, PlaylistCodes)
  {
    var ps := Groups(rows, CoverKey);
    assert forall a :: 0 <= a < |ps| ==> HasCoverFor(rows, ps[a]);
    var covers := CoversFor(rows, ps);
    CoversDistinct(rows, ps);
    var r := SortBy(covers, PlaylistCodes);
    CoverArtFacts(rows, ps, covers, r);
    r
  }

  lemma CoverArtFacts(rows: seq<Row>, ps: seq<string>, covers: seq<Cover>, r: seq<Cover>)
    requires ps == Groups(rows, CoverKey) && covers == CoversFor(rows, ps)
    requires multiset(r) == multiset(covers) && Distinct(r)
    ensures OneCoverPerPlaylist(r)
    ensures CoversEveryPlaylist(rows, r)
    ensures CoversFromFirstRows(rows, r)
  {
    CoversGenuine(rows, ps, covers, r);
    CoversComplete(rows, ps, covers, r);
  }

  lemma CoversDistinct(rows: seq<Row>, ps: seq<string>)
    requires Distinct(ps)
    requires forall a :: 0 <= a < |ps| ==> HasCoverFor(rows, ps[a])
    ensures Distinct(CoversFor(rows, ps))
  {
    var covers := CoversFor(rows, ps);
    forall i, j | 0 <= i < j < |covers| ensures covers[i] != covers[j] {
      assert covers[i].playlist == ps[i] && covers[j].playlist == ps[j];
    }
  }

  lemma CoversGenuine(rows: seq<Row>, ps: seq<string>, covers: seq<Cover>, r: seq<Cover>)
    requires ps == Groups(rows, CoverKey) && covers == CoversFor(rows, ps)
    requires multiset(r) == multiset(covers) && Distinct(r)
    ensures forall i :: 0 <= i < |r| ==>
      (exists k :: 0 <= k < |rows| && IsFirstCover(rows, k) &&
         r[i] == Cover(rows[k].playlist, rows[k].imageUrl.value, rows[k].coverArtist.value))
    ensures forall i, j :: 0 <= i < j < |r| ==> r[i].playlist != r[j].playlist
  {
    forall i | 0 <= i < |r| ensures r[i].playlist in ps && r[i] == CoverOf(rows, r[i].playlist) {
      assert r[i] in multiset(covers);
      var a :| 0 <= a < |covers| && covers[a] == r[i];
    }
  }

  lemma CoversComplete(rows: seq<Row>, ps: seq<string>, covers: seq<Cover>, r: seq<Cover>)
    requires ps == Groups(rows, CoverKey) && covers == CoversFor(rows, ps)
    requires multiset(r) == multiset(covers)
    ensures forall k :: 0 <= k < |rows| && HasCover(rows[k]) ==> exists i :: 0 <= i < |r| && r[i].playlist == rows[k].playlist
  {
    forall k | 0 <= k < |rows| && HasCover(rows[k]) ensures exists i :: 0 <= i < |r| && r[i].playlist == rows[k].playlist {
      assert CoverKey(rows[k]).Some?;
      var a :| 0 <= a < |ps| && ps[a] == rows[k].playlist;
      assert covers[a] in multiset(r);
      var i :| 0 <= i < |r| && r[i] == covers[a];
    }
  }
}
