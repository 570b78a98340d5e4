/** The two search panels: "Search Adds By Song" and "Search Adds By
    Playlist", with the dropdown choices that drive them. */
module Lookups {
  import opened Optional
  import opened Seqs
  import opened Sorting
  import opened GroupBy
  import opened Table

  /** Dropdown choices: each value once, ordered by its lower-cased text
      (`sorted(unique(...), key=lambda x: x.lower())`). Values that differ
      only in case keep their order of first appearance. */
  function Choices(values: seq<string>): (r: seq<string>)
    ensures Distinct(r)
    ensures forall i :: 0 <= i < |values| ==> values[i] in r
    ensures forall i :: 0 <= i < |r| ==> r[i] in values
    ensures SortedBy(r, LowerKey)
    ensures forall k :: WithKey(r, LowerKey, k) == WithKey(Dedup(values), LowerKey, k)
  {
    var unique := Dedup(values);
    var r := SortBy(unique, LowerKey);
    assert forall k :: WithKey(r, LowerKey, k) == WithKey(unique, LowerKey, k) by {
      forall k ensures WithKey(r, LowerKey, k) == WithKey(unique, LowerKey, k) {
        SortByStable(unique, LowerKey, k);
      }
    }
    assert forall i :: 0 <= i < |r| ==> r[i] in values by {
      forall i | 0 <= i < |r| ensures r[i] in values {
        assert r[i] in multiset(unique);
      }
    }
    assert forall i :: 0 <= i < |values| ==> values[i] in r by {
      forall i | 0 <= i < |values| ensures values[i] in r {
        assert values[i] in multiset(unique);
      }
    }
    r
  }

  /** `Artist - Title` of every add row, in row order. */
  function AddLabels(rows: seq<Row>): (r: seq<string>)
    ensures forall c :: c in r <==> exists i :: 0 <= i < |rows| && IsAdd(rows[i]) && ChoiceLabel(SongOf(rows[i]).value) == c
    decreases |rows|
  {
    if rows == [] then []
    else
      var prefix := rows[..|rows| - 1];
      var last := rows[|rows| - 1];
      assert forall i :: 0 <= i < |prefix| ==> prefix[i] == rows[i];
      AddLabels(prefix) + (if IsAdd(last) then [ChoiceLabel(SongOf(last).value)] else [])
  }

  /** The "Select New Release" choices: one per distinct `Artist - Title`
      among the add rows. */
  function SongChoices(rows: seq<Row>): (r: seq<string>)
    ensures Distinct(r)
    ensures SortedBy(r, LowerKey)
    ensures forall c :: c in r <==> exists i :: 0 <= i < |rows| && IsAdd(rows[i]) && ChoiceLabel(SongOf(rows[i]).value) == c
  {
    var labels := AddLabels(rows);
    var r := Choices(labels);
    assert forall c :: c in r <==> c in labels by {
      forall c ensures c in r <==> c in labels {
        if c in labels {
          var i :| 0 <= i < |labels| && labels[i] == c;
        }
        if c in r {
          var i :| 0 <= i < |r| && r[i] == c;
        }
      }
    }
    r
  }

  function PlaylistNames(rows: seq<Row>): (r: seq<string>)
    ensures |r| == |rows|
    ensures forall i :: 0 <= i < |rows| ==> r[i] == rows[i].playlist
  {
    seq(|rows|, i requires 0 <= i < |rows| => rows[i].playlist)
  }

  /** The "Select Playlist" choices: every playlist of the table once,
      including those without adds. */
  function PlaylistChoices(rows: seq<Row>): (r: seq<string>)
    ensures Distinct(r)
    ensures SortedBy(r, LowerKey)
    ensures forall p :: p in r <==> exists i :: 0 <= i < |rows| && rows[i].playlist == p
  {
    var names := PlaylistNames(rows);
    var r := Choices(names);
    assert forall p :: p in names <==> exists i :: 0 <= i < |rows| && rows[i].playlist == p by {
      forall p ensures p in names <==> exists i :: 0 <= i < |rows| && rows[i].playlist == p {
        if p in names {
          var i :| 0 <= i < |names| && names[i] == p;
        }
      }
    }
    r
  }

  /** A row of the song panel's table. */
  datatype SongAdd = SongAdd(playlist: string, position: Option<int>, followers: Option<int>)

  /** The rows whose `Artist - Title` is the selection, projected to the
      panel's columns. With nothing selected nothing matches. */
  function SongAdds(rows: seq<Row>, selected: Option<string>): (r: seq<SongAdd>)
    ensures forall a :: a in r <==>
      (exists i :: 0 <= i < |rows| && IsAdd(rows[i]) &&
         selected == Some(ChoiceLabel(SongOf(rows[i]).value)) &&
         a == SongAdd(rows[i].playlist, rows[i].position, rows[i].followers))
    decreases |rows|
  {
    if rows == [] then []
    else
      var prefix := rows[..|rows| - 1];
      var last := rows[|rows| - 1];
      assert forall i :: 0 <= i < |prefix| ==> prefix[i] == rows[i];
      SongAdds(prefix, selected) +
        (if IsAdd(last) && selected == Some(ChoiceLabel(SongOf(last).value))
         then [SongAdd(last.playlist, last.position, last.followers)] else [])
  }

  /** Descending by followers, missing followers last (pandas puts NaN last
      whichever the direction). */
  function FollowersKey(a: SongAdd): Key {
    match a.followers
    case Some(f) => [0, -f]
    case None => [1]
  }

  /** `a` may come before `b` in the song panel. */
  predicate FollowersFirst(a: SongAdd, b: SongAdd) {
    b.followers.None? || (a.followers.Some? && a.followers.value >= b.followers.value)
  }

  lemma FollowersKeyOrder(a: SongAdd, b: SongAdd)
    ensures KeyLe(FollowersKey(a), FollowersKey(b)) <==> FollowersFirst(a, b)
  {
    var ka, kb := FollowersKey(a), FollowersKey(b);
    if ka[0] != kb[0] {
      KeyLeHead(ka, kb);
    } else if a.followers.Some? {
      assert ka[1..] == [-a.followers.value] && kb[1..] == [-b.followers.value];
      if a.followers.value != b.followers.value {
        KeyLeHead(ka[1..], kb[1..]);
      } else {
        KeyLeReflexive(ka);
      }
    }
  }

  /** "Search Adds By Song": the selected song's playlist adds, most
      followers first and missing followers last. */
  function SongLookup(rows: seq<Row>, selected: Option<string>): (r: seq<SongAdd>)
    ensures multiset(r) == multiset(SongAdds(rows, selected))
    ensures forall i, j :: 0 <= i < j < |r| ==> FollowersFirst(r[i], r[j])
  {
    var r := SortBy(SongAdds(rows, selected), FollowersKey);
    assert forall i, j :: 0 <= i < j < |r| ==> FollowersFirst(r[i], r[j]) by {
      forall i, j | 0 <= i < j < |r| ensures FollowersFirst(r[i], r[j]) {
        FollowersKeyOrder(r[i], r[j]);
      }
    }
    r
  }

  /** The Position column after `fillna('N/A')`. */
  datatype PositionCell = At(rank: int) | NotAvailable

  /** A row of the playlist panel's table. */
  datatype Listing = Listing(artist: string, title: string, position: PositionCell)

  /** What the playlist panel shows: the "No New Releases added" message, or
      a table. */
  datatype PlaylistView = NoNewReleases | Listed(listings: seq<Listing>)

  const Missing := "N/A"

  /** A row as displayed, with each null replaced by "N/A". */
  function Display(row: Row): Listing {
    Listing(row.artist.GetOr(Missing), row.title.GetOr(Missing),
            match row.position case Some(p) => At(p) case None => NotAvailable)
  }

  /** The displayed rows of playlist `p`, in row order. */
  function PlaylistRows(rows: seq<Row>, p: string): (r: seq<Listing>)
    ensures forall l :: l in r <==> exists i :: 0 <= i < |rows| && rows[i].playlist == p && l == Display(rows[i])
    decreases |rows|
  {
    if rows == [] then []
    else
      var prefix := rows[..|rows| - 1];
      var last := rows[|rows| - 1];
      assert forall i :: 0 <= i < |prefix| ==> prefix[i] == rows[i];
      PlaylistRows(prefix, p) + (if last.playlist == p then [Display(last)] else [])
  }

  /** Ascending by position, "N/A" last. */
  function PositionKey(l: Listing): Key {
    match l.position
    case At(n) => [0, n]
    case NotAvailable => [1]
  }

  /** `a` may come before `b` in the playlist panel. */
  predicate PositionFirst(a: Listing, b: Listing) {
    b.position.NotAvailable? || (a.position.At? && a.position.rank <= b.position.rank)
  }

  lemma PositionKeyOrder(a: Listing, b: Listing)
    ensures KeyLe(PositionKey(a), PositionKey(b)) <==> PositionFirst(a, b)
  {
    var ka, kb := PositionKey(a), PositionKey(b);
    if ka[0] != kb[0] {
      KeyLeHead(ka, kb);
    } else if a.position.At? {
      assert ka[1..] == [a.position.rank] && kb[1..] == [b.position.rank];
      if a.position.rank != b.position.rank {
        KeyLeHead(ka[1..], kb[1..]);
      } else {
        KeyLeReflexive(ka);
      }
    }
  }

  /** "Search Adds By Playlist": the message exactly when every Artist and
      Title of the playlist's rows is null; otherwise all its rows, nulls
      shown as "N/A", ascending by position with "N/A" last. */
  function PlaylistLookup(rows: seq<Row>, p: string): (v: PlaylistView)
    ensures v.NoNewReleases? <==>
      forall i :: 0 <= i < |rows| && rows[i].playlist == p ==> rows[i].artist.None? && rows[i].title.None?
    ensures v.Listed? ==> multiset(v.listings) == multiset(PlaylistRows(rows, p))
    ensures v.Listed? ==> forall i, j :: 0 <= i < j < |v.listings| ==> PositionFirst(v.listings[i], v.listings[j])
  {
    if forall i :: 0 <= i < |rows| && rows[i].playlist == p ==> rows[i].artist.None? && rows[i].title.None? then
      NoNewReleases
    else
      var sorted := SortBy(PlaylistRows(rows, p), PositionKey);
      assert forall i, j :: 0 <= i < j < |sorted| ==> PositionFirst(sorted[i], sorted[j]) by {
        forall i, j | 0 <= i < j < |sorted| ensures PositionFirst(sorted[i], sorted[j]) {
          PositionKeyOrder(sorted[i], sorted[j]);
        }
      }
      Listed(sorted)
  }
}
