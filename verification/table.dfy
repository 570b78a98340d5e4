/** The weekly coverage table: one row per playlist add for the latest
    release date, as loaded from `nmf_spotify_coverage`. A playlist that
    added none of this week's songs still has a row, with null song
    columns. */
module Table {
  import opened Optional
  import opened GroupBy

  datatype Row = Row(
    playlist: string,
    title: Option<string>,
    artist: Option<string>,
    position: Option<int>,
    followers: Option<int>,
    imageUrl: Option<string>,
    coverArtist: Option<string>)

  /** A song is identified by its title and artist. */
  datatype Song = Song(title: string, artist: string)

  /** A row is an add when both song columns are present. */
  predicate IsAdd(row: Row) {
    row.title.Some? && row.artist.Some?
  }

  /** The group-by key on (Title, Artist); rows with a null in either form
      no group. */
  function SongOf(row: Row): Option<Song> {
    if IsAdd(row) then Some(Song(row.title.value, row.artist.value)) else None
  }

  /** The group-by key on Playlist, which is never null. */
  function PlaylistOf(row: Row): Option<string> {
    Some(row.playlist)
  }

  /** Followers as pandas sums them: a null contributes nothing. */
  function FollowersOrZero(row: Row): int {
    row.followers.GetOr(0)
  }

  function One(row: Row): int {
    1
  }

  function AddIndicator(row: Row): int {
    if IsAdd(row) then 1 else 0
  }

  /** The distinct songs of the table, in order of first appearance. */
  function Songs(rows: seq<Row>): seq<Song> {
    Groups(rows, SongOf)
  }

  /** The distinct playlists of the table, in order of first appearance. */
  function Playlists(rows: seq<Row>): seq<string> {
    Groups(rows, PlaylistOf)
  }

  /** A song's reach: the summed followers of the playlists that added it. */
  function Reach(rows: seq<Row>, s: Song): int {
    Total(rows, SongOf, FollowersOrZero, s)
  }

  /** How many playlists added the song: the size of its group. */
  function AddCount(rows: seq<Row>, s: Song): int {
    Total(rows, SongOf, One, s)
  }

  /** The number of adds among the rows of a playlist. */
  function AddsTo(rows: seq<Row>, p: string): int {
    Total(rows, PlaylistOf, AddIndicator, p)
  }

  /** The number of add rows in the table. */
  function AddRowCount(rows: seq<Row>): nat
    decreases |rows|
  {
    if rows == [] then 0
    else AddRowCount(rows[..|rows| - 1]) + (if IsAdd(rows[|rows| - 1]) then 1 else 0)
  }

  /** The summed followers of the add rows. */
  function AddFollowers(rows: seq<Row>): int
    decreases |rows|
  {
    if rows == [] then 0
    else AddFollowers(rows[..|rows| - 1]) + (if IsAdd(rows[|rows| - 1]) then FollowersOrZero(rows[|rows| - 1]) else 0)
  }

  lemma {:induction false} KeyedFollowersAreAddFollowers(rows: seq<Row>)
    ensures KeyedTotal(rows, SongOf, FollowersOrZero) == AddFollowers(rows)
    decreases |rows|
  {
    if rows != [] {
      KeyedFollowersAreAddFollowers(rows[..|rows| - 1]);
    }
  }

  /** Grouping by song neither loses nor double-counts followers: the
      reaches of all songs add up to the followers of all add rows. */
  lemma ReachesAddUp(rows: seq<Row>)
    ensures SumOfTotals(rows, SongOf, FollowersOrZero, Songs(rows)) == AddFollowers(rows)
  {
    TotalsPartitionKeyedRows(rows, SongOf, FollowersOrZero);
    KeyedFollowersAreAddFollowers(rows);
  }

  /** The leaderboard text for a song: `Artist - 'Title'`. */
  function LeaderLabel(s: Song): string {
    s.artist + " - '" + s.title + "'"
  }

  /** The dropdown and chart text for a song: `Artist - Title`. */
  function ChoiceLabel(s: Song): string {
    s.artist + " - " + s.title
  }
}
