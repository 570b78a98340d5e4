/** Worked examples of the page's views on small tables. */
module Scenarios {
  import opened Optional
  import opened Seqs
  import opened GroupBy
  import Sorting
  import opened Table
  import opened ReleaseDate
  import opened Leaderboards
  import opened Lookups
  import opened PlaylistStats

  lemma FirstSecondThird()
    ensures AddSuffixToDay(1) == "1st" && AddSuffixToDay(2) == "2nd" && AddSuffixToDay(3) == "3rd"
  {
    assert NatDigits(1) == "1" && NatDigits(2) == "2" && NatDigits(3) == "3";
  }

  lemma EleventhTwelfthThirteenth()
    ensures AddSuffixToDay(11) == "11th" && AddSuffixToDay(12) == "12th" && AddSuffixToDay(13) == "13th"
  {
    assert NatDigits(11) == "11" by { assert NatDigits(1) == "1"; }
    assert NatDigits(12) == "12" by { assert NatDigits(1) == "1"; }
    assert NatDigits(13) == "13" by { assert NatDigits(1) == "1"; }
  }

  lemma SpelledOut(day: int)
    ensures AddSuffixToDay(day) == Decimal(day) + Suffix(day)
  {
  }

  lemma TwentiesByLastDigit()
    ensures AddSuffixToDay(21) == "21st" && AddSuffixToDay(22) == "22nd" && AddSuffixToDay(23) == "23rd"
  {
    SpelledOut(21);
    SpelledOut(22);
    SpelledOut(23);
    assert NatDigits(2) == "2";
    assert Decimal(21) == "21" && Decimal(22) == "22" && Decimal(23) == "23";
  }

  lemma FridayExamples()
    ensures DaysToSubtract(Friday) == 0
    ensures DaysToSubtract(0) == 3
    ensures DaysToSubtract(3) == 6
    ensures DaysToSubtract(6) == 2
  {
  }

  function AddRow(playlist: string, title: string, artist: string, followers: int): Row {
    Row(playlist, Some(title), Some(artist), None, Some(followers), None, None)
  }

  function TwoAdds(): seq<Row> {
    [AddRow("P1", "A", "X", 100), AddRow("P2", "A", "X", 50)]
  }

  /** A table whose adds are all of one song has that single song. */
  lemma OneSongTable(rows: seq<Row>, song: Song)
    requires |rows| > 0
    requires forall k :: 0 <= k < |rows| ==> SongOf(rows[k]) == Some(song)
    ensures Songs(rows) == [song]
  {
    var songs := Songs(rows);
    assert SongOf(rows[0]).value in songs;
    assert forall i :: 0 <= i < |songs| ==> songs[i] == song;
    if |songs| >= 2 {
      NoTwoEqual(songs, 0, 1);
    }
  }

  lemma NoTwoEqual<T>(xs: seq<T>, i: nat, j: nat)
    requires Distinct(xs) && i < j < |xs|
    ensures xs[i] != xs[j]
  {
  }

  lemma TwoAddsOneSong()
    ensures Songs(TwoAdds()) == [Song("A", "X")]
  {
    OneSongTable(TwoAdds(), Song("A", "X"));
  }

  lemma TwoAddsReach()
    ensures Reach(TwoAdds(), Song("A", "X")) == 150
  {
    var rows, song := TwoAdds(), Song("A", "X");
    assert rows[..1] == [rows[0]] && rows[..1][..0] == [];
    assert Total(rows[..1], SongOf, FollowersOrZero, song) == 100;
  }

  lemma SingleSongLeads(song: Song, score: Song -> int)
    ensures Leaders([song], score) == Leaderboard(Some(score(song)), [LeaderLabel(song)])
  {
    assert AtScore([song], score, score(song)) == [song];
    assert LeaderLabels([song]) == [LeaderLabel(song)];
    assert Sorting.SortBy([LeaderLabel(song)], Sorting.Codes) == [LeaderLabel(song)];
  }

  lemma HighestReachRanksSongs(rows: seq<Row>)
    ensures HighestReach(rows) == Leaders(Songs(rows), ReachScore(rows))
  {
  }

  /** One song added to two playlists: its reach is the sum of both. */
  lemma ReachScenario()
    ensures HighestReach(TwoAdds()) == Leaderboard(Some(150), ["X - 'A'"])
  {
    var rows, song := TwoAdds(), Song("A", "X");
    var score := ReachScore(rows);
    TwoAddsOneSong();
    TwoAddsReach();
    assert score(song) == 150;
    assert LeaderLabel(song) == "X - 'A'";
    HighestReachRanksSongs(rows);
    SingleSongLeads(song, score);
  }

  function QuietPlaylist(): seq<Row> {
    [Row("P3", None, None, None, Some(10), None, None)]
  }

  /** A playlist with no adds this week shows the message instead of a
      table. */
  lemma EmptyPlaylistMessage()
    ensures PlaylistLookup(QuietPlaylist(), "P3") == NoNewReleases
  {
  }

  /** A table holding a single playlist draws a single bar for it. */
  lemma OnePlaylistOneBar(rows: seq<Row>, p: string)
    requires |rows| > 0
    requires forall k :: 0 <= k < |rows| ==> rows[k].playlist == p
    ensures AddsPerPlaylist(rows) == [PlaylistAdds(p, AddsTo(rows, p))]
  {
    var r := AddsPerPlaylist(rows);
    assert exists i :: 0 <= i < |r| && r[i].playlist == rows[0].playlist;
    assert forall i :: 0 <= i < |r| ==> r[i].playlist == p;
  }

  /** A playlist with no adds this week still gets a bar, of length 0. */
  lemma EmptyPlaylistBar()
    ensures AddsPerPlaylist(QuietPlaylist()) == [PlaylistAdds("P3", 0)]
  {
    var rows := QuietPlaylist();
    OnePlaylistOneBar(rows, "P3");
    assert rows[..0] == [];
    assert AddsTo(rows, "P3") == 0;
  }
}
