/** The Highest Reach and Most Added metrics: every song at the best score,
    ties kept, shown as `Artist - 'Title'` in ascending string order. */
module Leaderboards {
  import opened Optional
  import opened Seqs
  import opened Sorting
  import opened GroupBy
  import opened Table

  /** The best score, missing when there is no song, and the sorted names
      of the songs that reach it. */
  datatype Leaderboard = Leaderboard(best: Option<int>, names: seq<string>)

  /** The highest score among `songs`. */
  function MaxScore(songs: seq<Song>, score: Song -> int): (m: int)
    requires |songs| > 0
    ensures exists i :: 0 <= i < |songs| && score(songs[i]) == m
    ensures forall i :: 0 <= i < |songs| ==> score(songs[i]) <= m
    decreases |songs|
  {
    if |songs| == 1 then score(songs[0])
    else
      var rest := MaxScore(songs[1..], score);
      if score(songs[0]) >= rest then score(songs[0]) else rest
  }

  /** The songs whose score is `v`, in their original order. */
  function AtScore(songs: seq<Song>, score: Song -> int, v: int): (r: seq<Song>)
    ensures forall s :: s in r <==> s in songs && score(s) == v
    ensures Distinct(songs) ==> Distinct(r)
    decreases |songs|
  {
    if songs == [] then []
    else
      var rest := AtScore(songs[1..], score, v);
      assert forall s :: s in songs <==> s == songs[0] || s in songs[1..];
      if score(songs[0]) == v then [songs[0]] + rest else rest
  }

  function LeaderLabels(songs: seq<Song>): (r: seq<string>)
    ensures |r| == |songs|
    ensures forall i :: 0 <= i < |songs| ==> r[i] == LeaderLabel(songs[i])
  {
    seq(|songs|, i requires 0 <= i < |songs| => LeaderLabel(songs[i]))
  }

  /** The sorted names of `songs`: one name per song, so a name shared by
      two songs appears twice. */
  function SortedNames(songs: seq<Song>): (names: seq<string>)
    ensures |names| == |songs|
    ensures multiset(names) == multiset(LeaderLabels(songs))
    ensures forall s :: s in songs ==> LeaderLabel(s) in names
    ensures forall n :: n in names ==> exists s :: s in songs && LeaderLabel(s) == n
    ensures SortedBy(names, Codes)
  {
    var labels := LeaderLabels(songs);
    var names := SortBy(labels, Codes);
    LabelsSurvive(songs, labels, names);
    names
  }

  lemma LabelsSurvive(songs: seq<Song>, labels: seq<string>, names: seq<string>)
    requires labels == LeaderLabels(songs)
    requires multiset(names) == multiset(labels)
    ensures forall s :: s in songs ==> LeaderLabel(s) in names
    ensures forall n :: n in names ==> exists s :: s in songs && LeaderLabel(s) == n
  {
    forall s | s in songs ensures LeaderLabel(s) in names {
      var i :| 0 <= i < |songs| && songs[i] == s;
      assert labels[i] in multiset(labels);
    }
    forall n | n in names ensures exists s :: s in songs && LeaderLabel(s) == n {
      assert n in multiset(labels);
      var i :| 0 <= i < |labels| && labels[i] == n;
      assert songs[i] in songs;
    }
  }

  /** All songs at the maximum score, ties included, their names sorted. */
  function Leaders(songs: seq<Song>, score: Song -> int): (b: Leaderboard)
    ensures b.best.None? <==> songs == []
    ensures b.best.None? ==> b.names == []
    ensures b.best.Some? ==> forall s :: s in songs ==> score(s) <= b.best.value
    ensures b.best.Some? ==> exists s :: s in songs && score(s) == b.best.value
    ensures forall s :: s in songs && b.best == Some(score(s)) ==> LeaderLabel(s) in b.names
    ensures forall n :: n in b.names ==> exists s :: s in songs && b.best == Some(score(s)) && LeaderLabel(s) == n
    ensures b.best.Some? ==> |b.names| == |AtScore(songs, score, b.best.value)|
    ensures b.best.Some? ==> multiset(b.names) == multiset(LeaderLabels(AtScore(songs, score, b.best.value)))
    ensures SortedBy(b.names, Codes)
  {
    if songs == [] then Leaderboard(None, [])
    else
      var m := MaxScore(songs, score);
      Leaderboard(Some(m), SortedNames(AtScore(songs, score, m)))
  }

  function ReachScore(rows: seq<Row>): Song -> int {
    s => Reach(rows, s)
  }

  function AddCountScore(rows: seq<Row>): Song -> int {
    s => AddCount(rows, s)
  }

  /** Highest Reach: summed followers per (Title, Artist); every song at
      the maximum is listed. */
  function HighestReach(rows: seq<Row>): (b: Leaderboard)
    ensures b.best.None? <==> forall i :: 0 <= i < |rows| ==> !IsAdd(rows[i])
    ensures b.best.None? ==> b.names == []
    ensures b.best.Some? ==> forall s :: s in Songs(rows) ==> Reach(rows, s) <= b.best.value
    ensures b.best.Some? ==> exists s :: s in Songs(rows) && Reach(rows, s) == b.best.value
    ensures forall s :: s in Songs(rows) && b.best == Some(Reach(rows, s)) ==> LeaderLabel(s) in b.names
    ensures forall n :: n in b.names ==> exists s :: s in Songs(rows) && b.best == Some(Reach(rows, s)) && LeaderLabel(s) == n
    ensures b.best.Some? ==> |b.names| == |AtScore(Songs(rows), ReachScore(rows), b.best.value)|
    ensures b.best.Some? ==> multiset(b.names) == multiset(LeaderLabels(AtScore(Songs(rows), ReachScore(rows), b.best.value)))
    ensures SortedBy(b.names, Codes)
  {
    var songs := Songs(rows);
    assert songs == [] <==> forall i :: 0 <= i < |rows| ==> !IsAdd(rows[i]) by {
      if songs != [] {
        var i :| 0 <= i < |rows| && SongOf(rows[i]) == Some(songs[0]);
      }
    }
    Leaders(songs, ReachScore(rows))
  }

  /** Most Added: number of adds per (Title, Artist); every song at the
      maximum is listed. */
  function MostAdded(rows: seq<Row>): (b: Leaderboard)
    ensures b.best.None? <==> forall i :: 0 <= i < |rows| ==> !IsAdd(rows[i])
    ensures b.best.None? ==> b.names == []
    ensures b.best.Some? ==> forall s :: s in Songs(rows) ==> AddCount(rows, s) <= b.best.value
    ensures b.best.Some? ==> exists s :: s in Songs(rows) && AddCount(rows, s) == b.best.value
    ensures forall s :: s in Songs(rows) && b.best == Some(AddCount(rows, s)) ==> LeaderLabel(s) in b.names
    ensures forall n :: n in b.names ==> exists s :: s in Songs(rows) && b.best == Some(AddCount(rows, s)) && LeaderLabel(s) == n
    ensures b.best.Some? ==> |b.names| == |AtScore(Songs(rows), AddCountScore(rows), b.best.value)|
    ensures b.best.Some? ==> multiset(b.names) == multiset(LeaderLabels(AtScore(Songs(rows), AddCountScore(rows), b.best.value)))
    ensures SortedBy(b.names, Codes)
  {
    var songs := Songs(rows);
    assert songs == [] <==> forall i :: 0 <= i < |rows| ==> !IsAdd(rows[i]) by {
      if songs != [] {
        var i :| 0 <= i < |rows| && SongOf(rows[i]) == Some(songs[0]);
      }
    }
    Leaders(songs, AddCountScore(rows))
  }
}
