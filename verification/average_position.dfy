/** The Highest Average Playlist Position metric: per (Title, Artist) the
    mean of the non-null positions, and every song at the lowest mean.
    Means are kept as exact fractions and compared by cross-multiplying. */
module AveragePosition {
  import opened Optional
  import opened Seqs
  import opened Sorting
  import opened GroupBy
  import opened Table
  import Leaderboards

  /** `sum / count`, with `count > 0` wherever a mean exists. */
  datatype Mean = Mean(sum: int, count: int)

  /** `a <= b` as fractions, for positive counts. */
  predicate MeanLe(a: Mean, b: Mean) {
    a.sum * b.count <= b.sum * a.count
  }

  /** `a == b` as fractions, for positive counts. */
  predicate SameMean(a: Mean, b: Mean) {
    a.sum * b.count == b.sum * a.count
  }

  lemma MulLe(x: int, y: int, k: int)
    requires x <= y && k >= 0
    ensures x * k <= y * k
  {
  }

  lemma MulCancel(x: int, y: int, k: int)
    requires x * k <= y * k && k > 0
    ensures x <= y
  {
  }

  lemma MeanLeTransitive(a: Mean, b: Mean, c: Mean)
    requires a.count > 0 && b.count > 0 && c.count > 0
    requires MeanLe(a, b) && MeanLe(b, c)
    ensures MeanLe(a, c)
  {
    MulLe(a.sum * b.count, b.sum * a.count, c.count);
    MulLe(b.sum * c.count, c.sum * b.count, a.count);
    assert a.sum * b.count * c.count <= b.sum * a.count * c.count;
    assert b.sum * a.count * c.count == b.sum * c.count * a.count;
    assert c.sum * b.count * a.count == (c.sum * a.count) * b.count;
    assert a.sum * b.count * c.count == (a.sum * c.count) * b.count;
    MulCancel(a.sum * c.count, c.sum * a.count, b.count);
  }

  function PositionOrZero(row: Row): int {
    row.position.GetOr(0)
  }

  function HasPosition(row: Row): int {
    if row.position.Some? then 1 else 0
  }

  /** The song's non-null positions: their sum and how many there are. */
  function MeanOf(rows: seq<Row>, s: Song): Mean {
    Mean(Total(rows, SongOf, PositionOrZero, s), Total(rows, SongOf, HasPosition, s))
  }

  /** A count of rows is never negative. */
  lemma {:induction false} PositionCountNonNegative(rows: seq<Row>, s: Song)
    ensures MeanOf(rows, s).count >= 0
    decreases |rows|
  {
    if rows != [] {
      PositionCountNonNegative(rows[..|rows| - 1], s);
    }
  }

  /** A song has a mean exactly when one of its adds has a position. */
  lemma {:induction false} HasMeanIffPositioned(rows: seq<Row>, s: Song)
    ensures MeanOf(rows, s).count > 0 <==>
      exists i :: 0 <= i < |rows| && SongOf(rows[i]) == Some(s) && rows[i].position.Some?
    decreases |rows|
  {
    if rows != [] {
      var prefix := rows[..|rows| - 1];
      HasMeanIffPositioned(prefix, s);
      PositionCountNonNegative(prefix, s);
      assert forall i :: 0 <= i < |prefix| ==> prefix[i] == rows[i];
      if MeanOf(rows, s).count > 0 && MeanOf(prefix, s).count == 0 {
        assert SongOf(rows[|rows| - 1]) == Some(s) && rows[|rows| - 1].position.Some?;
      }
    }
  }

  /** The songs with at least one position; pandas' mean of the others is
      NaN, which neither is the minimum nor equals it. */
  function Positioned(rows: seq<Row>, songs: seq<Song>): (r: seq<Song>)
    ensures forall s :: s in r <==> s in songs && MeanOf(rows, s).count > 0
    ensures Distinct(songs) ==> Distinct(r)
    decreases |songs|
  {
    if songs == [] then []
    else
      var rest := Positioned(rows, songs[1..]);
      assert forall s :: s in songs <==> s == songs[0] || s in songs[1..];
      if MeanOf(rows, songs[0]).count > 0 then [songs[0]] + rest else rest
  }

  /** The smallest mean among `songs`, each of which has one. */
  function MinMean(rows: seq<Row>, songs: seq<Song>): (m: Mean)
    requires |songs| > 0
    requires forall i :: 0 <= i < |songs| ==> MeanOf(rows, songs[i]).count > 0
    ensures exists i :: 0 <= i < |songs| && MeanOf(rows, songs[i]) == m
    ensures forall i :: 0 <= i < |songs| ==> MeanLe(m, MeanOf(rows, songs[i]))
    decreases |songs|
  {
    var first := MeanOf(rows, songs[0]);
    if |songs| == 1 then first
    else
      var rest := MinMean(rows, songs[1..]);
      if MeanLe(first, rest) then
        assert forall i :: 1 <= i < |songs| ==> MeanLe(first, MeanOf(rows, songs[i])) by {
          forall i | 1 <= i < |songs| ensures MeanLe(first, MeanOf(rows, songs[i])) {
            var j :| 0 <= j < |songs[1..]| && MeanOf(rows, songs[1..][j]) == rest;
            MeanLeTransitive(first, rest, MeanOf(rows, songs[i]));
          }
        }
        first
      else
        rest
  }

  /** The songs whose mean equals `m`, in their original order. */
  function AtMean(rows: seq<Row>, songs: seq<Song>, m: Mean): (r: seq<Song>)
    ensures forall s :: s in r <==> s in songs && SameMean(MeanOf(rows, s), m)
    ensures Distinct(songs) ==> Distinct(r)
    decreases |songs|
  {
    if songs == [] then []
    else
      var rest := AtMean(rows, songs[1..], m);
      assert forall s :: s in songs <==> s == songs[0] || s in songs[1..];
      if SameMean(MeanOf(rows, songs[0]), m) then [songs[0]] + rest else rest
  }

  /** The songs with a position whose mean equals `m`, each once. */
  function TopRated(rows: seq<Row>, m: Mean): seq<Song> {
    AtMean(rows, Positioned(rows, Songs(rows)), m)
  }

  /** The lowest mean, missing when no song has a position, and the sorted
      names of the songs at it. */
  datatype Board = Board(best: Option<Mean>, names: seq<string>)

  /** Every song with the lowest mean position, ties included. */
  function BestAveragePosition(rows: seq<Row>): (b: Board)
    ensures b.best.None? <==> forall s :: s in Songs(rows) ==> MeanOf(rows, s).count == 0
    ensures b.best.None? ==> b.names == []
    ensures b.best.Some? ==> b.best.value.count > 0
    ensures b.best.Some? ==> exists s :: s in Songs(rows) && MeanOf(rows, s) == b.best.value
    ensures b.best.Some? ==> forall s :: s in Songs(rows) && MeanOf(rows, s).count > 0 ==> MeanLe(b.best.value, MeanOf(rows, s))
    ensures b.best.Some? ==> forall s :: s in Songs(rows) && MeanOf(rows, s).count > 0 && SameMean(MeanOf(rows, s), b.best.value) ==>
              LeaderLabel(s) in b.names
    ensures b.best.Some? ==> forall n :: n in b.names ==>
              exists s :: s in Songs(rows) && MeanOf(rows, s).count > 0 && SameMean(MeanOf(rows, s), b.best.value) && LeaderLabel(s) == n
    ensures b.best.Some? ==> Distinct(TopRated(rows, b.best.value))
    ensures b.best.Some? ==> multiset(b.names) == multiset(Leaderboards.LeaderLabels(TopRated(rows, b.best.value)))
    ensures SortedBy(b.names, Codes)
  {
    var rated := Positioned(rows, Songs(rows));
    if rated == [] then
      assert forall s :: s in Songs(rows) ==> MeanOf(rows, s).count == 0 by {
        forall s | s in Songs(rows) ensures MeanOf(rows, s).count == 0 {
          PositionCountNonNegative(rows, s);
        }
      }
      Board(None, [])
    else
      var m := LowestMean(rows, rated);
      Board(Some(m), Leaderboards.SortedNames(TopRated(rows, m)))
  }

  /** The lowest mean among the songs that have one: attained by one of
      them and no higher than any of theirs. */
  function LowestMean(rows: seq<Row>, rated: seq<Song>): (m: Mean)
    requires rated == Positioned(rows, Songs(rows)) && rated != []
    ensures m.count > 0
    ensures exists s :: s in Songs(rows) && MeanOf(rows, s) == m
    ensures forall s :: s in Songs(rows) && MeanOf(rows, s).count > 0 ==> MeanLe(m, MeanOf(rows, s))
  {
    assert forall i :: 0 <= i < |rated| ==> MeanOf(rows, rated[i]).count > 0 by {
      forall i | 0 <= i < |rated| ensures MeanOf(rows, rated[i]).count > 0 {
        assert rated[i] in rated;
      }
    }
    var m := MinMean(rows, rated);
    assert forall s :: s in rated ==> MeanLe(m, MeanOf(rows, s)) by {
      forall s | s in rated ensures MeanLe(m, MeanOf(rows, s)) {
        var i :| 0 <= i < |rated| && rated[i] == s;
      }
    }
    m
  }
}
