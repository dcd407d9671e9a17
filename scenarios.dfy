/** Worked cases of the engine's rules on small literal fixtures. */
module Scenarios {
  import opened Seqs
  import opened Domain
  import opened Roster
  import opened Ranking
  import opened Engine

  const Now: int := 1_700_000_000_000

  /** Whole days back from `Now` give that many days since contact. */
  lemma DaysBack(n: nat)
    ensures DaysSince(Some(Now - n * MsPerDay), Now) == Finite(n)
  {
    var d := DaysSince(Some(Now - n * MsPerDay), Now);
    assert Abs(Now - (Now - n * MsPerDay)) == n * MsPerDay;
    assert (d.days - 1) * MsPerDay < n * MsPerDay <= d.days * MsPerDay;
  }

  /** Contacted 10 days ago, cadence 7; contacted 40 days ago, cadence 14;
      never contacted, cadence 7: C, then B, then A. */
  lemma ReconnectMostOverdueFirst()
    ensures var a := Contact(1, "A", "family", 7, Some(Now - 10 * MsPerDay), "");
      var b := Contact(2, "B", "friend", 14, Some(Now - 40 * MsPerDay), "");
      var c := Contact(3, "C", "family", 7, None, "");
      ReconnectSuggestions([a, b, c], Now) ==
        [Ranked(c, Infinite), Ranked(b, Finite(40)), Ranked(a, Finite(10))]
  {
    var a := Contact(1, "A", "family", 7, Some(Now - 10 * MsPerDay), "");
    var b := Contact(2, "B", "friend", 14, Some(Now - 40 * MsPerDay), "");
    var c := Contact(3, "C", "family", 7, None, "");
    var ra, rb, rc := Ranked(a, Finite(10)), Ranked(b, Finite(40)), Ranked(c, Infinite);
    AllThreeOverdue(a, b, c);
    SortThree(ra, rb, rc);
  }

  lemma AllThreeOverdue(a: Contact, b: Contact, c: Contact)
    requires a == Contact(1, "A", "family", 7, Some(Now - 10 * MsPerDay), "")
    requires b == Contact(2, "B", "friend", 14, Some(Now - 40 * MsPerDay), "")
    requires c == Contact(3, "C", "family", 7, None, "")
    ensures Overdue([a, b, c], Now) == [Ranked(a, Finite(10)), Ranked(b, Finite(40)), Ranked(c, Infinite)]
  {
    var ra, rb, rc := Ranked(a, Finite(10)), Ranked(b, Finite(40)), Ranked(c, Infinite);
    AnnotateThree(a, b, c, ra, rb, rc);
    FilterCons(ra, [rb, rc], IsOverdue);
    FilterCons(rb, [rc], IsOverdue);
    FilterCons(rc, [], IsOverdue);
  }

  lemma AnnotateThree(a: Contact, b: Contact, c: Contact, ra: Ranked, rb: Ranked, rc: Ranked)
    requires a.lastContact == Some(Now - 10 * MsPerDay) && ra == Ranked(a, Finite(10))
    requires b.lastContact == Some(Now - 40 * MsPerDay) && rb == Ranked(b, Finite(40))
    requires c.lastContact == None && rc == Ranked(c, Infinite)
    ensures Annotate([a, b, c], Now) == [ra, rb, rc]
  {
    DaysBack(10);
    DaysBack(40);
    var annotated := Annotate([a, b, c], Now);
    assert annotated[0] == ra && annotated[1] == rb && annotated[2] == rc;
  }

  lemma SortThree(ra: Ranked, rb: Ranked, rc: Ranked)
    requires ra.daysSince == Finite(10) && rb.daysSince == Finite(40) && rc.daysSince == Infinite
    ensures SortByStaleness([ra, rb, rc]) == [rc, rb, ra]
  {
    assert [ra, rb, rc][1..] == [rb, rc];
    assert [rb, rc][1..] == [rc];
    assert SortByStaleness([rc]) == [rc];
    assert SortByStaleness([rb, rc]) == Insert(rb, [rc]) == [rc, rb];
    assert Insert(ra, [rb]) == [rb, ra];
    assert Insert(ra, [rc, rb]) == [rc] + Insert(ra, [rb]);
  }

  /** A contact exactly at its cadence is due: 14 days since contact against 14. */
  lemma ReconnectBoundaryInclusive()
    ensures var d := Contact(4, "D", "friend", 14, Some(Now - 14 * MsPerDay), "");
      ReconnectSuggestions([d], Now) == [Ranked(d, Finite(14))]
  {
    var d := Contact(4, "D", "friend", 14, Some(Now - 14 * MsPerDay), "");
    var rd := Ranked(d, Finite(14));
    DaysBack(14);
    assert Annotate([d], Now) == [rd];
    FilterCons(rd, [], IsOverdue);
    assert Overdue([d], Now) == [rd];
    assert SortByStaleness([rd]) == [rd];
  }

  /** Nine entries logged 5,5,5,5,5,1,1,1,1: the window is the last seven,
      5,5,5,1,1,1,1, with mean 19/7. */
  lemma RollingAverageOfLastSeven()
    ensures var moods := [
        MoodEntry("2024-05-01", 5, 1), MoodEntry("2024-05-02", 5, 2), MoodEntry("2024-05-03", 5, 3),
        MoodEntry("2024-05-04", 5, 4), MoodEntry("2024-05-05", 5, 5), MoodEntry("2024-05-06", 1, 6),
        MoodEntry("2024-05-07", 1, 7), MoodEntry("2024-05-08", 1, 8), MoodEntry("2024-05-09", 1, 9)];
      MoodStatsOf(moods) == MoodStats(9, 19.0 / 7.0, 1)
  {
    var moods := [
        MoodEntry("2024-05-01", 5, 1), MoodEntry("2024-05-02", 5, 2), MoodEntry("2024-05-03", 5, 3),
        MoodEntry("2024-05-04", 5, 4), MoodEntry("2024-05-05", 5, 5), MoodEntry("2024-05-06", 1, 6),
        MoodEntry("2024-05-07", 1, 7), MoodEntry("2024-05-08", 1, 8), MoodEntry("2024-05-09", 1, 9)];
    var w := LastWeek(moods);
    assert w == moods[2..];
    assert SumValues(w[..1]) == 5 by { assert w[..1][..0] == []; }
    assert SumValues(w[..2]) == 10 by { assert w[..2][..1] == w[..1]; }
    assert SumValues(w[..3]) == 15 by { assert w[..3][..2] == w[..2]; }
    assert SumValues(w[..4]) == 16 by { assert w[..4][..3] == w[..3]; }
    assert SumValues(w[..5]) == 17 by { assert w[..5][..4] == w[..4]; }
    assert SumValues(w[..6]) == 18 by { assert w[..6][..5] == w[..5]; }
    assert SumValues(w) == 19 by { assert w[..6] == w[..|w| - 1]; }
  }

  /** Mood 3 then mood 5 on one day: one entry for the day, valued 5. */
  lemma LogTwiceSameDay(moods: seq<MoodEntry>)
    ensures var r := ApplyMood(ApplyMood(moods, MoodEntry("2024-05-01", 3, 1)), MoodEntry("2024-05-01", 5, 2));
      Filter(r, OnDate("2024-05-01")) == [MoodEntry("2024-05-01", 5, 2)] &&
      TodayMood(r, "2024-05-01") == Some(5)
  {
    ApplyMoodTwice(moods, MoodEntry("2024-05-01", 3, 1), MoodEntry("2024-05-01", 5, 2));
    ApplyMoodUpserts(moods, MoodEntry("2024-05-01", 5, 2));
    TodayMoodAfterLog(moods, MoodEntry("2024-05-01", 5, 2), "2024-05-01");
  }
}
