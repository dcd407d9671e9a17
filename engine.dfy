/** The read-only queries over `(moods, contacts, now)`: days since contact,
    today's mood, suggested contacts, reconnect suggestions and mood stats. */
module Engine {
  import opened Seqs
  import opened Domain
  import opened Roster
  import opened Ranking

  function Abs(x: int): nat { if x < 0 then -x else x }

  /** `Math.ceil(ms / MsPerDay)` for a non-negative duration `ms`: the fewest
      whole days that cover it. */
  function CeilDays(ms: nat): (d: nat)
    ensures ms <= d * MsPerDay
    ensures (d - 1) * MsPerDay < ms
  {
    (ms + MsPerDay - 1) / MsPerDay
  }

  /** `getDaysSinceContact`: Infinity for a contact never made, otherwise the
      absolute time between the two instants rounded up to whole days. */
  function DaysSince(lastContact: Option<int>, now: int): (r: Staleness)
    ensures r.Infinite? <==> lastContact.None?
    ensures r.Finite? ==>
      (r.days - 1) * MsPerDay < Abs(now - lastContact.value) <= r.days * MsPerDay
    ensures r == Finite(0) <==> lastContact == Some(now)
  {
    match lastContact
    case None => Infinite
    case Some(last) => Finite(CeilDays(Abs(now - last)))
  }

  // ---------------------------------------------------------------------------
  // Today's mood

  /** The effect on `moods`: the value of the first entry dated `today`, or null. */
  function TodayMood(moods: seq<MoodEntry>, today: string): (r: Option<int>)
    ensures r.None? <==> forall m :: m in moods ==> m.date != today
    ensures r.Some? ==>
      exists i :: 0 <= i < |moods| && moods[i].date == today && moods[i].value == r.value &&
        (forall j :: 0 <= j < i ==> moods[j].date != today)
  {
    match Find(moods, OnDate(today))
    case None => None
    case Some(entry) => Some(entry.value)
  }

  /** After logging `v` for a day, that day's mood is `v`; the mood of every
      other day is what it was. */
  lemma TodayMoodAfterLog(moods: seq<MoodEntry>, entry: MoodEntry, today: string)
    ensures TodayMood(ApplyMood(moods, entry), today) ==
      if today == entry.date then Some(entry.value) else TodayMood(moods, today)
  {
    var kept := Filter(moods, OtherDate(entry.date));
    FindAppend(kept, entry, OnDate(today));
    if today != entry.date {
      FindAfterFilter(moods, OtherDate(entry.date), OnDate(today));
    }
  }

  // ---------------------------------------------------------------------------
  // Suggested contacts

  /** `getSuggestedContacts`: nothing without a mood for today; for a mood of 2
      or less, the first three family or close-friend contacts; otherwise the
      first three contacts. */
  function SuggestedContacts(moods: seq<MoodEntry>, contacts: seq<Contact>, today: string): seq<Contact>
  {
    match Find(moods, OnDate(today))
    case None => []
    case Some(entry) =>
      if entry.value <= 2 then Take(Filter(contacts, IsClose), 3)
      else if entry.value >= 4 then Take(contacts, 3)
      else Take(contacts, 3)
  }

  /** No suggestions without a mood logged for today. */
  lemma SuggestedNeedsTodayMood(moods: seq<MoodEntry>, contacts: seq<Contact>, today: string)
    ensures TodayMood(moods, today).None? ==> SuggestedContacts(moods, contacts, today) == []
    ensures SuggestedContacts(moods, contacts, today) != [] ==> contacts != []
  {
  }

  /** At most three suggestions, taken in list order from the contacts. */
  lemma SuggestedIsShortSubsequence(moods: seq<MoodEntry>, contacts: seq<Contact>, today: string)
    ensures |SuggestedContacts(moods, contacts, today)| <= 3
    ensures IsSubsequence(SuggestedContacts(moods, contacts, today), contacts)
  {
    var r := SuggestedContacts(moods, contacts, today);
    match Find(moods, OnDate(today))
    case None =>
    case Some(entry) =>
      if entry.value <= 2 {
        var close := Filter(contacts, IsClose);
        PrefixIsSubsequence(r, close);
        FilterIsSubsequence(contacts, IsClose);
        SubsequenceTransitive(r, close, contacts);
      } else {
        PrefixIsSubsequence(r, contacts);
      }
  }

  /** A mood of 2 or less suggests only family and close friends: the first
      of them in list order, as many as there are up to three. */
  lemma SuggestedLowMood(moods: seq<MoodEntry>, contacts: seq<Contact>, today: string)
    requires TodayMood(moods, today).Some? && TodayMood(moods, today).value <= 2
    ensures var r := SuggestedContacts(moods, contacts, today);
      var close := Filter(contacts, IsClose);
      (forall c :: c in r ==> c.relationship == "family" || c.relationship == "close-friend") &&
      r <= close && |r| == Min(3, |close|)
  {
    var r := SuggestedContacts(moods, contacts, today);
    var close := Filter(contacts, IsClose);
    assert r == Take(close, 3);
    forall c | c in r ensures IsClose(c) {
      assert c in close;
    }
  }

  /** A mood of 3 or more suggests the first three contacts, whatever their relationship. */
  lemma SuggestedOtherMood(moods: seq<MoodEntry>, contacts: seq<Contact>, today: string)
    requires TodayMood(moods, today).Some? && TodayMood(moods, today).value >= 3
    ensures SuggestedContacts(moods, contacts, today) == contacts[..Min(3, |contacts|)]
  {
  }

  // ---------------------------------------------------------------------------
  // Reconnect suggestions

  /** `contacts.map(c => ({ ...c, daysSince: getDaysSinceContact(c.lastContact) }))`. */
  function Annotate(contacts: seq<Contact>, now: int): (r: seq<Ranked>)
    ensures |r| == |contacts|
    ensures forall i :: 0 <= i < |r| ==>
              r[i].contact == contacts[i] && r[i].daysSince == DaysSince(contacts[i].lastContact, now)
  {
    if contacts == [] then []
    else [Ranked(contacts[0], DaysSince(contacts[0].lastContact, now))] + Annotate(contacts[1..], now)
  }

  /** `c.daysSince >= c.reconnectDays`. */
  predicate IsOverdue(x: Ranked)
  {
    Reaches(x.daysSince, x.contact.reconnectDays)
  }

  /** The overdue contacts with their staleness, in list order. */
  function Overdue(contacts: seq<Contact>, now: int): seq<Ranked>
  {
    Filter(Annotate(contacts, now), IsOverdue)
  }

  /** `getReconnectSuggestions`: the overdue contacts, most overdue first,
      ties in list order, at most five. */
  function ReconnectSuggestions(contacts: seq<Contact>, now: int): seq<Ranked>
  {
    Take(SortByStaleness(Overdue(contacts, now)), 5)
  }

  /** A contact is overdue exactly when its days since contact reach its
      cadence; the bound is inclusive, and a contact never made always is. */
  lemma OverdueIff(contacts: seq<Contact>, now: int, c: Contact, d: Staleness)
    ensures Ranked(c, d) in Overdue(contacts, now) <==>
      c in contacts && d == DaysSince(c.lastContact, now) &&
      (d.Infinite? || d.days >= c.reconnectDays)
  {
    var a := Annotate(contacts, now);
    if c in contacts && d == DaysSince(c.lastContact, now) && Reaches(d, c.reconnectDays) {
      var i :| 0 <= i < |contacts| && contacts[i] == c;
      assert a[i] == Ranked(c, d);
      FilterKeeps(a, IsOverdue, Ranked(c, d));
    }
    if Ranked(c, d) in Overdue(contacts, now) {
      var i :| 0 <= i < |a| && a[i] == Ranked(c, d);
      assert contacts[i] == c;
    }
  }

  /** At most five suggestions, each one an overdue contact of the list with
      its own days since contact. */
  lemma ReconnectAreOverdue(contacts: seq<Contact>, now: int)
    ensures var r := ReconnectSuggestions(contacts, now);
      |r| <= 5 &&
      forall x :: x in r ==>
        x.contact in contacts && x.daysSince == DaysSince(x.contact.lastContact, now) &&
        Reaches(x.daysSince, x.contact.reconnectDays)
  {
    var full := SortByStaleness(Overdue(contacts, now));
    SortPermutes(Overdue(contacts, now));
    forall x | x in ReconnectSuggestions(contacts, now)
      ensures x.contact in contacts && x.daysSince == DaysSince(x.contact.lastContact, now) &&
              Reaches(x.daysSince, x.contact.reconnectDays)
    {
      assert x in full;
      assert x in multiset(Overdue(contacts, now));
      OverdueIff(contacts, now, x.contact, x.daysSince);
    }
  }

  /** The suggestions are the first five of the whole sorted overdue list,
      most overdue first; contacts equally overdue keep their list order. */
  lemma ReconnectOrdered(contacts: seq<Contact>, now: int, k: Staleness)
    ensures var r := ReconnectSuggestions(contacts, now);
      var full := SortByStaleness(Overdue(contacts, now));
      r <= full && |r| == Min(5, |full|) &&
      NonIncreasing(r) &&
      Filter(r, WithStaleness(k)) <= Filter(Overdue(contacts, now), WithStaleness(k))
  {
    var full := SortByStaleness(Overdue(contacts, now));
    var r := ReconnectSuggestions(contacts, now);
    SortIsNonIncreasing(Overdue(contacts, now));
    forall i, j | 0 <= i < j < |r| ensures StaleFirst(r[i], r[j]) {
      assert r[i] == full[i] && r[j] == full[j];
    }
    FilterPrefix(r, full, WithStaleness(k));
    SortIsStable(Overdue(contacts, now), k);
  }

  /** A contact never made is always suggested for reconnection: whenever
      there is one, the list starts with one. */
  lemma NeverContactedFirst(contacts: seq<Contact>, now: int, c: Contact)
    requires c in contacts && c.lastContact.None?
    ensures Ranked(c, Infinite) in Overdue(contacts, now)
    ensures var r := ReconnectSuggestions(contacts, now); r != [] && r[0].daysSince == Infinite
  {
    OverdueIff(contacts, now, c, Infinite);
    var full := SortByStaleness(Overdue(contacts, now));
    SortPermutes(Overdue(contacts, now));
    SortIsNonIncreasing(Overdue(contacts, now));
    assert Ranked(c, Infinite) in multiset(full);
    var j :| 0 <= j < |full| && full[j] == Ranked(c, Infinite);
    if j > 0 {
      assert StaleFirst(full[0], full[j]);
    }
  }

  /** Marking a contact at `now` drops it from the suggestions at `now` when
      its cadence is at least one day. */
  lemma MarkedNotOverdue(contacts: seq<Contact>, id: int, now: int)
    ensures forall x :: (x in ReconnectSuggestions(MarkContacted(contacts, id, now), now) &&
      x.contact.id == id) ==> x.contact.reconnectDays <= 0
  {
    var marked := MarkContacted(contacts, id, now);
    ReconnectAreOverdue(marked, now);
    forall x | x in ReconnectSuggestions(marked, now) && x.contact.id == id
      ensures x.contact.reconnectDays <= 0
    {
      var i :| 0 <= i < |marked| && marked[i] == x.contact;
      assert x.contact.lastContact == Some(now);
    }
  }

  // ---------------------------------------------------------------------------
  // Mood stats

  /** `getMoodStats()`: `average` is the exact mean (its one-decimal rendering
      is left out) and `streak` the source's 0/1 placeholder. */
  datatype MoodStats = MoodStats(total: nat, average: real, streak: nat)

  /** `entries.reduce((sum, m) => sum + m.value, 0)`: summed in list order. */
  function SumValues(entries: seq<MoodEntry>): int
  {
    if entries == [] then 0 else SumValues(entries[..|entries| - 1]) + entries[|entries| - 1].value
  }

  /** `moods.slice(-7)`: the seven most recently appended entries. */
  function LastWeek(moods: seq<MoodEntry>): seq<MoodEntry>
  {
    TakeLast(moods, 7)
  }

  function MoodStatsOf(moods: seq<MoodEntry>): MoodStats
  {
    var window := LastWeek(moods);
    MoodStats(
      |moods|,
      if |window| > 0 then SumValues(window) as real / |window| as real else 0.0,
      if |moods| > 0 then 1 else 0)
  }

  /** The total counts every entry; the average is the mean of the last
      min(7, total) entries in append order, 0 for none; the streak is 1
      exactly when some mood was logged. */
  lemma MoodStatsMeaning(moods: seq<MoodEntry>)
    ensures var st := MoodStatsOf(moods);
      st.total == |moods| &&
      (st.streak == 1 <==> moods != []) && (st.streak == 0 <==> moods == []) &&
      (moods == [] ==> st.average == 0.0)
    ensures var n := Min(7, |moods|);
      |LastWeek(moods)| == n && LastWeek(moods) == moods[|moods| - n..]
    ensures moods != [] ==>
      MoodStatsOf(moods).average * (|LastWeek(moods)| as real) == SumValues(LastWeek(moods)) as real
  {
    if moods != [] {
      AverageIsMean(moods);
    }
  }

  lemma AverageIsMean(moods: seq<MoodEntry>)
    requires moods != []
    ensures MoodStatsOf(moods).average * (|LastWeek(moods)| as real) == SumValues(LastWeek(moods)) as real
  {
    var w := LastWeek(moods);
    var sum, count := SumValues(w) as real, |w| as real;
    assert MoodStatsOf(moods).average == sum / count;
    DivisionUndone(sum, count);
  }

  lemma DivisionUndone(s: real, n: real)
    requires n != 0.0
    ensures s / n * n == s
  {
  }

  /** A sum between n and 5n over n > 0 items means an average between 1 and 5. */
  lemma MeanBetween(s: real, n: real)
    requires n > 0.0 && n <= s <= 5.0 * n
    ensures 1.0 <= s / n <= 5.0
  {
    var a := s / n;
    DivisionUndone(s, n);
    FactorCancels(1.0, a, n);
    FactorCancels(a, 5.0, n);
  }

  lemma FactorCancels(a: real, b: real, n: real)
    requires n > 0.0 && a * n <= b * n
    ensures a <= b
  {
  }

  lemma {:induction false} SumValuesBounds(entries: seq<MoodEntry>)
    requires forall m :: m in entries ==> 1 <= m.value <= 5
    ensures |entries| <= SumValues(entries) <= 5 * |entries|
  {
    if entries != [] {
      var init := entries[..|entries| - 1];
      assert forall m :: m in init ==> m in entries;
      SumValuesBounds(init);
      assert entries[|entries| - 1] in entries;
    }
  }

  /** With every value on the 1..5 scale, the average is on it too. */
  lemma AverageOnScale(moods: seq<MoodEntry>)
    requires moods != []
    requires forall m :: m in moods ==> 1 <= m.value <= 5
    ensures 1.0 <= MoodStatsOf(moods).average <= 5.0
  {
    var window := LastWeek(moods);
    assert forall m :: m in window ==> m in moods;
    SumValuesBounds(window);
    MeanBetween(SumValues(window) as real, |window| as real);
  }

  /** Once seven entries exist, each new entry pushes the oldest out of the
      window, whatever dates they carry. */
  lemma LastWeekSlides(moods: seq<MoodEntry>, entry: MoodEntry)
    requires |moods| >= 7
    ensures LastWeek(moods + [entry]) == LastWeek(moods)[1..] + [entry]
  {
  }
}
