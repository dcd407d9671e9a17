/** The state of the `App` component that the engine works on, and the
    operations that replace it. Persistence after each operation is left out. */
module Session {
  import opened Seqs
  import opened Domain
  import opened Roster
  import opened Engine

  /** `moods`, `contacts` and `todayMood`, the component state the session
      operations replace with `setMoods`, `setContacts` and `setTodayMood`. */
  class MoodSession {
    var moods: seq<MoodEntry>
    var contacts: seq<Contact>
    var todayMood: Option<int>

    /** One entry per date key, one contact per id. */
    predicate Valid()
      reads this
    {
      UniqueDates(moods) && UniqueIds(contacts)
    }

    /** The state before anything is loaded: `useState([])`, `useState(null)`. */
    constructor ()
      ensures moods == [] && contacts == [] && todayMood == None
      ensures Valid()
    {
      moods := [];
      contacts := [];
      todayMood := None;
    }

    /** `logMood`: drops any entry dated `today`, pushes the new one, and sets
        today's mood. */
    method LogMood(value: int, today: string, timestamp: int)
      requires 1 <= value <= 5
      modifies this
      ensures moods == ApplyMood(old(moods), MoodEntry(today, value, timestamp))
      ensures contacts == old(contacts)
      ensures todayMood == Some(value) && todayMood == TodayMood(moods, today)
      ensures old(Valid()) ==> Valid()
    {
      ghost var before := moods;
      var entry := MoodEntry(today, value, timestamp);
      var updated := Filter(moods, OtherDate(today));
      updated := updated + [entry];
      moods := updated;
      todayMood := Some(value);
      TodayMoodAfterLog(before, entry, today);
      if UniqueDates(before) {
        ApplyMoodKeepsUniqueDates(before, entry);
      }
    }

    /** `addContact`: a blank name does nothing; otherwise the draft becomes a
        contact with the given id, appended to the list. */
    method AddContact(draft: NewContact, id: int) returns (added: bool)
      modifies this
      ensures added <==> !IsBlank(draft.name)
      ensures contacts == AppendContact(old(contacts), draft, id)
      ensures moods == old(moods) && todayMood == old(todayMood)
      ensures old(Valid()) && (forall c :: c in old(contacts) ==> c.id != id) ==> Valid()
    {
      if IsBlank(draft.name) {
        return false;
      }
      ghost var before := contacts;
      var contact := NewContactRecord(draft, id);
      contacts := contacts + [contact];
      added := true;
      if UniqueIds(before) && forall c :: c in before ==> c.id != id {
        AppendContactKeepsUniqueIds(before, draft, id);
      }
    }

    /** `updateLastContact`: stamps `now` on the contacts with the given id. */
    method UpdateLastContact(id: int, now: int)
      modifies this
      ensures contacts == MarkContacted(old(contacts), id, now)
      ensures moods == old(moods) && todayMood == old(todayMood)
      ensures old(Valid()) ==> Valid()
    {
      ghost var before := contacts;
      contacts := MarkContacted(contacts, id, now);
      if UniqueIds(before) {
        MarkContactedKeepsUniqueIds(before, id, now);
      }
    }

    /** `deleteContact`: keeps the contacts with another id. */
    method DeleteContact(id: int)
      modifies this
      ensures contacts == RemoveContact(old(contacts), id)
      ensures moods == old(moods) && todayMood == old(todayMood)
      ensures old(Valid()) ==> Valid()
    {
      ghost var before := contacts;
      contacts := RemoveContact(contacts, id);
      if UniqueIds(before) {
        DeleteContactKeepsUniqueIds(before, id);
      }
    }

    /** The effect that runs whenever `moods` changes: today's mood is the
        value of the entry dated `today`, or null. */
    method RefreshTodayMood(today: string)
      modifies this`todayMood
      ensures todayMood == TodayMood(moods, today)
    {
      var found := Find(moods, OnDate(today));
      todayMood := if found.Some? then Some(found.value.value) else None;
    }
  }
}
