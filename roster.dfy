/** The session operations as value-returning updates of the two collections:
    each function gives the collection the operation stores with `setMoods`
    or `setContacts`. */
module Roster {
  import opened Seqs
  import opened Domain

  function OnDate(date: string): MoodEntry -> bool
  {
    (m: MoodEntry) => m.date == date
  }

  function OtherDate(date: string): MoodEntry -> bool
  {
    (m: MoodEntry) => m.date != date
  }

  function OtherId(id: int): Contact -> bool
  {
    (c: Contact) => c.id != id
  }

  function DistinctDates(a: MoodEntry, b: MoodEntry): bool { a.date != b.date }

  function DistinctIds(a: Contact, b: Contact): bool { a.id != b.id }

  /** At most one entry per date key. */
  predicate UniqueDates(moods: seq<MoodEntry>)
  {
    Pairwise(moods, DistinctDates)
  }

  /** No two contacts share an id. */
  predicate UniqueIds(contacts: seq<Contact>)
  {
    Pairwise(contacts, DistinctIds)
  }

  /** The moods `logMood` stores: the entries of other dates, then the new entry. */
  function ApplyMood(moods: seq<MoodEntry>, entry: MoodEntry): seq<MoodEntry>
  {
    Filter(moods, OtherDate(entry.date)) + [entry]
  }

  /** The contact `addContact` builds from the draft: `{ id, ...draft,
      lastContact: null, notes: '' }`. The name is stored untrimmed. */
  function NewContactRecord(draft: NewContact, id: int): Contact
  {
    Contact(id, draft.name, draft.relationship, draft.reconnectDays, None, "")
  }

  /** The contacts `addContact` leaves: unchanged for a blank name, otherwise
      the new contact appended. */
  function AppendContact(contacts: seq<Contact>, draft: NewContact, id: int): seq<Contact>
  {
    if IsBlank(draft.name) then contacts else contacts + [NewContactRecord(draft, id)]
  }

  /** `contacts.map(c => c.id === id ? { ...c, lastContact: now } : c)`. */
  function MarkContacted(contacts: seq<Contact>, id: int, now: int): (r: seq<Contact>)
    ensures |r| == |contacts|
    ensures forall i :: 0 <= i < |r| ==>
              r[i] == if contacts[i].id == id then contacts[i].(lastContact := Some(now)) else contacts[i]
  {
    if contacts == [] then []
    else
      var c := contacts[0];
      [if c.id == id then c.(lastContact := Some(now)) else c] + MarkContacted(contacts[1..], id, now)
  }

  /** `contacts.filter(c => c.id !== id)`. */
  function RemoveContact(contacts: seq<Contact>, id: int): seq<Contact>
  {
    Filter(contacts, OtherId(id))
  }

  // ---------------------------------------------------------------------------
  // logMood

  /** After logging, exactly one entry has the logged date: the last one. */
  lemma ApplyMoodUpserts(moods: seq<MoodEntry>, entry: MoodEntry)
    ensures var r := ApplyMood(moods, entry);
      |r| >= 1 && r[|r| - 1] == entry &&
      (forall i :: 0 <= i < |r| - 1 ==> r[i].date != entry.date) &&
      Filter(r, OnDate(entry.date)) == [entry]
  {
    var kept := Filter(moods, OtherDate(entry.date));
    var r := ApplyMood(moods, entry);
    forall i | 0 <= i < |r| - 1 ensures r[i].date != entry.date {
      assert r[i] in kept;
    }
    FilterConcat(kept, [entry], OnDate(entry.date));
    FilterNone(kept, OnDate(entry.date));
    FilterCons(entry, [], OnDate(entry.date));
  }

  /** Entries for other dates keep their values and relative order. */
  lemma {:induction false} ApplyMoodKeepsOtherDates(moods: seq<MoodEntry>, entry: MoodEntry, date: string)
    requires date != entry.date
    ensures Filter(ApplyMood(moods, entry), OnDate(date)) == Filter(moods, OnDate(date))
    ensures Filter(ApplyMood(moods, entry), OtherDate(entry.date)) == Filter(moods, OtherDate(entry.date))
  {
    var kept := Filter(moods, OtherDate(entry.date));
    FilterConcat(kept, [entry], OnDate(date));
    FilterCons(entry, [], OnDate(date));
    FilterConcat(kept, [entry], OtherDate(entry.date));
    FilterCons(entry, [], OtherDate(entry.date));
    FilterIdempotent(moods, OtherDate(entry.date));
    FilterOfFilter(moods, OtherDate(entry.date), OnDate(date));
  }

  lemma {:induction false} FilterOfFilter(moods: seq<MoodEntry>, g: MoodEntry -> bool, f: MoodEntry -> bool)
    requires forall m :: f(m) ==> g(m)
    ensures Filter(Filter(moods, g), f) == Filter(moods, f)
  {
    if moods != [] {
      FilterOfFilter(moods[1..], g, f);
      FilterCons(moods[0], moods[1..], g);
      assert moods == [moods[0]] + moods[1..];
      if g(moods[0]) {
        FilterCons(moods[0], Filter(moods[1..], g), f);
      }
    }
  }

  /** Logging twice on one day leaves only the second entry for it. */
  lemma ApplyMoodTwice(moods: seq<MoodEntry>, first: MoodEntry, second: MoodEntry)
    requires first.date == second.date
    ensures ApplyMood(ApplyMood(moods, first), second) == ApplyMood(moods, second)
  {
    var kept := Filter(moods, OtherDate(first.date));
    FilterConcat(kept, [first], OtherDate(first.date));
    FilterCons(first, [], OtherDate(first.date));
    FilterIdempotent(moods, OtherDate(first.date));
  }

  /** Logging keeps the one-entry-per-date invariant. */
  lemma ApplyMoodKeepsUniqueDates(moods: seq<MoodEntry>, entry: MoodEntry)
    requires UniqueDates(moods)
    ensures UniqueDates(ApplyMood(moods, entry))
  {
    var kept := Filter(moods, OtherDate(entry.date));
    FilterPairwise(moods, OtherDate(entry.date), DistinctDates);
    var r := ApplyMood(moods, entry);
    forall i, j | 0 <= i < j < |r| ensures DistinctDates(r[i], r[j]) {
      if j == |r| - 1 {
        assert r[i] in kept;
      } else {
        assert r[i] == kept[i] && r[j] == kept[j];
      }
    }
  }

  // ---------------------------------------------------------------------------
  // addContact

  /** A name that is all whitespace (or empty) adds nothing; any other name
      appends exactly one contact, never contacted and without notes, and
      leaves the existing contacts as they were. */
  lemma AppendContactAppends(contacts: seq<Contact>, draft: NewContact, id: int)
    ensures var r := AppendContact(contacts, draft, id);
      (r == contacts <==> forall i :: 0 <= i < |draft.name| ==> IsWhitespace(draft.name[i])) &&
      (r != contacts ==>
        |r| == |contacts| + 1 && r[..|contacts|] == contacts &&
        r[|contacts|].id == id && r[|contacts|].name == draft.name &&
        r[|contacts|].relationship == draft.relationship &&
        r[|contacts|].reconnectDays == draft.reconnectDays &&
        r[|contacts|].lastContact == None && r[|contacts|].notes == "")
  {
    BlankIffAllWhitespace(draft.name);
    if !IsBlank(draft.name) {
      assert |AppendContact(contacts, draft, id)| == |contacts| + 1;
    }
  }

  /** A fresh id keeps the ids unique. */
  lemma AppendContactKeepsUniqueIds(contacts: seq<Contact>, draft: NewContact, id: int)
    requires UniqueIds(contacts)
    requires forall c :: c in contacts ==> c.id != id
    ensures UniqueIds(AppendContact(contacts, draft, id))
  {
    var r := AppendContact(contacts, draft, id);
    forall i, j | 0 <= i < j < |r| ensures DistinctIds(r[i], r[j]) {
      if j == |contacts| {
        assert r[i] == contacts[i];
        assert contacts[i] in contacts;
      } else {
        assert r[i] == contacts[i] && r[j] == contacts[j];
      }
    }
  }

  // ---------------------------------------------------------------------------
  // updateLastContact

  /** Marking touches nothing but `lastContact`, and only of the matching ids;
      an id that matches no contact changes nothing. */
  lemma {:induction false} MarkContactedOnlyStamps(contacts: seq<Contact>, id: int, now: int)
    ensures var r := MarkContacted(contacts, id, now);
      (forall i :: 0 <= i < |r| ==>
        r[i].id == contacts[i].id && r[i].name == contacts[i].name &&
        r[i].relationship == contacts[i].relationship &&
        r[i].reconnectDays == contacts[i].reconnectDays && r[i].notes == contacts[i].notes &&
        r[i].lastContact == (if contacts[i].id == id then Some(now) else contacts[i].lastContact)) &&
      ((forall c :: c in contacts ==> c.id != id) ==> r == contacts)
  {
    var r := MarkContacted(contacts, id, now);
    if forall c :: c in contacts ==> c.id != id {
      forall i | 0 <= i < |r| ensures r[i] == contacts[i] {
        assert contacts[i] in contacts;
      }
    }
  }

  /** Marking keeps the ids unique. */
  lemma MarkContactedKeepsUniqueIds(contacts: seq<Contact>, id: int, now: int)
    requires UniqueIds(contacts)
    ensures UniqueIds(MarkContacted(contacts, id, now))
  {
  }

  // ---------------------------------------------------------------------------
  // deleteContact

  /** Deleting leaves exactly the contacts with another id, every copy of
      each, in their order; deleting the same id again is a no-op. */
  lemma DeleteContactRemoves(contacts: seq<Contact>, id: int)
    ensures var r := RemoveContact(contacts, id);
      (forall c :: c in r <==> c in contacts && c.id != id) &&
      (forall c: Contact :: multiset(r)[c] == if c.id == id then 0 else multiset(contacts)[c]) &&
      IsSubsequence(r, contacts) &&
      RemoveContact(r, id) == r &&
      ((forall c :: c in contacts ==> c.id != id) ==> r == contacts)
  {
    FilterIsSubsequence(contacts, OtherId(id));
    FilterIdempotent(contacts, OtherId(id));
    var r := RemoveContact(contacts, id);
    forall c | c in contacts && c.id != id ensures c in r {
      FilterKeeps(contacts, OtherId(id), c);
    }
    forall c: Contact ensures multiset(r)[c] == if c.id == id then 0 else multiset(contacts)[c] {
      FilterCounts(contacts, OtherId(id), c);
    }
    if forall c :: c in contacts ==> c.id != id {
      FilterAll(contacts, OtherId(id));
    }
  }

  /** Deleting keeps the ids unique. */
  lemma DeleteContactKeepsUniqueIds(contacts: seq<Contact>, id: int)
    requires UniqueIds(contacts)
    ensures UniqueIds(RemoveContact(contacts, id))
  {
    FilterPairwise(contacts, OtherId(id), DistinctIds);
  }
}
