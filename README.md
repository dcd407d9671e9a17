# MoodConnect recommendation engine in Dafny

MoodConnect keeps a daily mood log and a list of contacts, and recommends whom
to reach out to. This project models the decision logic of its `App`
component (`moodconnect-vercel/src/App.jsx`):

- the four session operations that replace the component state (`logMood`,
  `addContact`, `updateLastContact`, `deleteContact`) and the effect that
  derives today's mood;
- the read-only queries over `(moods, contacts, now)`: days since contact,
  suggested contacts, reconnect suggestions and mood statistics;
- the relationship table and the default cadence the add-contact form fills
  in for a selected relationship.

Files, one module each:

- `seqs.dfy` (`Seqs`): `find`, `filter`, `slice(0, n)` and `slice(-n)`, with
  subsequence and prefix facts.
- `domain.dfy` (`Domain`): the entities `MoodEntry`, `Contact` and
  `NewContact` (the form draft), the relationship table, and
  `String.prototype.trim` over ECMAScript whitespace.
- `roster.dfy` (`Roster`): each session operation as a function from the old
  collection to the new one, with lemmas about upsert, append, stamp and
  delete.
- `ranking.dfy` (`Ranking`): days since contact as `Finite(n) | Infinite`,
  its order, and the stable sort that puts the most overdue first.
- `engine.dfy` (`Engine`): the queries and their lemmas.
- `session.dfy` (`Session`): class `MoodSession`. Its fields `moods`,
  `contacts` and `todayMood` are replaced by its methods, as `setMoods`,
  `setContacts` and `setTodayMood` do.
- `scenarios.dfy` (`Scenarios`): worked cases on literal fixtures.

Time is an integer count of milliseconds since the epoch. The clock reading
(`new Date()`, `Date.now()`) and the UTC date key (`toISOString().split('T')[0]`)
are parameters: `now`, `timestamp` and `today`. The id of a new contact is a
parameter too. In the source it is `Date.now()`.

The JavaScript values become these Dafny values:

- `Infinity` from `getDaysSinceContact` is `Infinite`. It is at least as
  large as every value, and two `Infinite` values tie. The comparator
  `b.daysSince - a.daysSince` gives NaN for Infinity − Infinity, and
  section 23.1.3.30.2 of ECMA-262 reads NaN as +0.
- `Array.prototype.sort` is stable (section 23.1.3.30 of ECMA-262). The
  model's sort is a stable insertion sort. `Ranking.StableSortIsUnique`
  proves that any stable sort with this comparator gives the same list.

Behaviour of the code worth noting:

- `logMood` does not check the mood value. The model requires 1..5,
  which the buttons built from `moodOptions` guarantee.
- The date key is the UTC date, not the local calendar day.
- The default cadence is filled in by the form's select handler, not by
  `addContact`.
- Of nine entries logged 5,5,5,5,5,1,1,1,1, `slice(-7)` keeps
  5,5,5,1,1,1,1, so the average is 19/7 ≈ 2.7
  (`Scenarios.RollingAverageOfLastSeven`).

## Model

| member | source | states |
|---|---|---|
| `Domain.DefaultReconnectDays` | moodconnect-vercel/src/App.jsx:528-533 | the cadence is the `days` of the first table row whose tag matches, 14 when no row matches, and always positive |
| `Domain.SelectRelationship` | moodconnect-vercel/src/App.jsx:526-534 | selecting a relationship keeps the name, sets the tag, and resets the cadence to that tag's positive default |
| `Domain.DefaultCadences` | moodconnect-vercel/src/App.jsx:54-60 | family 7, close-friend 7, friend 14, acquaintance 30, colleague 21, and 14 for a tag outside the table |
| `Domain.TrimStart` | moodconnect-vercel/src/App.jsx:83 | the result is a suffix of the input, only whitespace was removed, and it does not start with whitespace |
| `Domain.TrimEnd` | moodconnect-vercel/src/App.jsx:83 | the result is a prefix of the input, only whitespace was removed, and it does not end with whitespace |
| `Domain.BlankIffAllWhitespace` | moodconnect-vercel/src/App.jsx:83 | `!name.trim()` holds exactly when every character of the name is ECMAScript whitespace |
| `Roster.ApplyMoodUpserts` | moodconnect-vercel/src/App.jsx:74-75 | after logging, the new entry is last and is the only entry with its date |
| `Roster.ApplyMoodKeepsOtherDates` | moodconnect-vercel/src/App.jsx:74-75 | entries of every other date keep their values and relative order |
| `Roster.ApplyMoodTwice` | moodconnect-vercel/src/App.jsx:66-80 | logging twice for one date gives the same list as logging only the second entry |
| `Roster.ApplyMoodKeepsUniqueDates` | moodconnect-vercel/src/App.jsx:74-75 | if no two entries shared a date before logging, none do after |
| `Roster.AppendContactAppends` | moodconnect-vercel/src/App.jsx:82-92 | the list is unchanged exactly when the name is all whitespace; otherwise one contact is appended with the id, the untrimmed name, the draft's relationship and cadence, `lastContact` null and empty notes, and the old contacts stay as its prefix |
| `Roster.AppendContactKeepsUniqueIds` | moodconnect-vercel/src/App.jsx:84-91 | a fresh id keeps the contact ids unique |
| `Roster.MarkContacted` | moodconnect-vercel/src/App.jsx:100-103 | the length is kept; each contact with the id gets `lastContact = now`, and every other contact is unchanged |
| `Roster.MarkContactedOnlyStamps` | moodconnect-vercel/src/App.jsx:100-103 | every field except `lastContact` is kept, `lastContact` changes only on matching ids, and an id that matches no contact changes nothing |
| `Roster.MarkContactedKeepsUniqueIds` | moodconnect-vercel/src/App.jsx:100-103 | stamping keeps the contact ids unique |
| `Roster.DeleteContactRemoves` | moodconnect-vercel/src/App.jsx:108-109 | a contact remains exactly when it was there with another id, with as many copies as before, and none with the deleted id; the result is a subsequence of the input; deleting the same id again is a no-op; an absent id changes nothing |
| `Roster.DeleteContactKeepsUniqueIds` | moodconnect-vercel/src/App.jsx:108-109 | deleting keeps the contact ids unique |
| `Ranking.AtLeastTotal` | moodconnect-vercel/src/App.jsx:148 | any two staleness values compare, and values that compare both ways are equal, so `Infinite` ties only with `Infinite` |
| `Ranking.SortIsNonIncreasing` | moodconnect-vercel/src/App.jsx:148 | the sorted list is most overdue first |
| `Ranking.SortPermutes` | moodconnect-vercel/src/App.jsx:148 | the sorted list is a permutation of its input |
| `Ranking.SortIsStable` | moodconnect-vercel/src/App.jsx:148 | for every staleness value, the elements with that value keep their input order |
| `Ranking.StableSortIsUnique` | moodconnect-vercel/src/App.jsx:148 | any list that is ordered most overdue first, is a permutation of the input and keeps the order within each staleness value equals the model's sort |
| `Engine.CeilDays` | moodconnect-vercel/src/App.jsx:119 | the result is the fewest whole days that cover the duration |
| `Engine.DaysSince` | moodconnect-vercel/src/App.jsx:114-121 | Infinite exactly when never contacted; otherwise the ceiling of the absolute elapsed time in days; 0 exactly when `lastContact` equals `now` |
| `Engine.TodayMood` | moodconnect-vercel/src/App.jsx:165-169 | null exactly when no entry has today's date; otherwise the value of the first entry with today's date, as `find` returns it |
| `Engine.TodayMoodAfterLog` | moodconnect-vercel/src/App.jsx:165-169 | after logging `v` for a day, that day's mood is `v`, and every other day's mood is unchanged |
| `Engine.SuggestedNeedsTodayMood` | moodconnect-vercel/src/App.jsx:123-125 | no entry for today gives no suggestions, and an empty contact list gives none either |
| `Engine.SuggestedIsShortSubsequence` | moodconnect-vercel/src/App.jsx:123-139 | at most three suggestions, an order-preserving subsequence of the contacts |
| `Engine.SuggestedLowMood` | moodconnect-vercel/src/App.jsx:128-131 | for a mood of 2 or less, every suggestion is family or close-friend, and the suggestions are the first min(3, n) of those n contacts in list order |
| `Engine.SuggestedOtherMood` | moodconnect-vercel/src/App.jsx:132-136 | for a mood of 3 or more, the suggestions are the first min(3, \|contacts\|) contacts |
| `Engine.Annotate` | moodconnect-vercel/src/App.jsx:143-146 | each contact is paired, in place, with its own days since contact |
| `Engine.OverdueIff` | moodconnect-vercel/src/App.jsx:147 | a contact passes the filter exactly when its days since contact reach its cadence; the bound is inclusive, and a never-contacted contact always passes |
| `Engine.ReconnectAreOverdue` | moodconnect-vercel/src/App.jsx:141-150 | at most five suggestions; each is a listed contact, paired with its own days since contact, that reaches its cadence |
| `Engine.ReconnectOrdered` | moodconnect-vercel/src/App.jsx:148-149 | the suggestions are the first min(5, n) of the n overdue contacts sorted most overdue first; for each staleness value they keep list order |
| `Engine.NeverContactedFirst` | moodconnect-vercel/src/App.jsx:141-150 | a never-contacted contact always qualifies, and then the suggestions start with a never-contacted contact |
| `Engine.MarkedNotOverdue` | moodconnect-vercel/src/App.jsx:141-150 | just after `updateLastContact(id)`, a contact with that id is suggested only if its cadence is 0 or less |
| `Engine.MoodStatsMeaning` | moodconnect-vercel/src/App.jsx:152-163 | `total` is the entry count; `streak` is 1 exactly when an entry exists and 0 otherwise; `average` is 0 for no entries and otherwise the sum of the last min(7, n) values divided by that count |
| `Engine.AverageOnScale` | moodconnect-vercel/src/App.jsx:153-156 | when every value is in 1..5 and an entry exists, the average is between 1 and 5 |
| `Engine.LastWeekSlides` | moodconnect-vercel/src/App.jsx:153 | once seven entries exist, appending an entry drops the oldest from the window, whatever the dates |
| `Session.MoodSession.constructor` | moodconnect-vercel/src/App.jsx:6-8 | the session starts with no moods, no contacts and no mood for today |
| `Session.MoodSession.LogMood` | moodconnect-vercel/src/App.jsx:66-80 | `moods` becomes the upsert of the new entry, contacts are unchanged, and today's mood is the logged value and agrees with the effect; unique dates are preserved |
| `Session.MoodSession.AddContact` | moodconnect-vercel/src/App.jsx:82-98 | the contact is added exactly when the name is not blank; `contacts` becomes the appended list; moods are unchanged; ids stay unique when the id is fresh |
| `Session.MoodSession.UpdateLastContact` | moodconnect-vercel/src/App.jsx:100-106 | `contacts` becomes the stamped list; the rest of the state is unchanged; ids stay unique |
| `Session.MoodSession.DeleteContact` | moodconnect-vercel/src/App.jsx:108-112 | `contacts` becomes the list without that id; the rest of the state is unchanged; ids stay unique |
| `Session.MoodSession.RefreshTodayMood` | moodconnect-vercel/src/App.jsx:165-169 | `todayMood` becomes the value of the first entry dated today, or null |
| `Scenarios.ReconnectMostOverdueFirst` | moodconnect-vercel/src/App.jsx:141-150 | contacted 10 days ago with cadence 7, contacted 40 days ago with cadence 14, and never contacted with cadence 7 come out in the order never, 40, 10 |
| `Scenarios.ReconnectBoundaryInclusive` | moodconnect-vercel/src/App.jsx:147 | 14 days since contact against a cadence of 14 is suggested |
| `Scenarios.RollingAverageOfLastSeven` | moodconnect-vercel/src/App.jsx:152-163 | values 5,5,5,5,5,1,1,1,1 give total 9, average 19/7 and streak 1 |
| `Scenarios.LogTwiceSameDay` | moodconnect-vercel/src/App.jsx:66-80 | logging 3 then 5 on one day leaves one entry for it, valued 5, and today's mood is 5 |

## Left out

- Persistence: `loadData` and `saveData` use `localStorage` and
  `JSON.parse`/`JSON.stringify`, which are foreign calls. The model does not
  capture the writes after each operation or the fallback to empty lists.
- Clock reads: `new Date()`, `Date.now()` and `getToday()` become the
  parameters `now`, `timestamp` and `today`. The conversion between ISO-8601
  strings and milliseconds is not modelled, and `lastContact` is a number of
  milliseconds.
- Contact ids: the source takes `Date.now()`, which can repeat. The model
  takes the id from the caller. It proves that unique ids stay unique only
  when that id is fresh.
- Floating point: `Math.ceil(diff / 86400000)` is modelled as exact integer
  ceiling division. The average is an exact `real`. Its `.toFixed(1)`
  rendering is left out.
- Session.MoodSession.LogMood: requires a value in 1..5. The source does not
  check the value; only the `moodOptions` buttons supply it.
- UI state and markup: navigation, the `newContact` form state and its reset
  after adding, `showAddContact`, hover handlers, and the emoji, label and
  colour lookups are presentation. The relationship table's labels are left
  out, and only the tags and day counts are kept.
- Loaded data is not checked: a stored contact may have a `reconnectDays`
  of 0 or less, and stored mood values are not checked. The queries are
  total and handle such values as the source does.
