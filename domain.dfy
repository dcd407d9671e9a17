/** The entities of MoodConnect: mood entries, contacts, the add-contact
    draft, and the relationship table with its default reconnection cadences. */
module Domain {
  import opened Seqs

  /** Milliseconds in a day: 1000 * 60 * 60 * 24. */
  const MsPerDay: int := 86_400_000

  /** One logged mood. `date` is the UTC calendar-day key ("YYYY-MM-DD"),
      `value` the mood from 1 (Struggling) to 5 (Great), and `timestamp` the
      instant of logging in milliseconds since the epoch. */
  datatype MoodEntry = MoodEntry(date: string, value: int, timestamp: int)

  /** A person to keep in touch with. `lastContact` is the instant of the last
      contact in milliseconds, `None` when never contacted. */
  datatype Contact = Contact(
    id: int,
    name: string,
    relationship: string,
    reconnectDays: int,
    lastContact: Option<int>,
    notes: string)

  /** The add-contact form's draft: what is spread into a new contact. */
  datatype NewContact = NewContact(name: string, relationship: string, reconnectDays: int)

  /** One row of the relationship table: its tag and default cadence in days
      (the display label is left out). */
  datatype RelationshipType = RelationshipType(value: string, days: int)

  const RelationshipTypes: seq<RelationshipType> := [
    RelationshipType("family", 7),
    RelationshipType("close-friend", 7),
    RelationshipType("friend", 14),
    RelationshipType("acquaintance", 30),
    RelationshipType("colleague", 21)
  ]

  /** The cadence used when a tag has no row (or a row with a falsy `days`). */
  const FallbackReconnectDays: int := 14

  function HasTag(tag: string): RelationshipType -> bool
  {
    (r: RelationshipType) => r.value == tag
  }

  /** `relationshipTypes.find(r => r.value === tag)?.days || 14`: the cadence
      the form fills in when a relationship is selected. */
  function DefaultReconnectDays(tag: string): (d: int)
    ensures d > 0
    ensures (forall r :: r in RelationshipTypes ==> r.value != tag) ==> d == FallbackReconnectDays
    ensures forall i :: 0 <= i < |RelationshipTypes| && RelationshipTypes[i].value == tag ==>
              d == RelationshipTypes[i].days
  {
    TagsDistinct();
    match Find(RelationshipTypes, HasTag(tag))
    case Some(r) => if r.days != 0 then r.days else FallbackReconnectDays
    case None => FallbackReconnectDays
  }

  /** The select handler of the add-contact form: it sets the relationship and
      resets the cadence to that relationship's default. */
  function SelectRelationship(draft: NewContact, tag: string): (d: NewContact)
    ensures d.name == draft.name && d.relationship == tag
    ensures d.reconnectDays == DefaultReconnectDays(tag) && d.reconnectDays > 0
  {
    draft.(relationship := tag, reconnectDays := DefaultReconnectDays(tag))
  }

  /** The contact list gives "family" and "close-friend" the low-mood tier. */
  predicate IsClose(c: Contact)
  {
    c.relationship == "family" || c.relationship == "close-friend"
  }

  /** ECMAScript WhiteSpace and LineTerminator code points: what
      `String.prototype.trim` strips. */
  predicate IsWhitespace(c: char)
  {
    c == '\t' || c == '\n' || c == '\U{000B}' || c == '\U{000C}' || c == '\r' ||
    c == ' ' || c == '\U{00A0}' || c == '\U{1680}' ||
    ('\U{2000}' <= c <= '\U{200A}') ||
    c == '\U{2028}' || c == '\U{2029}' || c == '\U{202F}' || c == '\U{205F}' ||
    c == '\U{3000}' || c == '\U{FEFF}'
  }

  /** `s.trimStart()`: `s` without its leading whitespace. */
  function TrimStart(s: string): (r: string)
    ensures |r| <= |s| && r == s[|s| - |r|..]
    ensures forall i :: 0 <= i < |s| - |r| ==> IsWhitespace(s[i])
    ensures r != [] ==> !IsWhitespace(r[0])
  {
    if s != [] && IsWhitespace(s[0]) then TrimStart(s[1..]) else s
  }

  /** `s.trimEnd()`: `s` without its trailing whitespace. */
  function TrimEnd(s: string): (r: string)
    ensures |r| <= |s| && r == s[..|r|]
    ensures forall i :: |r| <= i < |s| ==> IsWhitespace(s[i])
    ensures r != [] ==> !IsWhitespace(r[|r| - 1])
  {
    if s != [] && IsWhitespace(s[|s| - 1]) then TrimEnd(s[..|s| - 1]) else s
  }

  /** `s.trim()`. */
  function Trim(s: string): string
  {
    TrimEnd(TrimStart(s))
  }

  /** `!name.trim()`: the name is empty once trimmed. */
  predicate IsBlank(name: string)
  {
    Trim(name) == ""
  }

  /** A name is blank exactly when every character of it is whitespace. */
  lemma BlankIffAllWhitespace(name: string)
    ensures IsBlank(name) <==> forall i :: 0 <= i < |name| ==> IsWhitespace(name[i])
  {
    var t := TrimStart(name);
    if forall i :: 0 <= i < |name| ==> IsWhitespace(name[i]) {
      assert t == [];
    } else {
      var i :| 0 <= i < |name| && !IsWhitespace(name[i]);
      assert t != [];
      assert !IsWhitespace(t[0]);
      assert TrimEnd(t) != [];
    }
  }

  /** The table's cadences, as the form applies them. */
  lemma DefaultCadences()
    ensures DefaultReconnectDays("family") == 7
    ensures DefaultReconnectDays("close-friend") == 7
    ensures DefaultReconnectDays("friend") == 14
    ensures DefaultReconnectDays("acquaintance") == 30
    ensures DefaultReconnectDays("colleague") == 21
    ensures DefaultReconnectDays("partner") == FallbackReconnectDays
  {
    var t := RelationshipTypes;
    assert t[0].value == "family";
    assert t[1].value == "close-friend";
    assert t[2].value == "friend";
    assert t[3].value == "acquaintance";
    assert t[4].value == "colleague";
  }

  /** No two rows of the table share a tag. */
  lemma TagsDistinct()
    ensures forall i, j :: 0 <= i < j < |RelationshipTypes| ==>
              RelationshipTypes[i].value != RelationshipTypes[j].value
  {
    assert "friend"[1] != "family"[1];
    assert "acquaintance"[0] != "close-friend"[0];
  }
}
