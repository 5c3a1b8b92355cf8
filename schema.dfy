/** The relational store created by the schema script: the schema objects
    (extension, tables, indexes), the rows of the three tables, and the
    statements that change them. */
module Schema {

  import opened Results
  import opened SqlTypes

  const TITLE_LENGTH: nat := 255
  const NAME_LENGTH: nat := 100
  const ROLE_LENGTH: nat := 100
  /** SERIAL columns draw their values from an `integer` sequence. */
  const SERIAL_MAX: nat := 2147483647

  // NOT NULL columns have a plain type; nullable ones are an Option.
  datatype Meeting = Meeting(id: nat, title: string, date: Date, transcript: string, embedding: Option<Vector>)
  datatype Decision = Decision(id: nat, meetingId: Option<nat>, content: string, embedding: Option<Vector>)
  datatype Participant = Participant(id: nat, meetingId: Option<nat>, name: string, role: Option<string>)

  datatype Table = Meetings | Decisions | Participants
  datatype IndexName = MeetingsEmbeddingIdx | DecisionsEmbeddingIdx
  datatype SchemaObject = VectorExtension | TableObject(table: Table) | IndexObject(index: IndexName)

  datatype DbError =
    | UndefinedTable(table: Table)
    | MissingPrerequisite(object: SchemaObject)
    | SequenceExhausted(table: Table)
    | StringTooLong(limit: nat)
    | DimensionMismatch(got: nat)
    | ForeignKeyViolation(meetingId: nat)

  /** What must exist before CREATE of each object can succeed: the vector
      type for embedding columns and HNSW indexes, the meetings table for the
      foreign keys, and the indexed table for each index. */
  function Prerequisites(o: SchemaObject): set<SchemaObject>
  {
    match o
    case VectorExtension => {}
    case TableObject(Meetings) => {VectorExtension}
    case TableObject(Decisions) => {VectorExtension, TableObject(Meetings)}
    case TableObject(Participants) => {TableObject(Meetings)}
    case IndexObject(MeetingsEmbeddingIdx) => {VectorExtension, TableObject(Meetings)}
    case IndexObject(DecisionsEmbeddingIdx) => {VectorExtension, TableObject(Decisions)}
  }

  /** The statements of the schema script, each a CREATE ... IF NOT EXISTS, in order. */
  const SCHEMA_SCRIPT: seq<SchemaObject> :=
    [VectorExtension, TableObject(Meetings), TableObject(Decisions), TableObject(Participants)]

  /** The index statements, run one by one after the schema script. */
  const INDEX_SCRIPT: seq<SchemaObject> :=
    [IndexObject(MeetingsEmbeddingIdx), IndexObject(DecisionsEmbeddingIdx)]

  const ALL_OBJECTS: set<SchemaObject> :=
    {VectorExtension, TableObject(Meetings), TableObject(Decisions), TableObject(Participants),
     IndexObject(MeetingsEmbeddingIdx), IndexObject(DecisionsEmbeddingIdx)}

  /** CREATE ... IF NOT EXISTS: a no-op when the object exists, otherwise it
      needs its prerequisites. */
  function ApplyCreate(objs: set<SchemaObject>, o: SchemaObject): (r: Result<set<SchemaObject>, DbError>)
    ensures r.Ok? <==> o in objs || Prerequisites(o) <= objs
    ensures r.Ok? ==> r.value == objs + {o}
  {
    if o in objs then Ok(objs)
    else if Prerequisites(o) <= objs then Ok(objs + {o})
    else Err(MissingPrerequisite(o))
  }

  /** Runs statements in order, stopping at the first failure. */
  function RunScript(objs: set<SchemaObject>, script: seq<SchemaObject>): Result<set<SchemaObject>, DbError>
    decreases |script|
  {
    if script == [] then Ok(objs)
    else
      match ApplyCreate(objs, script[0])
      case Err(e) => Err(e)
      case Ok(next) => RunScript(next, script[1..])
  }

  /** The whole schema set-up: the schema script, then the index statements. */
  function SchemaSetup(objs: set<SchemaObject>): Result<set<SchemaObject>, DbError>
  {
    match RunScript(objs, SCHEMA_SCRIPT)
    case Err(e) => Err(e)
    case Ok(next) => RunScript(next, INDEX_SCRIPT)
  }

  lemma EveryObjectIsKnown(o: SchemaObject)
    ensures o in ALL_OBJECTS
  {
    match o
    case VectorExtension =>
    case TableObject(t) =>
      match t {
        case Meetings =>
        case Decisions =>
        case Participants =>
      }
    case IndexObject(i) =>
      match i {
        case MeetingsEmbeddingIdx =>
        case DecisionsEmbeddingIdx =>
      }
  }

  /** A set of schema objects in which everything's prerequisites exist too:
      the only states PostgreSQL lets the schema reach. */
  predicate Closed(objs: set<SchemaObject>)
  {
    forall o :: o in objs ==> Prerequisites(o) <= objs
  }

  /** Whatever exists beforehand, the schema script and then the index
      statements succeed and leave exactly every schema object in place. */
  lemma SchemaSetupCreatesAll(objs: set<SchemaObject>)
    ensures RunScript(objs, SCHEMA_SCRIPT).Ok?
    ensures RunScript(RunScript(objs, SCHEMA_SCRIPT).value, INDEX_SCRIPT) == Ok(ALL_OBJECTS)
    ensures SchemaSetup(objs) == Ok(ALL_OBJECTS)
  {
    var s1 := objs + {VectorExtension};
    var s2 := s1 + {TableObject(Meetings)};
    var s3 := s2 + {TableObject(Decisions)};
    var s4 := s3 + {TableObject(Participants)};
    assert RunScript(s4, []) == Ok(s4);
    assert RunScript(s3, SCHEMA_SCRIPT[3..]) == Ok(s4);
    assert RunScript(s2, SCHEMA_SCRIPT[2..]) == Ok(s4);
    assert RunScript(s1, SCHEMA_SCRIPT[1..]) == Ok(s4);
    assert RunScript(objs, SCHEMA_SCRIPT) == Ok(s4);
    var s5 := s4 + {IndexObject(MeetingsEmbeddingIdx)};
    var s6 := s5 + {IndexObject(DecisionsEmbeddingIdx)};
    assert RunScript(s6, []) == Ok(s6);
    assert RunScript(s5, INDEX_SCRIPT[1..]) == Ok(s6);
    assert RunScript(s4, INDEX_SCRIPT) == Ok(s6);
    forall o | o in s6 ensures o in ALL_OBJECTS {
      EveryObjectIsKnown(o);
    }
    assert s6 == ALL_OBJECTS;
  }

  /** Running the set-up a second time changes nothing. */
  lemma SchemaSetupIdempotent(objs: set<SchemaObject>)
    ensures SchemaSetup(objs).Ok?
    ensures SchemaSetup(SchemaSetup(objs).value) == SchemaSetup(objs)
  {
    SchemaSetupCreatesAll(objs);
    SchemaSetupCreatesAll(ALL_OBJECTS);
  }

  /** Rows of `s` for which `keep` holds, in their original order. */
  function Where<T(!new)>(s: seq<T>, keep: T -> bool): (r: seq<T>)
    ensures forall x :: x in r <==> x in s && keep(x)
    ensures |r| <= |s|
  {
    if s == [] then [] else (if keep(s[0]) then [s[0]] else []) + Where(s[1..], keep)
  }

  lemma {:induction false} WhereKeepsOrder<T(!new)>(s: seq<T>, keep: T -> bool, before: (T, T) -> bool)
    requires forall i, j :: 0 <= i < j < |s| ==> before(s[i], s[j])
    ensures forall i, j :: 0 <= i < j < |Where(s, keep)| ==> before(Where(s, keep)[i], Where(s, keep)[j])
  {
    if s != [] {
      WhereKeepsOrder(s[1..], keep, before);
      var rest := Where(s[1..], keep);
      forall j | 0 <= j < |rest| ensures before(s[0], rest[j]) {
        assert rest[j] in s[1..];
        var k :| 0 <= k < |s[1..]| && s[1..][k] == rest[j];
        assert s[k + 1] == rest[j];
      }
    }
  }

  function MeetingIds(ms: seq<Meeting>): set<nat>
  {
    set m | m in ms :: m.id
  }

  /** A foreign key to meetings(id): NULL, or the id of an existing meeting. */
  predicate References(ref: Option<nat>, ms: seq<Meeting>)
  {
    ref.None? || ref.value in MeetingIds(ms)
  }

  predicate MeetingsValid(ms: seq<Meeting>, serial: nat)
  {
    && (forall m :: m in ms ==> 1 <= m.id <= serial && |m.title| <= TITLE_LENGTH && FitsEmbeddingColumn(m.embedding))
    && (forall i, j :: 0 <= i < j < |ms| ==> ms[i].id < ms[j].id)
  }

  predicate DecisionsValid(ds: seq<Decision>, serial: nat, ms: seq<Meeting>)
  {
    && (forall d :: d in ds ==> 1 <= d.id <= serial && References(d.meetingId, ms) && FitsEmbeddingColumn(d.embedding))
    && (forall i, j :: 0 <= i < j < |ds| ==> ds[i].id < ds[j].id)
  }

  predicate ParticipantsValid(ps: seq<Participant>, serial: nat, ms: seq<Meeting>)
  {
    && (forall p :: p in ps ==> 1 <= p.id <= serial && References(p.meetingId, ms) && |p.name| <= NAME_LENGTH
                                && (p.role.Some? ==> |p.role.value| <= ROLE_LENGTH))
    && (forall i, j :: 0 <= i < j < |ps| ==> ps[i].id < ps[j].id)
  }

  /** The meetings left after DELETE FROM meetings WHERE id = `id`. */
  function RemainingMeetings(ms: seq<Meeting>, id: nat): (r: seq<Meeting>)
    ensures forall m :: m in r <==> m in ms && m.id != id
  {
    Where(ms, (m: Meeting) => m.id != id)
  }

  /** ON DELETE CASCADE: the decisions left after meeting `id` is deleted. */
  function RemainingDecisions(ds: seq<Decision>, id: nat): (r: seq<Decision>)
    ensures forall d :: d in r <==> d in ds && d.meetingId != Some(id)
  {
    Where(ds, (d: Decision) => d.meetingId != Some(id))
  }

  /** ON DELETE CASCADE: the participants left after meeting `id` is deleted. */
  function RemainingParticipants(ps: seq<Participant>, id: nat): (r: seq<Participant>)
    ensures forall p :: p in r <==> p in ps && p.meetingId != Some(id)
  {
    Where(ps, (p: Participant) => p.meetingId != Some(id))
  }

  /** A reference that did not point at the deleted meeting still resolves afterwards. */
  lemma ReferenceSurvivesDelete(ref: Option<nat>, ms: seq<Meeting>, id: nat)
    requires References(ref, ms) && ref != Some(id)
    ensures References(ref, RemainingMeetings(ms, id))
  {
    if ref.Some? {
      var m :| m in ms && m.id == ref.value;
      assert m in RemainingMeetings(ms, id);
    }
  }

  /** The cascade keeps every foreign key of the two child tables valid. */
  lemma CascadeKeepsIntegrity(ms: seq<Meeting>, ds: seq<Decision>, ps: seq<Participant>, id: nat)
    requires forall d :: d in ds ==> References(d.meetingId, ms)
    requires forall p :: p in ps ==> References(p.meetingId, ms)
    ensures forall d :: d in RemainingDecisions(ds, id) ==> References(d.meetingId, RemainingMeetings(ms, id))
    ensures forall p :: p in RemainingParticipants(ps, id) ==> References(p.meetingId, RemainingMeetings(ms, id))
  {
    forall d | d in RemainingDecisions(ds, id)
      ensures References(d.meetingId, RemainingMeetings(ms, id))
    {
      ReferenceSurvivesDelete(d.meetingId, ms, id);
    }
    forall p | p in RemainingParticipants(ps, id)
      ensures References(p.meetingId, RemainingMeetings(ms, id))
    {
      ReferenceSurvivesDelete(p.meetingId, ms, id);
    }
  }

  lemma ReferencesGrow(ref: Option<nat>, ms: seq<Meeting>, m: Meeting)
    requires References(ref, ms)
    ensures References(ref, ms + [m])
  {
    if ref.Some? {
      var w :| w in ms && w.id == ref.value;
      assert w in ms + [m];
    }
  }

  /** One PostgreSQL database holding the MiniMem schema. */
  class Database {
    var objects: set<SchemaObject>
    var meetings: seq<Meeting>
    var decisions: seq<Decision>
    var participants: seq<Participant>
    /** The last value each table's SERIAL sequence handed out. */
    var meetingSerial: nat
    var decisionSerial: nat
    var participantSerial: nat

    ghost predicate Valid()
      reads this
    {
      && Closed(objects)
      && (TableObject(Meetings) !in objects ==> meetings == [])
      && (TableObject(Decisions) !in objects ==> decisions == [])
      && (TableObject(Participants) !in objects ==> participants == [])
      && meetingSerial <= SERIAL_MAX && decisionSerial <= SERIAL_MAX && participantSerial <= SERIAL_MAX
      && MeetingsValid(meetings, meetingSerial)
      && DecisionsValid(decisions, decisionSerial, meetings)
      && ParticipantsValid(participants, participantSerial, meetings)
    }

    /** A freshly created, empty database. */
    constructor ()
      ensures Valid()
      ensures objects == {} && meetings == [] && decisions == [] && participants == []
      ensures meetingSerial == 0 && decisionSerial == 0 && participantSerial == 0
    {
      objects := {};
      meetings, decisions, participants := [], [], [];
      meetingSerial, decisionSerial, participantSerial := 0, 0, 0;
    }

    /** One CREATE ... IF NOT EXISTS statement. */
    method Execute(o: SchemaObject) returns (ok: bool)
      requires Valid()
      modifies this`objects
      ensures Valid()
      ensures ok == ApplyCreate(old(objects), o).Ok?
      ensures objects == if ok then ApplyCreate(old(objects), o).value else old(objects)
    {
      var r := ApplyCreate(objects, o);
      ok := r.Ok?;
      if ok {
        objects := r.value;
      }
    }

    /** The schema script, sent as one multi-statement string: it runs as a
        single implicit transaction, so it applies completely or not at all. */
    method RunSchemaScript() returns (ok: bool)
      requires Valid()
      modifies this`objects
      ensures Valid()
      ensures ok == RunScript(old(objects), SCHEMA_SCRIPT).Ok?
      ensures objects == if ok then RunScript(old(objects), SCHEMA_SCRIPT).value else old(objects)
    {
      var r := RunScript(objects, SCHEMA_SCRIPT);
      ok := r.Ok?;
      if ok {
        assert objects <= r.value by {
          ScriptOnlyAdds(objects, SCHEMA_SCRIPT);
        }
        objects := r.value;
      }
    }

    /** Schema creation: the schema script, then each index statement in turn.
        Every object exists afterwards and no row is touched. */
    method InitSchema()
      requires Valid()
      modifies this`objects
      ensures Valid()
      ensures objects == ALL_OBJECTS
    {
      SchemaSetupCreatesAll(objects);
      var _ := RunSchemaScript();
      for i := 0 to |INDEX_SCRIPT|
        invariant Valid()
        invariant RunScript(objects, INDEX_SCRIPT[i..]) == Ok(ALL_OBJECTS)
      {
        assert INDEX_SCRIPT[i..][1..] == INDEX_SCRIPT[i + 1..];
        var _ := Execute(INDEX_SCRIPT[i]);
      }
    }

    /** INSERT INTO meetings (title, date, transcript, embedding): the id comes
        from the sequence before the column values are checked, so a rejected
        row still uses up a sequence value. */
    method InsertMeeting(title: string, date: Date, transcript: string, embedding: Option<Vector>)
      returns (r: Result<nat, DbError>)
      requires Valid()
      modifies this`meetings, this`meetingSerial
      ensures Valid()
      ensures TableObject(Meetings) !in objects ==> r == Err(UndefinedTable(Meetings))
      ensures TableObject(Meetings) in objects && old(meetingSerial) == SERIAL_MAX ==> r == Err(SequenceExhausted(Meetings))
      ensures r.Ok? <==> TableObject(Meetings) in objects && old(meetingSerial) < SERIAL_MAX
                         && Varchar(title, TITLE_LENGTH).Some? && FitsEmbeddingColumn(embedding)
      ensures meetingSerial == if TableObject(Meetings) in objects && old(meetingSerial) < SERIAL_MAX
                               then old(meetingSerial) + 1 else old(meetingSerial)
      ensures r.Ok? ==>
        && r.value == meetingSerial
        && meetings == old(meetings) + [Meeting(r.value, Varchar(title, TITLE_LENGTH).value, date, transcript, embedding)]
      ensures r.Err? ==> meetings == old(meetings)
    {
      if TableObject(Meetings) !in objects {
        return Err(UndefinedTable(Meetings));
      }
      if meetingSerial == SERIAL_MAX {
        return Err(SequenceExhausted(Meetings));
      }
      meetingSerial := meetingSerial + 1;
      var stored := Varchar(title, TITLE_LENGTH);
      if stored.None? {
        return Err(StringTooLong(TITLE_LENGTH));
      }
      if !FitsEmbeddingColumn(embedding) {
        return Err(DimensionMismatch(|embedding.value|));
      }
      var row := Meeting(meetingSerial, stored.value, date, transcript, embedding);
      forall d | d in decisions ensures References(d.meetingId, meetings + [row]) {
        ReferencesGrow(d.meetingId, meetings, row);
      }
      forall p | p in participants ensures References(p.meetingId, meetings + [row]) {
        ReferencesGrow(p.meetingId, meetings, row);
      }
      meetings := meetings + [row];
      r := Ok(meetingSerial);
    }

    /** INSERT INTO decisions (meeting_id, content, embedding); the foreign key
        is checked after the row is formed. */
    method InsertDecision(meetingId: Option<nat>, content: string, embedding: Option<Vector>)
      returns (r: Result<nat, DbError>)
      requires Valid()
      modifies this`decisions, this`decisionSerial
      ensures Valid()
      ensures TableObject(Decisions) !in objects ==> r == Err(UndefinedTable(Decisions))
      ensures TableObject(Decisions) in objects && old(decisionSerial) == SERIAL_MAX ==> r == Err(SequenceExhausted(Decisions))
      ensures r.Ok? <==> TableObject(Decisions) in objects && old(decisionSerial) < SERIAL_MAX
                         && FitsEmbeddingColumn(embedding) && References(meetingId, meetings)
      ensures decisionSerial == if TableObject(Decisions) in objects && old(decisionSerial) < SERIAL_MAX
                                then old(decisionSerial) + 1 else old(decisionSerial)
      ensures r.Ok? ==>
        && r.value == decisionSerial
        && decisions == old(decisions) + [Decision(r.value, meetingId, content, embedding)]
      ensures r.Err? ==> decisions == old(decisions)
    {
      if TableObject(Decisions) !in objects {
        return Err(UndefinedTable(Decisions));
      }
      if decisionSerial == SERIAL_MAX {
        return Err(SequenceExhausted(Decisions));
      }
      decisionSerial := decisionSerial + 1;
      if !FitsEmbeddingColumn(embedding) {
        return Err(DimensionMismatch(|embedding.value|));
      }
      if !References(meetingId, meetings) {
        return Err(ForeignKeyViolation(meetingId.value));
      }
      decisions := decisions + [Decision(decisionSerial, meetingId, content, embedding)];
      r := Ok(decisionSerial);
    }

    /** INSERT INTO participants (meeting_id, name, role). */
    method InsertParticipant(meetingId: Option<nat>, name: string, role: Option<string>)
      returns (r: Result<nat, DbError>)
      requires Valid()
      modifies this`participants, this`participantSerial
      ensures Valid()
      ensures TableObject(Participants) !in objects ==> r == Err(UndefinedTable(Participants))
      ensures TableObject(Participants) in objects && old(participantSerial) == SERIAL_MAX
              ==> r == Err(SequenceExhausted(Participants))
      ensures r.Ok? <==> TableObject(Participants) in objects && old(participantSerial) < SERIAL_MAX
                         && Varchar(name, NAME_LENGTH).Some?
                         && (role.Some? ==> Varchar(role.value, ROLE_LENGTH).Some?)
                         && References(meetingId, meetings)
      ensures participantSerial == if TableObject(Participants) in objects && old(participantSerial) < SERIAL_MAX
                                   then old(participantSerial) + 1 else old(participantSerial)
      ensures r.Ok? ==>
        && r.value == participantSerial
        && participants == old(participants) + [Participant(r.value, meetingId, Varchar(name, NAME_LENGTH).value,
             if role.Some? then Some(Varchar(role.value, ROLE_LENGTH).value) else None)]
      ensures r.Err? ==> participants == old(participants)
    {
      if TableObject(Participants) !in objects {
        return Err(UndefinedTable(Participants));
      }
      if participantSerial == SERIAL_MAX {
        return Err(SequenceExhausted(Participants));
      }
      participantSerial := participantSerial + 1;
      var storedName := Varchar(name, NAME_LENGTH);
      if storedName.None? {
        return Err(StringTooLong(NAME_LENGTH));
      }
      var storedRole: Option<string> := None;
      if role.Some? {
        var fitted := Varchar(role.value, ROLE_LENGTH);
        if fitted.None? {
          return Err(StringTooLong(ROLE_LENGTH));
        }
        storedRole := Some(fitted.value);
      }
      if !References(meetingId, meetings) {
        return Err(ForeignKeyViolation(meetingId.value));
      }
      participants := participants + [Participant(participantSerial, meetingId, storedName.value, storedRole)];
      r := Ok(participantSerial);
    }

    /** DELETE FROM meetings WHERE id = `id`, with ON DELETE CASCADE on both
        child tables; the result is the number of meetings deleted. */
    method DeleteMeeting(id: nat) returns (r: Result<nat, DbError>)
      requires Valid()
      modifies this`meetings, this`decisions, this`participants
      ensures Valid()
      ensures TableObject(Meetings) !in objects ==> r == Err(UndefinedTable(Meetings))
      ensures TableObject(Meetings) in objects ==> r == Ok(if id in MeetingIds(old(meetings)) then 1 else 0)
      ensures meetings == RemainingMeetings(old(meetings), id)
      ensures decisions == RemainingDecisions(old(decisions), id)
      ensures participants == RemainingParticipants(old(participants), id)
    {
      if TableObject(Meetings) !in objects {
        return Err(UndefinedTable(Meetings));
      }
      r := Ok(if id in MeetingIds(meetings) then 1 else 0);
      CascadeKeepsIntegrity(meetings, decisions, participants, id);
      WhereKeepsOrder(meetings, (m: Meeting) => m.id != id, (a: Meeting, b: Meeting) => a.id < b.id);
      WhereKeepsOrder(decisions, (d: Decision) => d.meetingId != Some(id), (a: Decision, b: Decision) => a.id < b.id);
      WhereKeepsOrder(participants, (p: Participant) => p.meetingId != Some(id),
                      (a: Participant, b: Participant) => a.id < b.id);
      meetings, decisions, participants :=
        RemainingMeetings(meetings, id), RemainingDecisions(decisions, id), RemainingParticipants(participants, id);
    }
  }

  lemma {:induction false} ScriptOnlyAdds(objs: set<SchemaObject>, script: seq<SchemaObject>)
    requires RunScript(objs, script).Ok?
    ensures objs <= RunScript(objs, script).value
    ensures Closed(objs) ==> Closed(RunScript(objs, script).value)
    decreases |script|
  {
    if script != [] {
      ScriptOnlyAdds(ApplyCreate(objs, script[0]).value, script[1..]);
    }
  }
}
