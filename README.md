# MiniMem alignment core in Dafny

MiniMem keeps a store of meetings and the decisions taken in them, each
decision with an embedding vector. As a conversation goes on, it checks
whether the last few turns contradict a recorded decision. This project
models that check and the store it reads:

- **Conversation window** (`Alignment`): the last four history entries are
  rendered as `Sender: content` lines joined by newlines.
- **Retrieval** (`Retrieval`, `OrderBy`): the inner join of decisions to
  meetings, ordered by cosine distance to the query embedding (ascending,
  NULLs last), limited to `top_k` rows and mapped to candidate records with
  `similarity = 1 - distance`.
- **Threshold gate** (`Alignment`): when nothing is retrieved, or when the top
  similarity is strictly below 0.75, the result is a fixed "aligned" record
  and the judge is never asked.
- **Judge path** (`Alignment`, `JsonValues`): one prompt line per candidate is
  built, the completion service is called, its JSON is decoded, and the top
  candidate's meeting date and similarity are written into the decoded
  dictionary in place (the `JsonDict` class).
- **Relational store** (`Schema`, `SqlTypes`): the `meetings`, `decisions`
  and `participants` tables are a `Database` class. Its insert methods
  enforce `VARCHAR(n)`, `vector(1536)`, the SERIAL sequences and the
  foreign keys. Its delete method applies `ON DELETE CASCADE`. The schema
  script and the index statements (`CREATE ... IF NOT EXISTS`) are run
  against a set of schema objects.
- **Provisioning** (`Provisioning`): the admin-URL rewrite, creating the
  `minimem` database only when it is missing, and the start-up sequence.

The embedding service, pgvector's cosine distance and the chat-completion
service (including JSON decoding) are parameters: `Embedder`,
`CosineDistance` and `Completion`. `CheckAlignment` is proved equal to the
specification function `AlignmentOutcome`. The lemmas about
`AlignmentOutcome` and `FindRelevantContext` state the pipeline's
properties.

Three behaviours of the code are worth stating outright:
- Guardian turns are not filtered: the window keeps every entry whatever
  its sender, the guardian agent's own turns included (`ConversationTextLines`).
- The judge's reply is not validated: whatever object `json.loads` returns
  comes back, with only the two metadata keys written into it
  (`UnvalidatedVerdictPassesThrough`).
- Equal distances have no tie-break. Only a non-increasing similarity is
  stated, and the ordering is specified by the relation `IsOrderByLimit`.

## Model

| member | source | states |
|---|---|---|
| Alignment.RecentMessages | backend/rag.py:81 | the window is the last min(4, n) entries of the history, in their order |
| Alignment.ConversationText | backend/rag.py:81-84 | the query text; its properties are stated by `ConversationTextLines` and `EarlierHistoryIgnored` |
| Text.Join | backend/rag.py:82-84 | `"\n".join`; read back by `SplitJoin` and split over list concatenation by `JoinAppend` |
| Alignment.ConversationTextLines | backend/rag.py:81-84 | when no sender or content holds a line break, splitting the query text at newlines gives, in order, one line per entry of the window: its capitalised sender, ": ", then its content; no entry is dropped for its sender |
| Alignment.EarlierHistoryIgnored | backend/rag.py:81-84 | entries before the last four never change the query text |
| Alignment.ContextLines | backend/rag.py:101-104 | the decisions section of the prompt; its property is stated by `ContextLinesPerCandidate` |
| Alignment.ContextLinesPerCandidate | backend/rag.py:101-104 | when no decision, meeting title or date holds a line break, splitting the prompt context at newlines gives exactly one line per candidate, in retrieval order, each quoting the decision and meeting title and giving the date |
| Alignment.JudgePrompt | backend/rag.py:106-137 | the judge prompt; its property is stated by `JudgePromptLines` |
| Alignment.JudgePromptLines | backend/rag.py:106-137 | the prompt is the newline join of the fixed introduction ending in "## Recent Conversation", one line per window entry, a blank line and "## Recorded Company Decisions", one line per candidate in retrieval order, and the fixed instructions |
| Alignment.WithRetrievalMetadata | backend/rag.py:150-151 | the result has the decoded keys plus `meeting_date` and `similarity`, which carry the top candidate's values; every other key keeps its value |
| Alignment.Gated | backend/rag.py:89 | the gate condition; what follows from it is stated by `GateShortCircuits` and `ThresholdIsInclusive` |
| Alignment.GatedResult | backend/rag.py:90-98 | the fixed aligned record; its shape is stated by `GatedResultShape` |
| Alignment.Judge | backend/rag.py:139-153 | the judge path after the completion call; its property is stated by `JudgeOverlay` |
| Alignment.GateThenJudge | backend/rag.py:88-153 | the gate and the judge for the retrieved candidates; `Judged` is proved equal to it, and `GateShortCircuits`, `ThresholdIsInclusive` and `SimilarityInRange` are proved about it through `AlignmentOutcome` |
| Alignment.AlignmentOutcome | backend/rag.py:68-153 | the outcome of the whole check; `CheckAlignment` is proved equal to it, and `GateShortCircuits`, `ThresholdIsInclusive`, `JudgeSeesAtMostFour` and `SimilarityInRange` state its properties |
| Alignment.CheckAlignment | backend/rag.py:68-153 | the result (or error) equals the pipeline specification `AlignmentOutcome` for the database's meetings and decisions |
| Alignment.Judged | backend/rag.py:88-153 | the gate, the judge call and the in-place overlay on the decoded dictionary give exactly the gate-then-judge specification for the candidates |
| Alignment.JudgeSeesAtMostFour | backend/rag.py:86 | the check retrieves with top_k = 4, so at most four candidates reach the gate and the prompt |
| Alignment.GatedResultShape | backend/rag.py:90-98 | the gated record has exactly the seven keys, `aligned` is true, issue, decision, title, date and severity are null, and similarity is the top one or 0.0 |
| Alignment.GateShortCircuits | backend/rag.py:88-98 | with no candidates or a top similarity below 0.75 the outcome is the gated record whatever the completion service does |
| Alignment.ThresholdIsInclusive | backend/rag.py:89 | a top similarity of 0.75 or more, 0.75 itself included, goes to the judge with the prompt built from the window and the candidates |
| Alignment.JudgeOverlay | backend/rag.py:146-153 | a completion failure, invalid JSON or a non-object reply is an error; a decoded object comes back with its keys unchanged plus the top candidate's date and similarity |
| Alignment.UnvalidatedVerdictPassesThrough | backend/rag.py:147-153 | a reply `{"aligned": false}` is returned with no issue, decision, meeting title or severity key |
| Alignment.RetrievedSimilarityInRange | backend/rag.py:47 | with distances in [0, 2], every retrieved similarity lies in [-1, 1] |
| Alignment.SimilarityInRange | backend/rag.py:89-153 | with distances in [0, 2], every successful result reports a similarity in [-1, 1], on both the gated and the judge path |
| Alignment.CapitalizeSingleLine | backend/rag.py:83 | capitalising a sender never introduces a line break |
| JsonValues.JsonDict.constructor | backend/rag.py:147 | the dictionary holds exactly the decoded object's entries |
| JsonValues.JsonDict.SetItem | backend/rag.py:150-151 | item assignment binds the key to the value and leaves every other entry alone |
| Retrieval.FindRelevantContext | backend/rag.py:30-65 | the retrieval; its properties are stated by `QueryVectorChecked`, `RetrievalCount`, `RetrievalOrdered`, `RetrievalProvenance`, `RetrievalKeepsBest` and `RetrievalSucceeds` |
| Retrieval.QueryVectorChecked | backend/rag.py:47-51 | a successful query had an embedding of 1 to 16000 dimensions, the range the `$1::vector` cast accepts, even with an empty join or a zero limit |
| Retrieval.MatchesOf | backend/rag.py:48-49 | the joined rows of one decision are exactly its pairings with the meetings it references |
| Retrieval.JoinRows | backend/rag.py:48-49 | a joined row exists iff some decision references some meeting; NULL or dangling meeting ids produce no row |
| Retrieval.ToCandidates | backend/rag.py:57-65 | the mapping succeeds iff every selected row has a distance, fails with a NULL similarity otherwise, and maps row i to candidate i with the title, the ISO date text and 1 - distance |
| Retrieval.SuccessfulQuery | backend/rag.py:38-65 | a successful query had an embedding, and its candidates are the mapped rows of the ordered, limited join |
| Retrieval.RetrievalCount | backend/rag.py:51 | top_k is not negative, at most top_k candidates come back, and exactly min(top_k, rows in the join) |
| Retrieval.RetrievalOrdered | backend/rag.py:47-50 | similarity never increases along the result |
| Retrieval.RetrievalProvenance | backend/rag.py:44-65 | every candidate is a decision with an embedding joined to the meeting it references, with that meeting's title and date and similarity 1 - distance |
| Retrieval.RetrievalKeepsBest | backend/rag.py:50-51 | when fewer than top_k come back every joined decision with an embedding is present, and any decision more similar than the last candidate is present |
| Retrieval.RetrievalSucceeds | backend/rag.py:38-65 | with an embedding of 1 to 16000 dimensions matching the stored ones, a non-negative limit and no NULL embedding in the join, the query does not fail |
| Retrieval.SelectedKeepsBest | backend/rag.py:50-51 | a joined row left out of the limited result sorts no earlier than the last row kept |
| OrderBy.Insert | backend/rag.py:50 | inserting into an ascending sequence keeps it ascending and adds exactly that row |
| OrderBy.Sort | backend/rag.py:50 | the ordering is ascending with NULL keys last and is a permutation of the input |
| OrderBy.Limit | backend/rag.py:51 | LIMIT k keeps the first min(k, n) rows |
| OrderBy.SortThenLimit | backend/rag.py:50-51 | sorting then limiting meets the ORDER BY ... LIMIT relation: the right count, ascending, drawn from the input, and no dropped row sorts before a kept one |
| SqlTypes.DateText | backend/rag.py:61 | `str(date)` is ten characters, digits with '-' at positions 4 and 7 |
| SqlTypes.DateTextInjective | backend/rag.py:61 | distinct dates give distinct date strings |
| SqlTypes.Varchar | backend/init_db.py:23 | a value fits VARCHAR(n) iff it is at most n long or its excess is all spaces; what is stored is a prefix of at most n characters, with only spaces cut |
| Text.SplitJoin | backend/rag.py:82-84 | splitting a newline join of newline-free lines gives the lines back, the helper `Split` being how the lemmas read a join back |
| Text.JoinAppend | backend/rag.py:106-137 | joining two non-empty lists of lines is joining each with the separator between them |
| Text.Capitalize | backend/rag.py:83 | the first character is upper-cased, the rest lower-cased, the length kept |
| Text.LastIndexOf | backend/init_db.py:57 | the result is the position of the last occurrence, or none when the character does not occur |
| Text.Pad | backend/rag.py:61 | zero padding gives exactly `width` digits |
| Text.PadRoundTrip | backend/rag.py:61 | reading the padded digits back gives the number |
| Schema.ApplyCreate | backend/init_db.py:18-45 | CREATE ... IF NOT EXISTS succeeds iff the object exists or its prerequisites do, and the object exists afterwards |
| Schema.RunScript | backend/init_db.py:87-92 | statements run in order and stop at the first failure; `ScriptOnlyAdds` and `SchemaSetupCreatesAll` state its properties |
| Schema.SchemaSetup | backend/init_db.py:87-92 | the schema script then the index statements; `SchemaSetupCreatesAll` and `SchemaSetupIdempotent` state its properties |
| Schema.SchemaSetupCreatesAll | backend/init_db.py:87-92 | from any closed state, the schema script and then the index statements succeed and leave exactly the six schema objects |
| Schema.SchemaSetupIdempotent | backend/init_db.py:16-51 | running the schema set-up a second time changes nothing |
| Schema.ScriptOnlyAdds | backend/init_db.py:16-51 | a successful script only adds objects and keeps every prerequisite in place |
| Schema.Where | backend/init_db.py:33 | a filtered table holds exactly the rows that satisfy the condition |
| Schema.WhereKeepsOrder | backend/init_db.py:33 | filtering keeps rows in their order |
| Schema.RemainingMeetings | backend/init_db.py:21-28 | after the delete, the meetings are exactly those with another id |
| Schema.RemainingDecisions | backend/init_db.py:33 | ON DELETE CASCADE leaves exactly the decisions not referencing the deleted meeting |
| Schema.RemainingParticipants | backend/init_db.py:42 | ON DELETE CASCADE leaves exactly the participants not referencing the deleted meeting |
| Schema.ReferenceSurvivesDelete | backend/init_db.py:33 | a reference to another meeting still resolves after a delete |
| Schema.CascadeKeepsIntegrity | backend/init_db.py:33-42 | after the cascade every remaining decision and participant references an existing meeting or none |
| Schema.ReferencesGrow | backend/init_db.py:33-42 | a valid reference stays valid when a meeting is added |
| Schema.Database.constructor | backend/init_db.py:16-51 | a new database has no schema objects, no rows and unused sequences |
| Schema.Database.Execute | backend/init_db.py:91-92 | one index statement changes the objects as CREATE ... IF NOT EXISTS does, and nothing when it fails |
| Schema.Database.RunSchemaScript | backend/init_db.py:87 | the multi-statement script applies completely or not at all |
| Schema.Database.InitSchema | backend/init_db.py:86-93 | after the schema script and the loop over the index statements every schema object exists and no row changed |
| Schema.Database.InsertMeeting | backend/init_db.py:21-28 | the insert fails on a missing table, an exhausted sequence, an over-long title or a wrong-dimension embedding; it takes the next id before the columns are checked and appends exactly the stored row on success |
| Schema.Database.InsertDecision | backend/init_db.py:31-37 | the insert fails on a missing table, an exhausted sequence, a wrong-dimension embedding or a dangling meeting id, and appends exactly the row on success |
| Schema.Database.InsertParticipant | backend/init_db.py:40-45 | the insert fails on a missing table, an exhausted sequence, an over-long name or role or a dangling meeting id, and appends exactly the stored row on success |
| Schema.Database.DeleteMeeting | backend/init_db.py:33-42 | deleting a meeting removes it and exactly the decisions and participants referencing it, reports 1 or 0 rows, and keeps every table valid |
| Provisioning.BeforeLastSlash | backend/init_db.py:57 | `rsplit("/", 1)[0]` is the prefix before the last '/', or the whole URL without one |
| Provisioning.AdminUrl | backend/init_db.py:57 | the admin URL is everything before the last '/' followed by "/postgres", and the whole URL + "/postgres" when there is no '/' |
| Provisioning.LastSlashOfAdminUrl | backend/init_db.py:57 | the last '/' of a rewritten URL is the one the rewrite put in |
| Provisioning.AdminUrlIdempotent | backend/init_db.py:57 | rewriting twice gives the same URL as rewriting once |
| Provisioning.Cluster.constructor | backend/init_db.py:60-62 | the server starts with the given databases |
| Provisioning.Cluster.EnsureDatabaseExists | backend/init_db.py:54-69 | the `minimem` database is created iff it was missing, and exists afterwards |
| Provisioning.InitDatabase | backend/init_db.py:72-93 | with no URL or an empty one nothing changes; otherwise the database exists, it was created iff it was missing, and every schema object exists; no row and no sequence changes |
| Provisioning.InitDatabaseTwice | backend/init_db.py:72-93 | running the start-up twice creates the database at most once (the second run never), ends with every schema object, and changes no row or sequence |

## Left out

- The embedding call (`generate_embedding`) is the parameter `embed`; a failed call is `None`.
- pgvector's cosine distance is the parameter `dist`. Its floating-point arithmetic is not modelled, and scores are `real`.
- The chat-completion call and `json.loads` are the parameter `complete`, returning a failure, invalid JSON or a decoded value.
- The HNSW index is approximate. The model uses the exact `ORDER BY ... LIMIT` semantics written in the query, i.e. a sequential scan.
- When a NULL embedding would be selected, the index plan can skip such rows, whereas the exact scan sorts them last. The model keeps the exact semantics, where `float(None)` then fails.
- Retrieval.RetrievalOrdered: the order among equal distances is unspecified in SQL, so only non-increasing similarity is stated; `Sort` is one admissible order.
- Text.Capitalize: Python's `str.capitalize` on non-ASCII letters (and title-case characters) is not modelled; only ASCII letters change case.
- A history entry without a `sender` or `content` key (a `KeyError`) is not modelled; `Message` always has both.
- Dictionary key order of the result is not modelled; results are maps.
- `created_at` columns and their `NOW()` default are not modelled (time is not an input of the core).
- Connections, pooling, async/await, printing, and `init_database`'s catch-print-reraise are left out. The final listing of tables in `init_database` (backend/init_db.py:95-104) is read-only and left out.
- `asyncpg`'s encoding of the query vector and the `top_k` parameter is not modelled; values reach the query as given.
- Provisioning.InitDatabase: `db` stands for the database the URL names. Resolving the URL to a database is not modelled.
- `DATABASE_URL` from the environment is the `databaseUrl` parameter.
- Dates outside the range of Python's `datetime.date` (years 1 to 9999) are not modelled.
- Integer columns beyond the SERIAL sequence range are not modelled. The sequence maximum (2147483647) is.
- Alignment.ConversationTextLines and Alignment.ContextLinesPerCandidate: the one-line-per-entry reading holds only when senders, contents, decisions, titles and dates hold no line break; a multi-line chat message or decision spreads over several lines in the code too.
- Alignment.JudgePromptLines: the prompt is stated as the newline join of its lines, not as the result of splitting the prompt; proving each fixed template line free of line breaks is left out.
- pgvector's other input checks on the query vector (non-finite elements) are not modelled; its dimension range of 1 to 16000 is.
- backend/main.py and backend/seed.py are not part of this model.
