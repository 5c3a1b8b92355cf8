/** The alignment check: a window over the conversation, retrieval of the
    nearest recorded decisions, a similarity gate, and the judge call whose
    decoded reply gets the retrieval metadata written into it. */
module Alignment {

  import opened Results
  import opened Text
  import opened JsonValues
  import opened Schema
  import opened Retrieval

  /** A top candidate strictly below this similarity skips the judge. */
  const SIMILARITY_THRESHOLD: real := 0.75
  /** How many of the latest history entries make up the query text. */
  const WINDOW_SIZE: nat := 4
  /** How many candidates the check retrieves. */
  const JUDGE_TOP_K: int := 4

  /** One entry of the conversation history: its `sender` and `content`. */
  datatype Message = Message(sender: string, content: string)

  /** What the chat-completion call and `json.loads` of its text produce. */
  datatype Reply =
    | ServiceFailure       // the completion call raised
    | InvalidJson          // the message text is not JSON
    | Parsed(value: Json)  // whatever JSON value the text held

  type Completion = string -> Reply

  datatype AlignmentError =
    | RetrievalFailed(cause: RetrievalError)
    | CompletionFailed
    | JsonDecodeError
    | NotAnObject          // item assignment on a decoded value that is not a dict

  /** `history[-4:]`: the last four entries, or all of a shorter history. */
  function RecentMessages(history: seq<Message>): (r: seq<Message>)
    ensures |r| == Min(|history|, WINDOW_SIZE)
    ensures r == history[|history| - |r|..]
  {
    if |history| <= WINDOW_SIZE then history else history[|history| - WINDOW_SIZE..]
  }

  function MessageLine(msg: Message): string
  {
    Capitalize(msg.sender) + ": " + msg.content
  }

  function MessageLines(msgs: seq<Message>): (r: seq<string>)
    ensures |r| == |msgs| && forall i :: 0 <= i < |msgs| ==> r[i] == MessageLine(msgs[i])
  {
    seq(|msgs|, i requires 0 <= i < |msgs| => MessageLine(msgs[i]))
  }

  /** The query text: one "Sender: content" line per recent entry. */
  function ConversationText(history: seq<Message>): string
  {
    Join(MessageLines(RecentMessages(history)), "\n")
  }

  predicate SingleLine(s: string)
  {
    '\n' !in s
  }

  lemma {:induction false} CapitalizeSingleLine(s: string)
    requires SingleLine(s)
    ensures SingleLine(Capitalize(s))
  {
    var c := Capitalize(s);
    forall i | 0 <= i < |c| ensures c[i] != '\n' {
      assert s[i] != '\n' by {
        assert s[i] in s;
      }
    }
  }

  /** The rendered window lines are single lines when senders and contents are. */
  lemma {:induction false} WindowLinesSingleLine(history: seq<Message>)
    requires forall i :: 0 <= i < |history| ==> SingleLine(history[i].sender) && SingleLine(history[i].content)
    ensures forall i :: 0 <= i < |RecentMessages(history)| ==> SingleLine(MessageLines(RecentMessages(history))[i])
  {
    var recent := RecentMessages(history);
    var lines := MessageLines(recent);
    forall i | 0 <= i < |lines| ensures '\n' !in lines[i] {
      assert recent[i] in history;
      var j :| 0 <= j < |history| && history[j] == recent[i];
      CapitalizeSingleLine(recent[i].sender);
    }
  }

  /** The query text holds, line by line and in order, the capitalised
      sender and the content of each of the last (at most four) entries:
      no entry is dropped for its sender, an agent's own turns included. */
  lemma {:induction false} ConversationTextLines(history: seq<Message>)
    requires |history| > 0
    requires forall i :: 0 <= i < |history| ==> SingleLine(history[i].sender) && SingleLine(history[i].content)
    ensures var recent := history[|history| - Min(|history|, WINDOW_SIZE)..];
            var lines := Split(ConversationText(history), '\n');
            |lines| == |recent|
            && forall i :: 0 <= i < |recent| ==> lines[i] == Capitalize(recent[i].sender) + ": " + recent[i].content
  {
    WindowLinesSingleLine(history);
    SplitJoin(MessageLines(RecentMessages(history)), '\n');
  }

  /** Entries before the last four never reach the query text. */
  lemma EarlierHistoryIgnored(older: seq<Message>, history: seq<Message>)
    requires |history| >= WINDOW_SIZE
    ensures ConversationText(older + history) == ConversationText(history)
  {
    var all := older + history;
    assert all[|all| - WINDOW_SIZE..] == history[|history| - WINDOW_SIZE..];
  }

  /** `- "<decision>" (from "<meeting title>", <meeting date>)` */
  function ContextLine(c: Candidate): string
  {
    "- \"" + c.decision + "\" (from \"" + c.meetingTitle + "\", " + c.meetingDate + ")"
  }

  function ContextLineList(cs: seq<Candidate>): (r: seq<string>)
    ensures |r| == |cs| && forall i :: 0 <= i < |cs| ==> r[i] == ContextLine(cs[i])
  {
    seq(|cs|, i requires 0 <= i < |cs| => ContextLine(cs[i]))
  }

  /** The decisions section of the judge prompt. */
  function ContextLines(cs: seq<Candidate>): string
  {
    Join(ContextLineList(cs), "\n")
  }

  /** The context lines are single lines when every candidate's fields are. */
  lemma {:induction false} ContextLineListSingleLine(cs: seq<Candidate>)
    requires forall i :: 0 <= i < |cs| ==>
               SingleLine(cs[i].decision) && SingleLine(cs[i].meetingTitle) && SingleLine(cs[i].meetingDate)
    ensures forall i :: 0 <= i < |cs| ==> SingleLine(ContextLineList(cs)[i])
  {
    var lines := ContextLineList(cs);
    forall i | 0 <= i < |lines| ensures '\n' !in lines[i] {
      var c := cs[i];
      assert lines[i] == "- \"" + c.decision + "\" (from \"" + c.meetingTitle + "\", " + c.meetingDate + ")";
    }
  }

  /** One line per candidate, in retrieval order, each naming that
      candidate's decision, meeting title and date. */
  lemma {:induction false} ContextLinesPerCandidate(cs: seq<Candidate>)
    requires |cs| > 0
    requires forall i :: 0 <= i < |cs| ==>
               SingleLine(cs[i].decision) && SingleLine(cs[i].meetingTitle) && SingleLine(cs[i].meetingDate)
    ensures var lines := Split(ContextLines(cs), '\n');
            |lines| == |cs|
            && forall i :: 0 <= i < |cs| ==>
                 lines[i] == "- \"" + cs[i].decision + "\" (from \"" + cs[i].meetingTitle + "\", " + cs[i].meetingDate + ")"
  {
    ContextLineListSingleLine(cs);
    SplitJoin(ContextLineList(cs), '\n');
  }

  /** The judge prompt's fixed lines before the conversation. */
  const PROMPT_INTRO: seq<string> := [
    "You are an organizational alignment checker for a startup.",
    "",
    "Your job: determine whether the recent conversation CONTRADICTS any of the company's recorded decisions.",
    "",
    "## Recent Conversation"
  ]

  /** The fixed lines between the conversation and the decisions. */
  const PROMPT_MIDDLE: seq<string> := ["", "## Recorded Company Decisions"]

  /** The fixed instructions after the decisions. */
  const PROMPT_TAIL: seq<string> := [
    "",
    "## Instructions",
    "- Only flag a contradiction if the conversation is actively suggesting work or direction that goes against a decision.",
    "- Do NOT flag if the conversation is simply mentioning or acknowledging a past decision.",
    "- Do NOT flag neutral or unrelated conversation.",
    "",
    "Respond ONLY with valid JSON (no markdown, no explanation) in this exact shape:",
    "{",
    "  \"aligned\": true,",
    "  \"issue\": null,",
    "  \"relevant_decision\": null,",
    "  \"meeting_title\": null,",
    "  \"severity\": null",
    "}",
    "",
    "or if misaligned:",
    "{",
    "  \"aligned\": false,",
    "  \"issue\": \"One sentence describing the contradiction\",",
    "  \"relevant_decision\": \"The exact decision text that is being contradicted\",",
    "  \"meeting_title\": \"The meeting it came from\",",
    "  \"severity\": \"low | medium | high\"",
    "}"
  ]

  /** The single user message sent to the judge: the fixed template with the
      conversation text and the decisions section in its two slots. */
  function JudgePrompt(conversationText: string, contextLines: string): string
  {
    Join(PROMPT_INTRO, "\n") + "\n" + conversationText + "\n"
    + Join(PROMPT_MIDDLE, "\n") + "\n" + contextLines + "\n" + Join(PROMPT_TAIL, "\n")
  }

  /** The judge prompt is, line by line, the fixed introduction ending in
      "## Recent Conversation", one line per entry of the window, a blank
      line and "## Recorded Company Decisions", one line per candidate in
      retrieval order, then the fixed instructions. */
  lemma {:induction false} JudgePromptLines(history: seq<Message>, cs: seq<Candidate>)
    requires |history| > 0 && |cs| > 0
    ensures JudgePrompt(ConversationText(history), ContextLines(cs))
            == Join(PROMPT_INTRO + MessageLines(RecentMessages(history)) + PROMPT_MIDDLE + ContextLineList(cs) + PROMPT_TAIL, "\n")
  {
    var window := MessageLines(RecentMessages(history));
    var context := ContextLineList(cs);
    var a := PROMPT_INTRO + window;
    var b := a + PROMPT_MIDDLE;
    var c := b + context;
    JoinAppend(PROMPT_INTRO, window, "\n");
    JoinAppend(a, PROMPT_MIDDLE, "\n");
    JoinAppend(b, context, "\n");
    JoinAppend(c, PROMPT_TAIL, "\n");
  }

  /** The judge is skipped when nothing was retrieved or the best match is
      strictly below the threshold. */
  predicate Gated(cs: seq<Candidate>)
  {
    |cs| == 0 || cs[0].similarity < SIMILARITY_THRESHOLD
  }

  /** The fixed "aligned" record of the gated path. */
  function GatedResult(cs: seq<Candidate>): map<string, Json>
  {
    map[
      "aligned" := JBool(true),
      "issue" := JNull,
      "relevant_decision" := JNull,
      "meeting_title" := JNull,
      "meeting_date" := JNull,
      "similarity" := JNumber(if |cs| > 0 then cs[0].similarity else 0.0),
      "severity" := JNull
    ]
  }

  /** The decoded reply with the top candidate's date and similarity written
      into it; every other key keeps its value. */
  function WithRetrievalMetadata(fields: map<string, Json>, top: Candidate): (r: map<string, Json>)
    ensures r.Keys == fields.Keys + {"meeting_date", "similarity"}
    ensures r["meeting_date"] == JString(top.meetingDate) && r["similarity"] == JNumber(top.similarity)
    ensures forall k :: k in fields && k != "meeting_date" && k != "similarity" ==> r[k] == fields[k]
  {
    fields["meeting_date" := JString(top.meetingDate)]["similarity" := JNumber(top.similarity)]
  }

  /** The judge path after the completion call. */
  function Judge(reply: Reply, top: Candidate): Result<map<string, Json>, AlignmentError>
  {
    match reply
    case ServiceFailure => Err(CompletionFailed)
    case InvalidJson => Err(JsonDecodeError)
    case Parsed(JObject(fields)) => Ok(WithRetrievalMetadata(fields, top))
    case Parsed(_) => Err(NotAnObject)
  }

  /** The gate and, past it, the judge, for the retrieved candidates. */
  function GateThenJudge(cs: seq<Candidate>, text: string, complete: Completion)
    : Result<map<string, Json>, AlignmentError>
  {
    if Gated(cs) then Ok(GatedResult(cs))
    else Judge(complete(JudgePrompt(text, ContextLines(cs))), cs[0])
  }

  /** What `check_alignment` returns (or the error it raises) for a store
      snapshot, a history and the three external services. */
  function AlignmentOutcome(ms: seq<Meeting>, ds: seq<Decision>, history: seq<Message>,
                            embed: Embedder, dist: CosineDistance, complete: Completion)
    : Result<map<string, Json>, AlignmentError>
  {
    var text := ConversationText(history);
    match FindRelevantContext(ms, ds, text, JUDGE_TOP_K, embed, dist)
    case Err(e) => Err(RetrievalFailed(e))
    case Ok(cs) => GateThenJudge(cs, text, complete)
  }

  /** `check_alignment` against the database `db`. */
  method CheckAlignment(db: Database, history: seq<Message>, embed: Embedder, dist: CosineDistance,
                        complete: Completion)
    returns (r: Result<map<string, Json>, AlignmentError>)
    ensures r == AlignmentOutcome(db.meetings, db.decisions, history, embed, dist, complete)
  {
    var text := ConversationText(history);
    var context := FindRelevantContext(db.meetings, db.decisions, text, JUDGE_TOP_K, embed, dist);
    if context.Err? {
      return Err(RetrievalFailed(context.error));
    }
    var cs := context.value;
    r := Judged(cs, text, complete);
  }

  /** The gate, and past it the judge call and the in-place overlay of the
      retrieval metadata on the decoded dictionary. */
  method Judged(cs: seq<Candidate>, text: string, complete: Completion)
    returns (r: Result<map<string, Json>, AlignmentError>)
    ensures r == GateThenJudge(cs, text, complete)
  {
    if Gated(cs) {
      return Ok(GatedResult(cs));
    }
    var reply := complete(JudgePrompt(text, ContextLines(cs)));
    match reply {
      case ServiceFailure =>
        r := Err(CompletionFailed);
      case InvalidJson =>
        r := Err(JsonDecodeError);
      case Parsed(value) =>
        if !value.JObject? {
          return Err(NotAnObject);
        }
        var result := new JsonDict(value.fields);
        result.SetItem("meeting_date", JString(cs[0].meetingDate));
        result.SetItem("similarity", JNumber(cs[0].similarity));
        r := Ok(result.entries);
    }
  }

  /** At most four candidates reach the gate and the judge. */
  lemma {:induction false} JudgeSeesAtMostFour(ms: seq<Meeting>, ds: seq<Decision>, history: seq<Message>,
                                               embed: Embedder, dist: CosineDistance)
    requires FindRelevantContext(ms, ds, ConversationText(history), JUDGE_TOP_K, embed, dist).Ok?
    ensures |FindRelevantContext(ms, ds, ConversationText(history), JUDGE_TOP_K, embed, dist).value| <= 4
  {
    RetrievalCount(ms, ds, ConversationText(history), JUDGE_TOP_K, embed, dist);
  }

  /** The gated record says "aligned", carries no issue, decision, meeting
      or severity, and reports the top similarity (0.0 when nothing was
      retrieved). */
  lemma GatedResultShape(cs: seq<Candidate>)
    ensures var r := GatedResult(cs);
            && r.Keys == {"aligned", "issue", "relevant_decision", "meeting_title", "meeting_date", "similarity", "severity"}
            && r["aligned"] == JBool(true)
            && r["issue"] == r["relevant_decision"] == r["meeting_title"] == JNull
            && r["meeting_date"] == r["severity"] == JNull
            && r["similarity"] == JNumber(if cs == [] then 0.0 else cs[0].similarity)
  {
  }

  /** Below the threshold, or with nothing retrieved, the result is the
      fixed aligned record whatever the completion service would say, so no
      completion is requested. */
  lemma {:induction false} GateShortCircuits(ms: seq<Meeting>, ds: seq<Decision>, history: seq<Message>,
                                             embed: Embedder, dist: CosineDistance,
                                             complete: Completion, other: Completion)
    requires FindRelevantContext(ms, ds, ConversationText(history), JUDGE_TOP_K, embed, dist).Ok?
    requires var cs := FindRelevantContext(ms, ds, ConversationText(history), JUDGE_TOP_K, embed, dist).value;
             cs == [] || cs[0].similarity < SIMILARITY_THRESHOLD
    ensures var cs := FindRelevantContext(ms, ds, ConversationText(history), JUDGE_TOP_K, embed, dist).value;
            && AlignmentOutcome(ms, ds, history, embed, dist, complete) == Ok(GatedResult(cs))
            && AlignmentOutcome(ms, ds, history, embed, dist, other) == Ok(GatedResult(cs))
  {
  }

  /** A top similarity at or above the threshold (0.75 included) goes to the
      judge with the prompt built from the window and the candidates. */
  lemma {:induction false} ThresholdIsInclusive(ms: seq<Meeting>, ds: seq<Decision>, history: seq<Message>,
                                                embed: Embedder, dist: CosineDistance, complete: Completion)
    requires FindRelevantContext(ms, ds, ConversationText(history), JUDGE_TOP_K, embed, dist).Ok?
    requires var cs := FindRelevantContext(ms, ds, ConversationText(history), JUDGE_TOP_K, embed, dist).value;
             |cs| > 0 && cs[0].similarity >= SIMILARITY_THRESHOLD
    ensures var text := ConversationText(history);
            var cs := FindRelevantContext(ms, ds, text, JUDGE_TOP_K, embed, dist).value;
            AlignmentOutcome(ms, ds, history, embed, dist, complete)
              == Judge(complete(JudgePrompt(text, ContextLines(cs))), cs[0])
  {
  }

  /** On the judge path a decoded object comes back with every key it had,
      unchanged, plus the first candidate's meeting date and similarity; a
      reply that is not JSON, or not an object, is an error and never a result. */
  lemma {:induction false} JudgeOverlay(reply: Reply, top: Candidate)
    ensures reply == InvalidJson ==> Judge(reply, top) == Err(JsonDecodeError)
    ensures reply == ServiceFailure ==> Judge(reply, top) == Err(CompletionFailed)
    ensures Judge(reply, top).Ok? <==> reply.Parsed? && reply.value.JObject?
    ensures reply.Parsed? && reply.value.JObject? ==>
              var fields := reply.value.fields;
              var r := Judge(reply, top).value;
              && r.Keys == fields.Keys + {"meeting_date", "similarity"}
              && r["meeting_date"] == JString(top.meetingDate)
              && r["similarity"] == JNumber(top.similarity)
              && forall k :: k in fields && k != "meeting_date" && k != "similarity" ==> r[k] == fields[k]
  {
  }

  /** The decoded reply is not checked against the result schema: a verdict
      of "not aligned" that names no issue, decision, meeting or severity is
      returned as it is, with only the two metadata keys added. */
  lemma {:induction false} UnvalidatedVerdictPassesThrough(top: Candidate)
    ensures var r := Judge(Parsed(JObject(map["aligned" := JBool(false)])), top);
            && r.Ok?
            && r.value["aligned"] == JBool(false)
            && "issue" !in r.value && "relevant_decision" !in r.value
            && "meeting_title" !in r.value && "severity" !in r.value
  {
    JudgeOverlay(Parsed(JObject(map["aligned" := JBool(false)])), top);
  }

  /** With a cosine distance in [0, 2], every retrieved similarity lies in [-1, 1]. */
  lemma {:induction false} RetrievedSimilarityInRange(ms: seq<Meeting>, ds: seq<Decision>, text: string,
                                                      embed: Embedder, dist: CosineDistance)
    requires forall a, b :: 0.0 <= dist(a, b) <= 2.0
    requires FindRelevantContext(ms, ds, text, JUDGE_TOP_K, embed, dist).Ok?
    ensures var cs := FindRelevantContext(ms, ds, text, JUDGE_TOP_K, embed, dist).value;
            forall c :: c in cs ==> -1.0 <= c.similarity <= 1.0
  {
    var cs := FindRelevantContext(ms, ds, text, JUDGE_TOP_K, embed, dist).value;
    RetrievalProvenance(ms, ds, text, JUDGE_TOP_K, embed, dist);
    forall c | c in cs ensures -1.0 <= c.similarity <= 1.0 {
      var d, m :| d in ds && m in ms && Joins(d, m) && d.embedding.Some?
                  && c == CandidateFor(d, m, embed(text).value, dist);
      assert 0.0 <= dist(d.embedding.value, embed(text).value) <= 2.0;
    }
  }

  /** With a cosine distance in [0, 2], the similarity every successful
      check reports lies in [-1, 1]. */
  lemma {:induction false} SimilarityInRange(ms: seq<Meeting>, ds: seq<Decision>, history: seq<Message>,
                                             embed: Embedder, dist: CosineDistance, complete: Completion)
    requires forall a, b :: 0.0 <= dist(a, b) <= 2.0
    requires AlignmentOutcome(ms, ds, history, embed, dist, complete).Ok?
    ensures var r := AlignmentOutcome(ms, ds, history, embed, dist, complete).value;
            "similarity" in r && r["similarity"].JNumber? && -1.0 <= r["similarity"].n <= 1.0
  {
    var text := ConversationText(history);
    var context := FindRelevantContext(ms, ds, text, JUDGE_TOP_K, embed, dist);
    assert context.Ok?;
    var cs := context.value;
    RetrievedSimilarityInRange(ms, ds, text, embed, dist);
    var r := AlignmentOutcome(ms, ds, history, embed, dist, complete).value;
    if Gated(cs) {
      GatedResultShape(cs);
      assert cs != [] ==> cs[0] in cs;
    } else {
      var reply := complete(JudgePrompt(text, ContextLines(cs)));
      assert Judge(reply, cs[0]).Ok?;
      JudgeOverlay(reply, cs[0]);
      assert cs[0] in cs;
    }
  }
}
