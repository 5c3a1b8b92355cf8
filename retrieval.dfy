/** Vector search over the decision store: the inner join of decisions to
    their meetings, ordered by cosine distance to the query embedding,
    limited to `top_k` rows, and mapped to candidate records. */
module Retrieval {

  import opened Results
  import opened SqlTypes
  import opened Schema
  import opened OrderBy

  /** pgvector's largest vector dimension. */
  const VECTOR_MAX_DIM: nat := 16000

  /** The external embedding service; `None` is a failed call. */
  type Embedder = string -> Option<Vector>

  /** pgvector's cosine distance `<=>` on two vectors of equal dimension. */
  type CosineDistance = (Vector, Vector) -> real

  datatype RetrievalError =
    | EmbeddingFailed       // the embedding call raised
    | EmptyQueryVector      // a vector needs at least one dimension
    | TooManyDimensions     // a vector has at most VECTOR_MAX_DIM dimensions
    | NegativeLimit         // LIMIT must not be negative
    | DifferentDimensions   // `<=>` on vectors of different dimension
    | NullSimilarity        // float(None) on a row whose embedding is NULL

  /** One row of `decisions d JOIN meetings m ON d.meeting_id = m.id`,
      with the columns the query reads. */
  datatype JoinedRow = JoinedRow(decision: string, meetingTitle: string, meetingDate: Date, embedding: Option<Vector>)

  /** One element of the list the function returns. */
  datatype Candidate = Candidate(decision: string, meetingTitle: string, meetingDate: string, similarity: real)

  predicate Joins(d: Decision, m: Meeting)
  {
    d.meetingId == Some(m.id)
  }

  function RowOf(d: Decision, m: Meeting): JoinedRow
  {
    JoinedRow(d.content, m.title, m.date, d.embedding)
  }

  function MatchesOf(d: Decision, ms: seq<Meeting>): (r: seq<JoinedRow>)
    ensures forall row :: row in r <==> exists m :: m in ms && Joins(d, m) && row == RowOf(d, m)
  {
    if ms == [] then []
    else
      assert forall m :: m in ms <==> m == ms[0] || m in ms[1..];
      (if Joins(d, ms[0]) then [RowOf(d, ms[0])] else []) + MatchesOf(d, ms[1..])
  }

  /** The inner join: a row for every decision and meeting it references;
      decisions whose meeting_id is NULL or dangling produce none. */
  function JoinRows(ds: seq<Decision>, ms: seq<Meeting>): (r: seq<JoinedRow>)
    ensures forall row :: row in r <==> exists d, m :: d in ds && m in ms && Joins(d, m) && row == RowOf(d, m)
  {
    if ds == [] then []
    else
      assert forall d :: d in ds <==> d == ds[0] || d in ds[1..];
      MatchesOf(ds[0], ms) + JoinRows(ds[1..], ms)
  }

  /** `d.embedding <=> query`; NULL when the embedding is NULL. */
  function DistanceOf(row: JoinedRow, q: Vector, dist: CosineDistance): Option<real>
  {
    if row.embedding.Some? then Some(dist(row.embedding.value, q)) else None
  }

  function Rank(rows: seq<JoinedRow>, q: Vector, dist: CosineDistance): seq<Keyed<JoinedRow>>
  {
    seq(|rows|, i requires 0 <= i < |rows| => Keyed(rows[i], DistanceOf(rows[i], q, dist)))
  }

  /** The rows `ORDER BY d.embedding <=> query LIMIT topK` returns. */
  function Selected(ds: seq<Decision>, ms: seq<Meeting>, q: Vector, topK: nat, dist: CosineDistance): seq<Keyed<JoinedRow>>
  {
    Limit(Sort(Rank(JoinRows(ds, ms), q, dist)), topK)
  }

  /** Every stored embedding the query compares against has the query's dimension. */
  predicate SameDimensions(rows: seq<JoinedRow>, q: Vector)
  {
    forall i :: 0 <= i < |rows| && rows[i].embedding.Some? ==> |rows[i].embedding.value| == |q|
  }

  function CandidateOf(k: Keyed<JoinedRow>): Candidate
    requires k.key.Some?
  {
    Candidate(k.row.decision, k.row.meetingTitle, DateText(k.row.meetingDate), 1.0 - k.key.value)
  }

  /** The candidate a joined decision and meeting yield for a query. */
  function CandidateFor(d: Decision, m: Meeting, q: Vector, dist: CosineDistance): Candidate
    requires d.embedding.Some?
  {
    Candidate(d.content, m.title, DateText(m.date), 1.0 - dist(d.embedding.value, q))
  }

  /** The row mapping: `similarity = float(1 - distance)` fails on the first
      row whose distance is NULL. */
  function ToCandidates(rs: seq<Keyed<JoinedRow>>): (r: Result<seq<Candidate>, RetrievalError>)
    ensures r.Ok? <==> forall i :: 0 <= i < |rs| ==> rs[i].key.Some?
    ensures r.Err? ==> r.error == NullSimilarity
    ensures r.Ok? ==> |r.value| == |rs| && forall i :: 0 <= i < |rs| ==> rs[i].key.Some? && r.value[i] == CandidateOf(rs[i])
  {
    if rs == [] then Ok([])
    else if rs[0].key.None? then Err(NullSimilarity)
    else
      match ToCandidates(rs[1..])
      case Err(e) => Err(e)
      case Ok(rest) => Ok([CandidateOf(rs[0])] + rest)
  }

  /** `find_relevant_context`: embed the text, then run the ordered, limited
      join and map its rows. */
  function FindRelevantContext(ms: seq<Meeting>, ds: seq<Decision>, conversationText: string, topK: int,
                               embed: Embedder, dist: CosineDistance): Result<seq<Candidate>, RetrievalError>
  {
    match embed(conversationText)
    case None => Err(EmbeddingFailed)
    case Some(q) =>
      if |q| == 0 then Err(EmptyQueryVector)
      else if |q| > VECTOR_MAX_DIM then Err(TooManyDimensions)
      else if topK < 0 then Err(NegativeLimit)
      else if topK == 0 then Ok([])
      else if !SameDimensions(JoinRows(ds, ms), q) then Err(DifferentDimensions)
      else ToCandidates(Selected(ds, ms, q, topK, dist))
  }

  /** The facts about the selected rows that the lemmas below build on. */
  lemma {:induction false} SelectedFacts(ds: seq<Decision>, ms: seq<Meeting>, q: Vector, topK: nat, dist: CosineDistance)
    ensures var ranked := Rank(JoinRows(ds, ms), q, dist);
            IsOrderByLimit(ranked, topK, Selected(ds, ms, q, topK, dist))
    ensures |Selected(ds, ms, q, topK, dist)| == Min(topK, |JoinRows(ds, ms)|)
    ensures var sel := Selected(ds, ms, q, topK, dist);
            |sel| < topK ==> multiset(sel) == multiset(Rank(JoinRows(ds, ms), q, dist))
  {
    var ranked := Rank(JoinRows(ds, ms), q, dist);
    SortThenLimit(ranked, topK);
    var sorted := Sort(ranked);
    assert |sorted| == |multiset(sorted)| == |multiset(ranked)| == |ranked|;
    var sel := Selected(ds, ms, q, topK, dist);
    if |sel| < topK {
      assert sel == sorted;
    }
  }

  /** A selected row comes from a decision joined to its meeting. */
  lemma {:induction false} SelectedRowOrigin(ds: seq<Decision>, ms: seq<Meeting>, q: Vector, topK: nat,
                                             dist: CosineDistance, k: Keyed<JoinedRow>)
    requires k in multiset(Rank(JoinRows(ds, ms), q, dist))
    ensures exists d, m :: d in ds && m in ms && Joins(d, m) && k.row == RowOf(d, m)
                           && k.key == DistanceOf(RowOf(d, m), q, dist)
  {
    var rows := JoinRows(ds, ms);
    var ranked := Rank(rows, q, dist);
    var i :| 0 <= i < |ranked| && ranked[i] == k;
    assert rows[i] in rows;
    var d, m :| d in ds && m in ms && Joins(d, m) && rows[i] == RowOf(d, m);
  }

  /** On success with a positive limit, the candidates are the mapped selected rows. */
  lemma {:induction false} SuccessfulQuery(ms: seq<Meeting>, ds: seq<Decision>, text: string, topK: int,
                                           embed: Embedder, dist: CosineDistance)
    requires FindRelevantContext(ms, ds, text, topK, embed, dist).Ok? && topK > 0
    ensures embed(text).Some?
    ensures var cs := FindRelevantContext(ms, ds, text, topK, embed, dist).value;
            var sel := Selected(ds, ms, embed(text).value, topK, dist);
            |cs| == |sel| && forall i :: 0 <= i < |sel| ==> sel[i].key.Some? && cs[i] == CandidateOf(sel[i])
  {
  }

  /** The `$1::vector` cast: a successful query had a query vector of 1 to
      16000 dimensions, even when no distance was computed. */
  lemma {:induction false} QueryVectorChecked(ms: seq<Meeting>, ds: seq<Decision>, text: string, topK: int,
                                              embed: Embedder, dist: CosineDistance)
    requires FindRelevantContext(ms, ds, text, topK, embed, dist).Ok?
    ensures embed(text).Some? && 0 < |embed(text).value| <= VECTOR_MAX_DIM
  {
  }

  /** At most `topK` candidates, and exactly `min(topK, rows in the join)`. */
  lemma {:induction false} RetrievalCount(ms: seq<Meeting>, ds: seq<Decision>, text: string, topK: int,
                       embed: Embedder, dist: CosineDistance)
    requires FindRelevantContext(ms, ds, text, topK, embed, dist).Ok?
    ensures var cs := FindRelevantContext(ms, ds, text, topK, embed, dist).value;
            0 <= topK && |cs| <= topK && |cs| == Min(topK, |JoinRows(ds, ms)|)
  {
    if topK > 0 {
      SelectedFacts(ds, ms, embed(text).value, topK, dist);
    }
  }

  /** Candidates come in ascending distance, so similarity never increases. */
  lemma {:induction false} RetrievalOrdered(ms: seq<Meeting>, ds: seq<Decision>, text: string, topK: int,
                         embed: Embedder, dist: CosineDistance)
    requires FindRelevantContext(ms, ds, text, topK, embed, dist).Ok?
    ensures var cs := FindRelevantContext(ms, ds, text, topK, embed, dist).value;
            forall i, j :: 0 <= i < j < |cs| ==> cs[i].similarity >= cs[j].similarity
  {
    if topK > 0 {
      SelectedFacts(ds, ms, embed(text).value, topK, dist);
    }
  }

  /** Every candidate is a decision joined to the meeting it references,
      carrying that meeting's title and date, with similarity 1 - distance. */
  lemma {:induction false} RetrievalProvenance(ms: seq<Meeting>, ds: seq<Decision>, text: string, topK: int,
                                               embed: Embedder, dist: CosineDistance)
    requires FindRelevantContext(ms, ds, text, topK, embed, dist).Ok?
    ensures var cs := FindRelevantContext(ms, ds, text, topK, embed, dist).value;
            forall c :: c in cs ==>
              exists d, m :: d in ds && m in ms && Joins(d, m) && d.embedding.Some?
                             && c == CandidateFor(d, m, embed(text).value, dist)
  {
    var cs := FindRelevantContext(ms, ds, text, topK, embed, dist).value;
    if topK > 0 {
      SuccessfulQuery(ms, ds, text, topK, embed, dist);
      var q := embed(text).value;
      var sel := Selected(ds, ms, q, topK, dist);
      forall c | c in cs
        ensures exists d, m :: d in ds && m in ms && Joins(d, m) && d.embedding.Some?
                               && c == CandidateFor(d, m, q, dist)
      {
        var i :| 0 <= i < |cs| && cs[i] == c;
        SelectedCandidateOrigin(ds, ms, q, topK, dist, sel[i]);
      }
    }
  }

  lemma {:induction false} SelectedCandidateOrigin(ds: seq<Decision>, ms: seq<Meeting>, q: Vector, topK: nat,
                                                   dist: CosineDistance, k: Keyed<JoinedRow>)
    requires k in Selected(ds, ms, q, topK, dist) && k.key.Some?
    ensures exists d, m :: d in ds && m in ms && Joins(d, m) && d.embedding.Some?
                           && CandidateOf(k) == CandidateFor(d, m, q, dist)
  {
    SelectedFacts(ds, ms, q, topK, dist);
    assert k in multiset(Selected(ds, ms, q, topK, dist));
    SelectedRowOrigin(ds, ms, q, topK, dist, k);
    var d, m :| d in ds && m in ms && Joins(d, m) && k.row == RowOf(d, m)
                && k.key == DistanceOf(RowOf(d, m), q, dist);
    assert CandidateOf(k) == CandidateFor(d, m, q, dist);
  }

  /** A ranked row missing from the selection sorts no earlier than the last selected row. */
  lemma {:induction false} SelectedKeepsBest(ds: seq<Decision>, ms: seq<Meeting>, q: Vector, topK: nat,
                                             dist: CosineDistance, x: Keyed<JoinedRow>)
    requires x in multiset(Rank(JoinRows(ds, ms), q, dist))
    ensures var sel := Selected(ds, ms, q, topK, dist);
            x in sel || (|sel| == topK && (|sel| > 0 ==> NoLater(sel[|sel| - 1].key, x.key)))
  {
    SelectedFacts(ds, ms, q, topK, dist);
    var sel := Selected(ds, ms, q, topK, dist);
    if x !in multiset(sel) {
      assert x in multiset(Rank(JoinRows(ds, ms), q, dist)) - multiset(sel);
    }
  }

  /** No joined decision is left out in favour of a less similar one: when
      fewer than `topK` candidates come back every decision with an
      embedding is among them, and otherwise every decision more similar
      than the last candidate is. */
  lemma {:induction false} RetrievalKeepsBest(ms: seq<Meeting>, ds: seq<Decision>, text: string, topK: int,
                                              embed: Embedder, dist: CosineDistance, d: Decision, m: Meeting)
    requires FindRelevantContext(ms, ds, text, topK, embed, dist).Ok?
    requires d in ds && m in ms && Joins(d, m) && d.embedding.Some?
    ensures var cs := FindRelevantContext(ms, ds, text, topK, embed, dist).value;
            var c := CandidateFor(d, m, embed(text).value, dist);
            |cs| < topK || (|cs| > 0 && c.similarity > cs[|cs| - 1].similarity) ==> c in cs
  {
    if topK > 0 {
      SuccessfulQuery(ms, ds, text, topK, embed, dist);
      var cs := FindRelevantContext(ms, ds, text, topK, embed, dist).value;
      var q := embed(text).value;
      var rows := JoinRows(ds, ms);
      var ranked := Rank(rows, q, dist);
      var sel := Selected(ds, ms, q, topK, dist);
      assert RowOf(d, m) in rows;
      var i :| 0 <= i < |rows| && rows[i] == RowOf(d, m);
      var x := ranked[i];
      assert x in multiset(ranked);
      SelectedKeepsBest(ds, ms, q, topK, dist, x);
      if x in sel {
        var j :| 0 <= j < |sel| && sel[j] == x;
        assert cs[j] == CandidateFor(d, m, q, dist);
      }
    }
  }

  /** The query cannot fail once the embedding call succeeds with a vector
      of 1 to 16000 dimensions matching the stored ones, the limit is not
      negative and no joined decision lacks an embedding. */
  lemma {:induction false} RetrievalSucceeds(ms: seq<Meeting>, ds: seq<Decision>, text: string, topK: int,
                          embed: Embedder, dist: CosineDistance)
    requires embed(text).Some? && 0 < |embed(text).value| <= VECTOR_MAX_DIM && topK >= 0
    requires SameDimensions(JoinRows(ds, ms), embed(text).value)
    requires forall d, m :: d in ds && m in ms && Joins(d, m) ==> d.embedding.Some?
    ensures FindRelevantContext(ms, ds, text, topK, embed, dist).Ok?
  {
    if topK > 0 {
      var q := embed(text).value;
      SelectedFacts(ds, ms, q, topK, dist);
      var sel := Selected(ds, ms, q, topK, dist);
      forall i | 0 <= i < |sel| ensures sel[i].key.Some? {
        assert sel[i] in multiset(sel);
        SelectedRowOrigin(ds, ms, q, topK, dist, sel[i]);
      }
    }
  }
}
