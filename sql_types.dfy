/** Column types of the PostgreSQL schema: DATE, VARCHAR(n) and pgvector's vector(n). */
module SqlTypes {

  import opened Results
  import opened Text

  /** Every embedding column is declared `vector(1536)`. */
  const EMBEDDING_DIMENSION: nat := 1536

  type Vector = seq<real>

  /** A nullable embedding column accepts NULL or a vector of exactly the declared dimension. */
  predicate FitsEmbeddingColumn(v: Option<Vector>)
  {
    v.None? || |v.value| == EMBEDDING_DIMENSION
  }

  predicate IsLeapYear(y: int)
  {
    y % 4 == 0 && (y % 100 != 0 || y % 400 == 0)
  }

  function DaysInMonth(y: int, m: int): int
  {
    if m == 2 then (if IsLeapYear(y) then 29 else 28)
    else if m == 4 || m == 6 || m == 9 || m == 11 then 30
    else 31
  }

  datatype CalendarDate = CalendarDate(year: int, month: int, day: int)

  predicate ValidDate(d: CalendarDate)
  {
    1 <= d.year <= 9999 && 1 <= d.month <= 12 && 1 <= d.day <= DaysInMonth(d.year, d.month)
  }

  /** A DATE value as the Python side reads it (`datetime.date`). */
  type Date = d: CalendarDate | ValidDate(d) witness CalendarDate(1970, 1, 1)

  /** `str(date)`: the ISO form YYYY-MM-DD with zero padding. */
  function DateText(d: Date): (r: string)
    ensures |r| == 10 && r[4] == '-' && r[7] == '-'
    ensures forall i :: 0 <= i < 10 && i != 4 && i != 7 ==> '0' <= r[i] <= '9'
  {
    Pad(d.year, 4) + "-" + Pad(d.month, 2) + "-" + Pad(d.day, 2)
  }

  /** Distinct dates are rendered as distinct strings. */
  lemma DateTextInjective(d1: Date, d2: Date)
    requires DateText(d1) == DateText(d2)
    ensures d1 == d2
  {
    var t1, t2 := DateText(d1), DateText(d2);
    assert Pad(d1.year, 4) == t1[..4] == t2[..4] == Pad(d2.year, 4);
    assert Pad(d1.month, 2) == t1[5..7] == t2[5..7] == Pad(d2.month, 2);
    assert Pad(d1.day, 2) == t1[8..] == t2[8..] == Pad(d2.day, 2);
    assert Pow10(4) == 10000 && Pow10(2) == 100;
    PadRoundTrip(d1.year, 4);
    PadRoundTrip(d2.year, 4);
    PadRoundTrip(d1.month, 2);
    PadRoundTrip(d2.month, 2);
    PadRoundTrip(d1.day, 2);
    PadRoundTrip(d2.day, 2);
  }

  /** Storing `s` into a VARCHAR(n) column: too-long values are an error unless
      everything past `n` characters is spaces, which are then cut off. */
  function Varchar(s: string, n: nat): (r: Option<string>)
    ensures r.Some? <==> |s| <= n || forall i :: n <= i < |s| ==> s[i] == ' '
    ensures r.Some? ==> |r.value| <= n && r.value <= s
    ensures r.Some? ==> forall i :: |r.value| <= i < |s| ==> s[i] == ' '
    ensures |s| <= n ==> r == Some(s)
  {
    if |s| <= n then Some(s)
    else if forall i :: n <= i < |s| ==> s[i] == ' ' then Some(s[..n])
    else None
  }
}
