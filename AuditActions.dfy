/** The action texts the audit recorder writes: one for a new sample, one
    for a status transition that quotes the old value before the new one. */
module AuditActions {
  import opened Models

  const REGISTERED := "Sample registered."

  const CHANGE_PREFIX := "Status changed from '"
  const CHANGE_MIDDLE := "' to '"
  const CHANGE_SUFFIX := "'."

  /** `Status changed from '<old>' to '<new>'.` */
  function StatusChanged(from: SampleStatus, to: SampleStatus): (r: string)
    ensures |r| > |CHANGE_PREFIX| + |CHANGE_SUFFIX|
    ensures r[..|CHANGE_PREFIX|] == CHANGE_PREFIX
    ensures r[|r| - |CHANGE_SUFFIX|..] == CHANGE_SUFFIX
  {
    CHANGE_PREFIX + SampleStatusValue(from) + CHANGE_MIDDLE + SampleStatusValue(to) + CHANGE_SUFFIX
  }

  /** Splits before the first single quote (or at the end, if there is none). */
  function SplitAtQuote(s: string): (r: (string, string))
    ensures r.0 + r.1 == s
    ensures '\'' !in r.0
    ensures r.1 == [] || r.1[0] == '\''
  {
    if s == [] then ([], [])
    else if s[0] == '\'' then ([], s)
    else
      var (a, b) := SplitAtQuote(s[1..]);
      ([s[0]] + a, b)
  }

  /** Cuts a status-change text into the two quoted values. */
  function SplitStatusChange(action: string): Option<(string, string)> {
    if |action| < |CHANGE_PREFIX| || action[..|CHANGE_PREFIX|] != CHANGE_PREFIX then None
    else
      var (fromText, rest) := SplitAtQuote(action[|CHANGE_PREFIX|..]);
      if |rest| < |CHANGE_MIDDLE| || rest[..|CHANGE_MIDDLE|] != CHANGE_MIDDLE then None
      else
        var (toText, tail) := SplitAtQuote(rest[|CHANGE_MIDDLE|..]);
        if tail != CHANGE_SUFFIX then None else Some((fromText, toText))
  }

  /** Reads a status-change text back into its two statuses. */
  function ParseStatusChange(action: string): Option<(SampleStatus, SampleStatus)> {
    match SplitStatusChange(action)
    case None => None
    case Some((fromText, toText)) =>
      match (ParseSampleStatus(fromText), ParseSampleStatus(toText))
      case (Some(f), Some(t)) => Some((f, t))
      case _ => None
  }

  /** The split lands exactly after a quote-free prefix. */
  lemma SplitAtQuoteOf(x: string, y: string)
    requires '\'' !in x && y != [] && y[0] == '\''
    ensures SplitAtQuote(x + y) == (x, y)
  {
    var r := SplitAtQuote(x + y);
    assert r.0 == (x + y)[..|r.0|];
    assert r.0 == (x + y)[..|x|];
  }

  lemma SplitStatusChangeOf(a: string, b: string)
    requires '\'' !in a && '\'' !in b
    ensures SplitStatusChange(CHANGE_PREFIX + a + CHANGE_MIDDLE + b + CHANGE_SUFFIX) == Some((a, b))
  {
    var tail := CHANGE_MIDDLE + b + CHANGE_SUFFIX;
    var text := CHANGE_PREFIX + (a + tail);
    assert CHANGE_PREFIX + a + CHANGE_MIDDLE + b + CHANGE_SUFFIX == text;
    assert text[..|CHANGE_PREFIX|] == CHANGE_PREFIX;
    assert text[|CHANGE_PREFIX|..] == a + tail;
    SplitAtQuoteOf(a, tail);
    assert tail[..|CHANGE_MIDDLE|] == CHANGE_MIDDLE;
    assert tail[|CHANGE_MIDDLE|..] == b + CHANGE_SUFFIX;
    SplitAtQuoteOf(b, CHANGE_SUFFIX);
  }

  /** The text names the old status first and the new one second, and both can be read back. */
  lemma StatusChangedRoundTrip(from: SampleStatus, to: SampleStatus)
    ensures ParseStatusChange(StatusChanged(from, to)) == Some((from, to))
  {
    SplitStatusChangeOf(SampleStatusValue(from), SampleStatusValue(to));
    SampleStatusRoundTrip(from);
    SampleStatusRoundTrip(to);
  }

  /** Different transitions are recorded with different texts. */
  lemma StatusChangedInjective(a: SampleStatus, b: SampleStatus, c: SampleStatus, d: SampleStatus)
    requires StatusChanged(a, b) == StatusChanged(c, d)
    ensures a == c && b == d
  {
    StatusChangedRoundTrip(a, b);
    StatusChangedRoundTrip(c, d);
  }

  /** The registration text is never mistaken for a status change. */
  lemma RegisteredIsNotStatusChange(from: SampleStatus, to: SampleStatus)
    ensures StatusChanged(from, to) != REGISTERED
  {
    assert StatusChanged(from, to)[0] == 'S';
    assert StatusChanged(from, to)[1] == 't';
  }
}
