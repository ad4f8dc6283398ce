/** Text helpers of the diagnostic client (Diag::isWhitespace, Diag::Sanitize and
    the 45-character line splitting of Diag::DisplayVerboseInfo). */
module DiagText {
  import opened Wrappers

  /** The width of the information column of the result table (DATA_INFO_TAG_LEN). */
  const InfoWidth: nat := 45

  const Marker: string := "***"

  /** Diag::isWhitespace: exactly space, newline, tab, carriage return and form
      feed; vertical tab is not among them. */
  predicate IsWhitespace(c: char)
  {
    match c
    case ' ' => true
    case '\n' => true
    case '\t' => true
    case '\r' => true
    case '\U{000C}' => true
    case _ => false
  }

  lemma WhitespaceCharacters(c: char)
    ensures IsWhitespace(c) <==> c in [' ', '\n', '\t', '\r', '\U{000C}']
    ensures !IsWhitespace('\U{000B}')
  {
  }

  /** Every character of `s` in [lo, hi) is whitespace. */
  predicate WhitespaceBetween(s: string, lo: nat, hi: nat)
  {
    forall i :: lo <= i < hi && i < |s| ==> IsWhitespace(s[i])
  }

  predicate MarkerAt(s: string, p: nat)
  {
    p + |Marker| <= |s| && s[p..p + |Marker|] == Marker
  }

  /** std::string::find("***", from): the first position at or after `from` where
      the marker starts. */
  function FindMarker(s: string, from: nat): (r: Option<nat>)
    decreases |s| - from
    ensures r.Some? ==> from <= r.value && MarkerAt(s, r.value)
    ensures r.Some? ==> forall p :: from <= p < r.value ==> !MarkerAt(s, p)
    ensures r.None? ==> forall p :: from <= p ==> !MarkerAt(s, p)
  {
    if from + |Marker| > |s| then None
    else if s[from..from + |Marker|] == Marker then Some(from)
    else FindMarker(s, from + 1)
  }

  /** The text that remains once the first "***" and everything before it are
      removed; the whole text if there is no marker. */
  function AfterMarker(s: string): (r: string)
    ensures (forall p: nat :: !MarkerAt(s, p)) ==> r == s
    ensures forall p: nat :: MarkerAt(s, p) && (forall q: nat :: q < p ==> !MarkerAt(s, q)) ==> r == s[p + |Marker|..]
  {
    match FindMarker(s, 0)
    case Some(p) => s[p + |Marker|..]
    case None => s
  }

  /** `r` is a contiguous piece of `base` with only whitespace cut off around it. */
  predicate TrimmedOf(base: string, r: string)
  {
    exists lo, hi :: 0 <= lo <= hi <= |base| && r == base[lo..hi]
                     && WhitespaceBetween(base, 0, lo) && WhitespaceBetween(base, hi, |base|)
  }

  /** Diag::Sanitize: drops everything up to and including the first "***",
      erases trailing whitespace, then skips leading whitespace. The leading scan
      stops inside the string because a non-empty string has a non-whitespace last
      character at that point. */
  method Sanitize(toOutput: string) returns (r: string)
    ensures TrimmedOf(AfterMarker(toOutput), r)
    ensures r != [] ==> !IsWhitespace(r[0]) && !IsWhitespace(r[|r| - 1])
  {
    var sanitized := AfterMarker(toOutput);
    r := Trim(sanitized);
  }

  /** The whitespace steps of Diag::Sanitize: trailing whitespace is erased, then
      leading whitespace skipped. */
  method Trim(base: string) returns (r: string)
    ensures TrimmedOf(base, r)
    ensures r != [] ==> !IsWhitespace(r[0]) && !IsWhitespace(r[|r| - 1])
  {
    var sanitized := base;
    // Trailing whitespace first, one character at a time.
    while |sanitized| > 0 && IsWhitespace(sanitized[|sanitized| - 1])
      invariant |sanitized| <= |base| && sanitized == base[..|sanitized|]
      invariant WhitespaceBetween(base, |sanitized|, |base|)
    {
      sanitized := sanitized[..|sanitized| - 1];
    }

    var pos: nat := 0;
    while |sanitized| > 0 && IsWhitespace(sanitized[pos])
      invariant |sanitized| > 0 ==> pos < |sanitized|
      invariant |sanitized| == 0 ==> pos == 0
      invariant WhitespaceBetween(base, 0, pos)
      decreases |sanitized| - pos
    {
      pos := pos + 1;
    }
    r := sanitized[pos..];
    TrimmedWitness(base, |sanitized|, pos);
  }

  lemma TrimmedWitness(base: string, hi: nat, lo: nat)
    requires lo <= hi <= |base|
    requires WhitespaceBetween(base, 0, lo) && WhitespaceBetween(base, hi, |base|)
    ensures TrimmedOf(base, base[lo..hi])
  {
  }

  /** A row of the result table: the name column and the information column. */
  datatype Row = Row(name: string, info: string)

  function Infos(rows: seq<Row>): string
  {
    if rows == [] then "" else Infos(rows[..|rows| - 1]) + rows[|rows| - 1].info
  }

  /** Diag::DisplayVerboseInfo: the rows it displays for `info` under the label
      `name`. The information is cut into pieces of 45 characters, the last one
      possibly shorter; only the first row carries the label. */
  method DisplayVerboseInfo(name: string, info: string) returns (rows: seq<Row>)
    ensures |rows| == (|info| + InfoWidth - 1) / InfoWidth
    ensures Infos(rows) == info
    ensures forall k :: 0 <= k < |rows| ==> rows[k].name == (if k == 0 then name else "")
    ensures forall k :: 0 <= k < |rows| - 1 ==> |rows[k].info| == InfoWidth
    ensures |rows| > 0 ==> 0 < |rows[|rows| - 1].info| <= InfoWidth
  {
    rows := [];
    var pos: nat := 0;
    while pos < |info|
      invariant pos == InfoWidth * |rows|
      invariant pos <= |info| || (pos - InfoWidth < |info| && |rows| > 0)
      invariant Infos(rows) == info[..if pos <= |info| then pos else |info|]
      invariant forall k :: 0 <= k < |rows| ==> rows[k].name == (if k == 0 then name else "")
      invariant forall k :: 0 <= k < |rows| - 1 ==> |rows[k].info| == InfoWidth
      invariant |rows| > 0 ==> 0 < |rows[|rows| - 1].info| <= InfoWidth
      invariant |rows| > 0 && pos < |info| ==> |rows[|rows| - 1].info| == InfoWidth
    {
      var rowName := if pos == 0 then name else "";
      var end := if pos + InfoWidth <= |info| then pos + InfoWidth else |info|;
      var chunk := info[pos..end];
      assert info[..end] == info[..pos] + chunk;
      rows := rows + [Row(rowName, chunk)];
      pos := pos + InfoWidth;
    }
    assert info[..|info|] == info;
  }
}
