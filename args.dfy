/** Argument checks of the diagnostic start command (StartDiag::validGpuListFormat
    and the parameter check of StartDiag::StartDiag). The tokenizer
    dcgmTokenizeString is outside the model; it is taken to cut the text at every
    delimiter, keeping empty pieces, and to give no token for the empty text. */
module DiagArgs {
  import opened Wrappers

  /** The pieces of `s` between occurrences of `d` (at least one piece). */
  function Pieces(s: string, d: char): (r: seq<string>)
    ensures |r| >= 1
  {
    if s == "" then [""]
    else
      var rest := Pieces(s[1..], d);
      if s[0] == d then [""] + rest else [[s[0]] + rest[0]] + rest[1..]
  }

  /** The tokens dcgmTokenizeString yields for `s` and delimiter `d`. */
  function Tokenize(s: string, d: char): seq<string>
  {
    if s == "" then [] else Pieces(s, d)
  }

  /** Pieces joined back with the delimiter between them. */
  function Join(ts: seq<string>, d: char): string
    requires |ts| >= 1
  {
    if |ts| == 1 then ts[0] else ts[0] + [d] + Join(ts[1..], d)
  }

  /** Cutting and joining again gives back the text, and no piece holds the
      delimiter. */
  lemma {:induction false} PiecesRoundTrip(s: string, d: char)
    ensures Join(Pieces(s, d), d) == s
    ensures forall k :: 0 <= k < |Pieces(s, d)| ==> d !in Pieces(s, d)[k]
  {
    if s != "" {
      PiecesRoundTrip(s[1..], d);
      var rest := Pieces(s[1..], d);
      if s[0] == d {
        assert Pieces(s, d) == [""] + rest;
        assert Pieces(s, d)[1..] == rest;
      } else {
        var ps := Pieces(s, d);
        assert ps == [[s[0]] + rest[0]] + rest[1..];
        if |rest| == 1 {
          assert ps == [[s[0]] + rest[0]];
        } else {
          assert ps[1..] == rest[1..];
          assert Join(rest, d) == rest[0] + [d] + Join(rest[1..], d);
        }
        assert forall k :: 1 <= k < |ps| ==> ps[k] == rest[k];
      }
    }
  }

  lemma TokenizeRoundTrip(s: string, d: char)
    requires s != ""
    ensures |Tokenize(s, d)| >= 1 && Join(Tokenize(s, d), d) == s
    ensures forall k :: 0 <= k < |Tokenize(s, d)| ==> d !in Tokenize(s, d)[k]
  {
    PiecesRoundTrip(s, d);
  }

  predicate IsDigit(c: char)
  {
    '0' <= c <= '9'
  }

  /** A token whose first character is a decimal digit; an empty token reads as
      the terminating NUL, which is not. */
  predicate StartsWithDigit(t: string)
  {
    |t| > 0 && IsDigit(t[0])
  }

  /** StartDiag::validGpuListFormat: every comma-separated token starts with a
      digit. The empty list (no token) is valid. */
  method ValidGpuListFormat(gpuList: string) returns (valid: bool)
    ensures valid <==> forall k :: 0 <= k < |Tokenize(gpuList, ',')| ==> StartsWithDigit(Tokenize(gpuList, ',')[k])
  {
    valid := true;
    var gpuIndices := Tokenize(gpuList, ',');
    var i := 0;
    while i < |gpuIndices|
      invariant i <= |gpuIndices|
      invariant valid
      invariant forall k :: 0 <= k < i ==> StartsWithDigit(gpuIndices[k])
    {
      if !StartsWithDigit(gpuIndices[i]) {
        valid := false;
        break;
      }
      i := i + 1;
    }
  }

  /** Each ';'-separated parameter has the form test_name.attr_name=attr_value,
      of which only the presence of '=' is checked. */
  predicate ParmsWellFormed(parms: string)
  {
    forall k :: 0 <= k < |Tokenize(parms, ';')| ==> '=' in Tokenize(parms, ';')[k]
  }

  /** The command-line errors StartDiag::StartDiag raises. */
  datatype ArgumentError = ImproperParms(parms: string) | BadGpuList(gpuList: string)

  /** The checks of StartDiag::StartDiag, in order: a non-empty parameter string
      is checked first; then the device list. Reading a configuration file, which
      happens only when no parameters are given, is not modelled. */
  method CheckStartArguments(parms: string, gpuList: string) returns (err: Option<ArgumentError>)
    ensures err == Some(ImproperParms(parms)) <==> !ParmsWellFormed(parms)
    ensures err == Some(BadGpuList(gpuList))
            <==> ParmsWellFormed(parms)
                 && !(forall k :: 0 <= k < |Tokenize(gpuList, ',')| ==> StartsWithDigit(Tokenize(gpuList, ',')[k]))
    ensures err.Some? ==> err == Some(ImproperParms(parms)) || err == Some(BadGpuList(gpuList))
  {
    if |parms| > 0 {
      var parmsVec := Tokenize(parms, ';');
      var i := 0;
      while i < |parmsVec|
        invariant i <= |parmsVec|
        invariant forall k :: 0 <= k < i ==> '=' in parmsVec[k]
      {
        if '=' !in parmsVec[i] {
          return Some(ImproperParms(parms));
        }
        i := i + 1;
      }
    }
    var valid := ValidGpuListFormat(gpuList);
    if !valid {
      return Some(BadGpuList(gpuList));
    }
    return None;
  }
}
