/** Data URLs (section 3 of RFC 2397, base64 form only): the string the
    service builds from an inline image part, and the way the application
    takes such a string apart again. */
module DataUrls {
  import opened Wrappers
  import opened Strings
  import opened Types

  const Scheme := "data:"
  const Marker := ";base64,"

  /** `data:<mime>;base64,<payload>`, the result string of every image call. */
  function Format(mimeType: string, payload: string): (r: string)
    ensures SchemeAt(r, 0) && |r| == |Scheme| + |mimeType| + |Marker| + |payload|
    // The scheme, the mime type unchanged, then the marker and the payload.
    ensures Frames(r, Scheme, mimeType, Marker + payload)
    ensures EndsWith(r, payload) && r[|Scheme| + |mimeType|..|Scheme| + |mimeType| + |Marker|] == Marker
  {
    var r := Scheme + mimeType + Marker + payload;
    assert r[..|Scheme|] == Scheme;
    Framed(Scheme, mimeType, Marker + payload);
    assert Scheme + mimeType + (Marker + payload) == r;
    Framed(Scheme + mimeType, Marker, payload);
    r
  }

  /** The characters JavaScript's `.` does not match. */
  predicate IsLineTerminator(c: char) {
    c == '\n' || c == '\r' || c == '\U{2028}' || c == '\U{2029}'
  }

  predicate SchemeAt(s: string, i: int) {
    0 <= i && i + |Scheme| <= |s| && s[i..i + |Scheme|] == Scheme
  }

  predicate MarkerAt(s: string, j: int) {
    0 <= j && j + |Marker| <= |s| && s[j..j + |Marker|] == Marker
  }

  predicate NoLineBreak(s: string, lo: int, hi: int)
    requires 0 <= lo <= hi <= |s|
  {
    forall k | lo <= k < hi :: !IsLineTerminator(s[k])
  }

  /** The regular expression `/data:(.*);base64,/` can match `s` with
      "data:" at `i` and ";base64," at `j`; the capture is `s[i + 5..j]`. */
  predicate MatchAt(s: string, i: int, j: int) {
    SchemeAt(s, i) && i + |Scheme| <= j && MarkerAt(s, j) && NoLineBreak(s, i + |Scheme|, j)
  }

  /** The match JavaScript reports: the leftmost start, and for it the
      longest capture (`.*` is greedy). */
  ghost predicate LeftmostGreedy(s: string, i: int, j: int) {
    && MatchAt(s, i, j)
    && (forall j' :: j < j' ==> !MatchAt(s, i, j'))
    && (forall i', j' :: 0 <= i' < i ==> !MatchAt(s, i', j'))
  }

  /** The end of the run of non-terminators that starts at `k`. */
  function LineRun(s: string, k: nat): (m: nat)
    requires k <= |s|
    ensures k <= m <= |s| && NoLineBreak(s, k, m)
    ensures m == |s| || IsLineTerminator(s[m])
    decreases |s| - k
  {
    if k == |s| || IsLineTerminator(s[k]) then k else LineRun(s, k + 1)
  }

  /** The greatest `j` in `[lo, hi]` at which the marker starts. */
  function LastMarker(s: string, lo: nat, hi: int): (r: Option<nat>)
    ensures r.Some? ==> lo <= r.value <= hi && MarkerAt(s, r.value)
    ensures r.Some? ==> forall j :: r.value < j <= hi ==> !MarkerAt(s, j)
    ensures r.None? ==> forall j :: lo <= j <= hi ==> !MarkerAt(s, j)
    decreases hi - lo
  {
    if hi < lo then None
    else if MarkerAt(s, hi) then Some(hi)
    else LastMarker(s, lo, hi - 1)
  }

  /** The greedy capture end for a match starting at `i`, if any. */
  function GreedyEnd(s: string, i: nat): (r: Option<nat>)
    ensures r.Some? ==> MatchAt(s, i, r.value) && forall j :: r.value < j ==> !MatchAt(s, i, j)
    ensures r.None? ==> forall j :: !MatchAt(s, i, j)
  {
    if SchemeAt(s, i) then
      var m := LineRun(s, i + |Scheme|);
      var r := LastMarker(s, i + |Scheme|, m);
      assert forall j :: MatchAt(s, i, j) ==> j <= m;
      r
    else None
  }

  /** The leftmost match starting at or after `i`. */
  function FirstMatch(s: string, i: nat): (r: Option<(nat, nat)>)
    ensures r.Some? ==> i <= r.value.0 && MatchAt(s, r.value.0, r.value.1)
    ensures r.Some? ==> forall j :: r.value.1 < j ==> !MatchAt(s, r.value.0, j)
    ensures r.Some? ==> forall i', j :: i <= i' < r.value.0 ==> !MatchAt(s, i', j)
    ensures r.None? ==> forall i', j :: i <= i' ==> !MatchAt(s, i', j)
    decreases |s| + 1 - i
  {
    if i > |s| then None
    else
      match GreedyEnd(s, i)
      case Some(j) => Some((i, j))
      case None => FirstMatch(s, i + 1)
  }

  /** `s.match(/data:(.*);base64,/)[1]`: the captured mime type, or absent
      when the expression does not match. */
  function MatchMimeType(s: string): (r: Option<string>)
    ensures r.None? <==> forall i, j :: !MatchAt(s, i, j)
    ensures r.Some? ==> exists i, j :: LeftmostGreedy(s, i, j) && r.value == s[i + |Scheme|..j]
  {
    match FirstMatch(s, 0)
    case Some((i, j)) =>
      assert LeftmostGreedy(s, i, j);
      Some(s[i + |Scheme|..j])
    case None => None
  }

  /** The index of the first `c` in `s`. */
  function IndexOf(s: string, c: char): (r: Option<nat>)
    ensures r.None? <==> c !in s
    ensures r.Some? ==> r.value < |s| && s[r.value] == c && c !in s[..r.value]
  {
    if |s| == 0 then None
    else if s[0] == c then Some(0)
    else
      match IndexOf(s[1..], c)
      case Some(k) =>
        assert s[..k + 1] == [s[0]] + s[1..][..k];
        Some(k + 1)
      case None => None
  }

  /** `s.split(',')[1]`: the text between the first comma and the next comma
      (or the end of `s`); absent (`undefined`) when `s` has no comma. */
  function SecondField(s: string): (r: Option<string>)
    ensures r.None? <==> ',' !in s
    ensures r.Some? ==> ',' !in r.value
    ensures r.Some? ==> exists i | 0 <= i < |s| ::
      && s[i] == ',' && ',' !in s[..i] && i + 1 + |r.value| <= |s|
      && s[i + 1..i + 1 + |r.value|] == r.value
      && (i + 1 + |r.value| == |s| || s[i + 1 + |r.value|] == ',')
  {
    match IndexOf(s, ',')
    case None => None
    case Some(i) =>
      var rest := s[i + 1..];
      match IndexOf(rest, ',')
      case None =>
        assert s[i + 1..i + 1 + |rest|] == rest;
        Some(rest)
      case Some(k) =>
        assert s[i + 1..i + 1 + k] == rest[..k] && s[i + 1 + k] == rest[k];
        Some(rest[..k])
  }

  /** The payload the application stores for a data URL: the second comma
      field, or the empty string where JavaScript would yield `undefined`. */
  function PayloadOf(s: string): string {
    SecondField(s).GetOr("")
  }

  /** A match of the expression always has a comma (the one in ";base64,"). */
  lemma MatchHasComma(s: string, i: int, j: int)
    requires MatchAt(s, i, j)
    ensures ',' in s
  {
    assert s[j..j + |Marker|][7] == s[j + 7];
  }

  /** Whenever the mime type is captured, the URL also has a second field. */
  lemma MatchedHasPayload(s: string)
    requires MatchMimeType(s).Some?
    ensures SecondField(s).Some?
  {
    var i, j :| LeftmostGreedy(s, i, j);
    MatchHasComma(s, i, j);
  }

  /** Formatting an image as a data URL and parsing it back recovers the
      mime type and the payload, provided neither holds a comma and the mime
      type holds no line terminator (base64 payloads never hold a comma). */
  lemma {:induction false} ParseFormat(mimeType: string, payload: string)
    requires ',' !in mimeType && ',' !in payload
    requires forall k | 0 <= k < |mimeType| :: !IsLineTerminator(mimeType[k])
    ensures MatchMimeType(Format(mimeType, payload)) == Some(mimeType)
    ensures SecondField(Format(mimeType, payload)) == Some(payload)
  {
    var s := Format(mimeType, payload);
    var e := |Scheme| + |mimeType|;
    assert s[..|Scheme|] == Scheme;
    assert s[|Scheme|..e] == mimeType;
    assert s[e..e + |Marker|] == Marker;
    assert s[e + |Marker|..] == payload;
    assert MatchAt(s, 0, e);
    forall k | e + |Marker| <= k < |s| ensures s[k] != ',' {
      assert s[e + |Marker|..][k - e - |Marker|] == s[k];
    }
    forall j | e < j ensures !MatchAt(s, 0, j) {
      if j + |Marker| <= |s| {
        assert s[j..j + |Marker|][7] == s[j + 7];
      }
    }
    assert LeftmostGreedy(s, 0, e);
    var r := MatchMimeType(s);
    var i, j :| LeftmostGreedy(s, i, j) && r.value == s[i + |Scheme|..j];
    assert i == 0;
    assert j == e;
    // The first comma of `s` closes the marker.
    var c := e + |Marker| - 1;
    assert s[c] == ',';
    assert s[..c] == Scheme + mimeType + ";base64";
    assert ',' !in s[..c];
    assert s[c + 1..] == payload;
  }
}
