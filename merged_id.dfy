/** The public identifier under which the merged video is uploaded
    (controller/videoController.js, line 72): `merged_video_` followed by
    the ISO-8601 timestamp read when the engine reports `end`, with every
    `-`, `:` and `.` replaced by `_`. The timestamp is a parameter; the clock
    is not modelled. */
module MergedId {

  const Prefix: string := "merged_video_"

  /** The characters the regular expression `/[-:.]/g` matches. */
  predicate Replaced(c: char) {
    c == '-' || c == ':' || c == '.'
  }

  function ReplaceChar(c: char): char {
    if Replaced(c) then '_' else c
  }

  /** `ts.replace(/[-:.]/g, '_')`. */
  function Sanitize(ts: string): (r: string)
    ensures |r| == |ts|
    ensures forall i :: 0 <= i < |ts| ==> r[i] == (if Replaced(ts[i]) then '_' else ts[i])
    ensures forall i :: 0 <= i < |r| ==> !Replaced(r[i])
  {
    if |ts| == 0 then "" else [ReplaceChar(ts[0])] + Sanitize(ts[1..])
  }

  /** The upload's public identifier for the time `timestamp` at which the
      engine reported `end`. */
  function MergedVideoId(timestamp: string): (id: string)
    ensures |id| == |Prefix| + |timestamp| == 13 + |timestamp|
    ensures id[..13] == "merged_video_"
    ensures forall i :: 0 <= i < |id| ==> !Replaced(id[i])
    ensures forall i :: 0 <= i < |timestamp| && !Replaced(timestamp[i]) ==> id[13 + i] == timestamp[i]
    ensures forall i :: 0 <= i < |timestamp| && Replaced(timestamp[i]) ==> id[13 + i] == '_'
  {
    Prefix + Sanitize(timestamp)
  }

  /** Replacing a second time changes nothing. */
  lemma SanitizeIdempotent(ts: string)
    ensures Sanitize(Sanitize(ts)) == Sanitize(ts)
  {
  }

  /** The text `Date.prototype.toISOString` produces for a year between 0 and
      9999: `YYYY-MM-DDTHH:mm:ss.sssZ`. */
  predicate IsIsoTimestamp(ts: string) {
    && |ts| == 24
    && ts[4] == '-' && ts[7] == '-' && ts[10] == 'T'
    && ts[13] == ':' && ts[16] == ':' && ts[19] == '.' && ts[23] == 'Z'
    && forall i :: 0 <= i < 24 && !IsSeparatorPosition(i) ==> '0' <= ts[i] <= '9'
  }

  predicate IsSeparatorPosition(i: int) {
    i == 4 || i == 7 || i == 10 || i == 13 || i == 16 || i == 19 || i == 23
  }

  /** Distinct `end` timestamps give distinct upload identifiers: the replaced
      separators sit at fixed positions of an ISO timestamp, so the identifier
      loses nothing. */
  lemma IsoIdInjective(a: string, b: string)
    requires IsIsoTimestamp(a) && IsIsoTimestamp(b)
    ensures MergedVideoId(a) == MergedVideoId(b) <==> a == b
  {
    if MergedVideoId(a) == MergedVideoId(b) {
      assert Sanitize(a) == MergedVideoId(a)[13..];
      assert Sanitize(b) == MergedVideoId(b)[13..];
      SanitizedIsoInjective(a, b);
    }
  }

  /** The replacement loses nothing on ISO timestamps: their separators sit
      at fixed positions, and every other character is a digit. */
  lemma SanitizedIsoInjective(a: string, b: string)
    requires IsIsoTimestamp(a) && IsIsoTimestamp(b)
    requires Sanitize(a) == Sanitize(b)
    ensures a == b
  {
    forall i | 0 <= i < 24
      ensures a[i] == b[i]
    {
      if !IsSeparatorPosition(i) {
        assert Sanitize(a)[i] == a[i];
        assert Sanitize(b)[i] == b[i];
      }
    }
  }
}
