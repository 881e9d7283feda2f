/**
 `isTransientDBError` of the database example: a nil error is never
 transient; otherwise the lower-cased message is searched for a handful of
 substrings that signal a connection failure, a deadlock or a timeout.
 */
module DatabaseErrors {

  import opened Wrappers

  /** The substrings searched for, in the order the source tests them. */
  const TransientMarkers: seq<string> := ["connection refused", "connection reset", "broken pipe", "deadlock", "timeout"]

  /** Lower-casing of one character; only ASCII letters change. */
  function LowerChar(c: char): char
  {
    if 'A' <= c <= 'Z' then (c as int - 'A' as int + 'a' as int) as char else c
  }

  /** `strings.ToLower` on ASCII text: the same length, each character lower-cased. */
  function ToLower(s: string): (r: string)
    ensures |r| == |s|
    ensures forall i :: 0 <= i < |s| ==> r[i] == LowerChar(s[i])
  {
    if s == [] then [] else [LowerChar(s[0])] + ToLower(s[1..])
  }

  /** `sub` occurs in `s` starting at position `i`. */
  predicate OccursAt(s: string, sub: string, i: int)
  {
    0 <= i && i + |sub| <= |s| && s[i..i + |sub|] == sub
  }

  /** `strings.Contains`: some position of `s` starts an occurrence of `sub`. */
  function Contains(s: string, sub: string): (r: bool)
    ensures r <==> exists i :: OccursAt(s, sub, i)
    decreases |s|
  {
    if |sub| > |s| then
      assert forall i :: !OccursAt(s, sub, i);
      false
    else if s[..|sub|] == sub then
      assert OccursAt(s, sub, 0);
      true
    else
      OccursShift(s, sub);
      Contains(s[1..], sub)
  }

  /** Past the first position, occurrences in `s` are the occurrences in `s[1..]`, shifted by one. */
  lemma OccursShift(s: string, sub: string)
    requires |s| > 0
    ensures forall i :: OccursAt(s[1..], sub, i) ==> OccursAt(s, sub, i + 1)
    ensures forall i :: OccursAt(s, sub, i) && i > 0 ==> OccursAt(s[1..], sub, i - 1)
  {
  }

  /**
   `isTransientDBError`. The message of a non-nil error is lower-cased, then
   searched for each marker; a nil error (`None`) is never transient.
   */
  function IsTransientDBError(err: Option<string>): (r: bool)
    ensures err.None? ==> !r
    ensures err.Some? ==>
              (r <==> exists k :: 0 <= k < |TransientMarkers| && Contains(ToLower(err.value), TransientMarkers[k]))
  {
    match err
    case None => false
    case Some(msg) =>
      var errStr := ToLower(msg);
      assert TransientMarkers[0] == "connection refused" && TransientMarkers[1] == "connection reset";
      assert TransientMarkers[2] == "broken pipe" && TransientMarkers[3] == "deadlock";
      assert TransientMarkers[4] == "timeout";
      // connection errors
      if Contains(errStr, "connection refused") || Contains(errStr, "connection reset")
         || Contains(errStr, "broken pipe") then
        true
      else if Contains(errStr, "deadlock") then
        true
      else if Contains(errStr, "timeout") then
        true
      else
        false
  }

  /** Lower-casing twice is lower-casing once. */
  lemma ToLowerIdempotent(s: string)
    ensures ToLower(ToLower(s)) == ToLower(s)
  {
  }

  /** Lower-casing distributes over concatenation. */
  lemma ToLowerConcat(a: string, b: string)
    ensures ToLower(a + b) == ToLower(a) + ToLower(b)
  {
  }

  /** Matching ignores case: a message and its lower-cased form are classified alike. */
  lemma CaseInsensitive(msg: string)
    ensures IsTransientDBError(Some(ToLower(msg))) == IsTransientDBError(Some(msg))
  {
    ToLowerIdempotent(msg);
  }

  /**
   A message is transient as soon as it contains one of the markers, written
   in any mix of upper and lower case, anywhere in it.
   */
  lemma MarkerMakesTransient(prefix: string, word: string, suffix: string)
    requires ToLower(word) in TransientMarkers
    ensures IsTransientDBError(Some(prefix + word + suffix))
  {
    var lowered := ToLower(prefix + word + suffix);
    ToLowerConcat(prefix + word, suffix);
    ToLowerConcat(prefix, word);
    assert lowered == ToLower(prefix) + ToLower(word) + ToLower(suffix);
    assert OccursAt(lowered, ToLower(word), |prefix|) by {
      assert lowered[|prefix|..|prefix| + |word|] == ToLower(word);
    }
  }
}
