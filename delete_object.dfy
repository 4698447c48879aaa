/**
 * DeleteObject.execute: read the `forced` property as a case-insensitive
 * "true" or "false", then purge the object with the given pid and log
 * message, and push the purge time to the `delete_time` port.
 */
module DeleteObject {
  import opened Wrappers
  import opened Meandre

  /** The output port of the purge time. */
  const DeleteTime: string := "delete_time"

  /**
   * The character `String.compareToIgnoreCase` compares `c` as: ASCII capitals
   * become small letters, and the four non-ASCII characters whose Java case
   * conversion lands on an ASCII letter (long s, dotless i, dotted capital I
   * and the Kelvin sign) become that letter.
   */
  function Fold(c: char): char
  {
    if 'A' <= c <= 'Z' then (c as int - 'A' as int + 'a' as int) as char
    else if c == '\U{017F}' then 's'
    else if c == '\U{0131}' || c == '\U{0130}' then 'i'
    else if c == '\U{212A}' then 'k'
    else c
  }

  /** The string with every character folded. */
  function Lower(s: string): (r: string)
    ensures |r| == |s|
    ensures forall i :: 0 <= i < |s| ==> r[i] == Fold(s[i])
    decreases |s|
  {
    if s == [] then [] else [Fold(s[0])] + Lower(s[1..])
  }

  /** `a.compareToIgnoreCase(b) == 0`: the same length and, position by position, the same folded character. */
  function SameIgnoringCase(a: string, b: string): (r: bool)
    ensures r <==> |a| == |b| && forall i :: 0 <= i < |a| ==> Fold(a[i]) == Fold(b[i])
    decreases |a|
  {
    if a == [] || b == [] then a == b
    else Fold(a[0]) == Fold(b[0]) && SameIgnoringCase(a[1..], b[1..])
  }

  /** Ignoring case, two strings compare equal exactly when their folded forms are equal. */
  lemma {:induction false} SameIgnoringCaseIsLower(a: string, b: string)
    ensures SameIgnoringCase(a, b) <==> Lower(a) == Lower(b)
    decreases |a|
  {
    if a != [] && b != [] {
      SameIgnoringCaseIsLower(a[1..], b[1..]);
      assert Lower(a) == [Fold(a[0])] + Lower(a[1..]);
      assert Lower(b) == [Fold(b[0])] + Lower(b[1..]);
      if Lower(a) == Lower(b) {
        assert Lower(a)[1..] == Lower(a[1..]);
        assert Lower(b)[1..] == Lower(b[1..]);
      }
    }
  }

  /** The `forced` flag: true for "true" and false for "false" in any case, None for anything else. */
  function ParseForced(s: string): (r: Option<bool>)
    ensures r == Some(true) <==> Lower(s) == "true"
    ensures r == Some(false) <==> Lower(s) == "false"
    ensures r == None <==> Lower(s) != "true" && Lower(s) != "false"
  {
    SameIgnoringCaseIsLower(s, "true");
    SameIgnoringCaseIsLower(s, "false");
    assert Lower("true") == "true";
    assert Lower("false") == "false";
    if SameIgnoringCase(s, "true") then Some(true)
    else if SameIgnoringCase(s, "false") then Some(false)
    else None
  }

  /** The flag's two spellings read back as the flag. */
  lemma ParseForcedRoundTrip(b: bool)
    ensures ParseForced(if b then "true" else "false") == Some(b)
  {
  }

  /** The parse sees only the folded string: any spelling parses as its folded form does. */
  lemma ParseForcedSeesFolded(s: string)
    ensures ParseForced(s) == ParseForced(Lower(s))
  {
    LowerIdempotent(s);
    var folded := Lower(s);
    assert Lower(folded) == folded;
  }

  lemma LowerIdempotent(s: string)
    ensures Lower(Lower(s)) == Lower(s)
  {
  }

  /** The arguments of one `purgeObject` call. */
  datatype PurgeRequest = PurgeRequest(pid: string, logMessage: string, forced: bool)

  /** `purgeObject`: the purge time, or None when the call throws. */
  type Purger = PurgeRequest -> Option<string>

  /**
   * Both copies of the component. `purged` is the purge call made, if any:
   * the flag is checked before the APIM input is read, so an invalid flag
   * leaves the repository untouched.
   */
  method Execute(pid: string, logMessage: string, forcedProperty: string, purge: Purger)
    returns (purged: Option<PurgeRequest>, pushes: seq<Push>, thrown: Option<Thrown>)
    ensures ParseForced(forcedProperty).None? ==>
      purged == None && pushes == [] && thrown == Some(ComponentExecution(InvalidForced))
    ensures ParseForced(forcedProperty).Some? ==>
      var request := PurgeRequest(pid, logMessage, ParseForced(forcedProperty).value);
      && purged == Some(request)
      && match purge(request)
         case None => pushes == [] && thrown == Some(ComponentExecution(RemoteFault))
         case Some(time) => pushes == [Push(DeleteTime, Text(time))] && thrown == None
  {
    purged, pushes, thrown := None, [], None;
    var forced := false;
    if SameIgnoringCase(forcedProperty, "true") {
      forced := true;
    } else if SameIgnoringCase(forcedProperty, "false") {
      forced := false;
    } else {
      // thrown inside the try block, so the catch-all wraps it once more
      thrown := Some(ComponentExecution(InvalidForced));
      return;
    }
    var request := PurgeRequest(pid, logMessage, forced);
    purged := Some(request);
    var purgeDateTime := purge(request);
    if purgeDateTime.None? {
      thrown := Some(ComponentExecution(RemoteFault));
      return;
    }
    pushes := [Push(DeleteTime, Text(purgeDateTime.value))];
  }
}
