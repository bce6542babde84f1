/** Searching stop names by upper-cased prefix (`has_prefix`, `idx_first`,
    `idx_last`) and the bus-type rule built on it (`classify_bus_type`). */
module StopSearch {
  import opened Wrappers
  import opened Text

  /** The upper-cased name starts with one of the prefixes. */
  predicate MatchesAny(name: string, prefixes: seq<string>)
  {
    exists k :: 0 <= k < |prefixes| && StartsWith(Upper(name), prefixes[k])
  }

  /** Some stop matches one of the prefixes. */
  predicate AnyStopMatches(stops: seq<string>, prefixes: seq<string>)
  {
    exists i :: 0 <= i < |stops| && MatchesAny(stops[i], prefixes)
  }

  /** The smallest index of a matching stop, if any. */
  function FirstMatch(stops: seq<string>, prefixes: seq<string>): (r: Option<nat>)
    ensures r.None? <==> !AnyStopMatches(stops, prefixes)
    ensures r.Some? ==> r.value < |stops| && MatchesAny(stops[r.value], prefixes)
    ensures r.Some? ==> forall j :: 0 <= j < r.value ==> !MatchesAny(stops[j], prefixes)
  {
    if stops == [] then None
    else if MatchesAny(stops[0], prefixes) then Some(0)
    else
      match FirstMatch(stops[1..], prefixes)
      case None =>
        assert forall i :: 1 <= i < |stops| ==> stops[i] == stops[1..][i - 1];
        None
      case Some(k) =>
        assert forall j :: 1 <= j <= k ==> stops[j] == stops[1..][j - 1];
        Some(k + 1)
  }

  /** The largest index of a matching stop, if any. */
  function LastMatch(stops: seq<string>, prefixes: seq<string>): (r: Option<nat>)
    ensures r.None? <==> !AnyStopMatches(stops, prefixes)
    ensures r.Some? ==> r.value < |stops| && MatchesAny(stops[r.value], prefixes)
    ensures r.Some? ==> forall j :: r.value < j < |stops| ==> !MatchesAny(stops[j], prefixes)
  {
    if stops == [] then None
    else if MatchesAny(stops[|stops| - 1], prefixes) then Some(|stops| - 1)
    else
      var r := LastMatch(stops[..|stops| - 1], prefixes);
      assert forall i :: 0 <= i < |stops| - 1 ==> stops[i] == stops[..|stops| - 1][i];
      r
  }

  /** Whenever both searches succeed, the first match is not after the last. */
  lemma FirstNotAfterLast(stops: seq<string>, prefixes: seq<string>)
    ensures FirstMatch(stops, prefixes).Some? <==> LastMatch(stops, prefixes).Some?
    ensures FirstMatch(stops, prefixes).Some? ==>
              FirstMatch(stops, prefixes).value <= LastMatch(stops, prefixes).value
  {
  }

  /** The inner loop over `prefixes` shared by the three searches. */
  method StartsWithAny(name: string, prefixes: seq<string>) returns (b: bool)
    ensures b == MatchesAny(name, prefixes)
  {
    var up := Upper(name);
    var k := 0;
    while k < |prefixes|
      invariant 0 <= k <= |prefixes|
      invariant forall q :: 0 <= q < k ==> !StartsWith(up, prefixes[q])
    {
      if StartsWith(up, prefixes[k]) {
        return true;
      }
      k := k + 1;
    }
    return false;
  }

  /** `has_prefix`. */
  method HasPrefix(stops: seq<string>, prefixes: seq<string>) returns (b: bool)
    ensures b == AnyStopMatches(stops, prefixes)
  {
    var i := 0;
    while i < |stops|
      invariant 0 <= i <= |stops|
      invariant forall j :: 0 <= j < i ==> !MatchesAny(stops[j], prefixes)
    {
      var m := StartsWithAny(stops[i], prefixes);
      if m {
        return true;
      }
      i := i + 1;
    }
    return false;
  }

  /** `idx_first`: scans forwards and returns the first matching index. */
  method IdxFirst(stops: seq<string>, prefixes: seq<string>) returns (r: Option<nat>)
    ensures r == FirstMatch(stops, prefixes)
  {
    var i := 0;
    while i < |stops|
      invariant 0 <= i <= |stops|
      invariant forall j :: 0 <= j < i ==> !MatchesAny(stops[j], prefixes)
    {
      var m := StartsWithAny(stops[i], prefixes);
      if m {
        return Some(i);
      }
      i := i + 1;
    }
    return None;
  }

  /** `idx_last`: scans backwards and returns the last matching index. */
  method IdxLast(stops: seq<string>, prefixes: seq<string>) returns (r: Option<nat>)
    ensures r == LastMatch(stops, prefixes)
  {
    var i := |stops|;
    while i > 0
      invariant 0 <= i <= |stops|
      invariant forall j :: i <= j < |stops| ==> !MatchesAny(stops[j], prefixes)
    {
      var m := StartsWithAny(stops[i - 1], prefixes);
      if m {
        return Some(i - 1);
      }
      i := i - 1;
    }
    return None;
  }

  const OlesaMonistrol: seq<string> := ["OLESA", "MONISTROL"]
  const Manresa: seq<string> := ["MANRESA"]
  const Barcelona: seq<string> := ["BCN"]

  /** `classify_bus_type`: the stripped, lower-cased raw type is kept when it
      is `e22` or `e23`, anything else (including a missing value) becomes
      `semidirecte`; an `e23` that passes through Manresa but through neither
      Olesa nor Monistrol is re-labelled `e22`. */
  function ClassifyBusType(stops: seq<string>, rawType: Option<string>): (bt: string)
    ensures bt == "e22" || bt == "e23" || bt == "semidirecte"
    ensures Lower(Strip(rawType.GetOr(""))) == "e22" ==> bt == "e22"
    ensures Lower(Strip(rawType.GetOr(""))) !in {"e22", "e23"} ==> bt == "semidirecte"
    ensures Lower(Strip(rawType.GetOr(""))) == "e23" ==>
              (bt == "e22" <==> AnyStopMatches(stops, Manresa) && !AnyStopMatches(stops, OlesaMonistrol))
              && bt != "semidirecte"
  {
    var raw := Lower(Strip(rawType.GetOr("")));
    var bt := if raw == "e22" || raw == "e23" then raw else "semidirecte";
    if bt == "e23" && AnyStopMatches(stops, Manresa) && !AnyStopMatches(stops, OlesaMonistrol) then "e22"
    else bt
  }
}
