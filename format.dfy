/** The renderer's text formatters: element ids (`cssSafe`), spoken bus
    types (`speakBusType`), the route sentence (`routeSentence`) and the
    trip button's label (`tripLabel`). */
module Format {
  import opened Text
  import opened Timetable

  // --------------------------------------------------------------- cssSafe

  /** The characters `[a-zA-Z0-9_-]` that `cssSafe` keeps. */
  predicate IsCssChar(c: char)
  {
    ('a' <= c <= 'z') || ('A' <= c <= 'Z') || ('0' <= c <= '9') || c == '_' || c == '-'
  }

  predicate AllCss(s: string)
  {
    forall i :: 0 <= i < |s| ==> IsCssChar(s[i])
  }

  /** The global replacement of `/[^a-zA-Z0-9_-]+/` by `_`, scanning left to
      right; `inRun` says the previous character was already replaced. */
  function Replace(s: string, inRun: bool): string
  {
    if s == [] then []
    else if IsCssChar(s[0]) then [s[0]] + Replace(s[1..], false)
    else (if inRun then [] else "_") + Replace(s[1..], true)
  }

  /** `cssSafe`. */
  function CssSafe(s: string): string
  {
    Replace(s, false)
  }

  lemma {:induction false} ReplaceBounds(s: string, inRun: bool)
    ensures AllCss(Replace(s, inRun)) && |Replace(s, inRun)| <= |s|
  {
    if s != [] {
      ReplaceBounds(s[1..], !IsCssChar(s[0]));
    }
  }

  /** The result has only the allowed characters and is no longer than the
      input. */
  lemma CssSafeBounds(s: string)
    ensures AllCss(CssSafe(s)) && |CssSafe(s)| <= |s|
  {
    ReplaceBounds(s, false);
  }

  /** A run of allowed characters is copied unchanged. */
  lemma {:induction false} ReplaceAllowed(good: string, rest: string)
    requires AllCss(good)
    ensures Replace(good + rest, false) == good + Replace(rest, false)
  {
    if good != [] {
      assert (good + rest)[0] == good[0] && IsCssChar(good[0]);
      assert (good + rest)[1..] == good[1..] + rest;
      assert Replace(good + rest, false) == [good[0]] + Replace(good[1..] + rest, false);
      ReplaceAllowed(good[1..], rest);
      assert [good[0]] + (good[1..] + Replace(rest, false)) == good + Replace(rest, false);
    } else {
      assert good + rest == rest;
    }
  }

  /** A maximal run of other characters collapses to a single `_`. */
  lemma {:induction false} ReplaceRun(bad: string, rest: string, inRun: bool)
    requires forall i :: 0 <= i < |bad| ==> !IsCssChar(bad[i])
    requires bad != [] && (rest == [] || IsCssChar(rest[0]))
    ensures Replace(bad + rest, inRun) == (if inRun then "" else "_") + Replace(rest, false)
  {
    assert (bad + rest)[0] == bad[0];
    assert (bad + rest)[1..] == bad[1..] + rest;
    if |bad| > 1 {
      ReplaceRun(bad[1..], rest, true);
    }
  }

  /** `cssSafe` on allowed characters, then a maximal run of others, then
      the rest: the allowed part is kept, the run becomes one `_`, and the
      rest is processed alone. With `CssSafeOfAllowed` this determines the
      function on every input. */
  lemma CssSafeRun(good: string, bad: string, rest: string)
    requires AllCss(good)
    requires forall i :: 0 <= i < |bad| ==> !IsCssChar(bad[i])
    requires bad != [] && (rest == [] || IsCssChar(rest[0]))
    ensures CssSafe(good + bad + rest) == good + "_" + CssSafe(rest)
  {
    assert good + bad + rest == good + (bad + rest);
    ReplaceAllowed(good, bad + rest);
    ReplaceRun(bad, rest, false);
  }

  /** A string of allowed characters is its own `cssSafe`. */
  lemma CssSafeOfAllowed(s: string)
    requires AllCss(s)
    ensures CssSafe(s) == s
  {
    ReplaceAllowed(s, []);
    assert s + [] == s;
  }

  lemma CssSafeIdempotent(s: string)
    ensures CssSafe(CssSafe(s)) == CssSafe(s)
  {
    CssSafeBounds(s);
    CssSafeOfAllowed(CssSafe(s));
  }

  /** The allowed characters other than `_`, in order. */
  function Kept(s: string): string
  {
    if s == [] then []
    else (if IsCssChar(s[0]) && s[0] != '_' then [s[0]] else []) + Kept(s[1..])
  }

  lemma {:induction false} ReplaceKeeps(s: string, inRun: bool)
    ensures Kept(Replace(s, inRun)) == Kept(s)
  {
    if s != [] {
      ReplaceKeeps(s[1..], !IsCssChar(s[0]));
      var r := Replace(s[1..], !IsCssChar(s[0]));
      if IsCssChar(s[0]) {
        assert ([s[0]] + r)[1..] == r;
      } else if !inRun {
        assert ("_" + r)[0] == '_';
        assert ("_" + r)[1..] == r;
      } else {
        assert [] + r == r;
      }
    }
  }

  /** The allowed characters other than `_` are kept, in order; only `_`s
      are added or removed. */
  lemma CssSafeKeeps(s: string)
    ensures Kept(CssSafe(s)) == Kept(s)
  {
    ReplaceKeeps(s, false);
  }

  /** Two different keys can share an id: a space and an underscore give
      the same result. */
  lemma CssSafeMerges()
    ensures CssSafe("a b") == CssSafe("a_b") == "a_b"
  {
    CssSafeRun("a", " ", "b");
    assert "a" + " " + "b" == "a b";
    CssSafeOfAllowed("b");
    CssSafeOfAllowed("a_b");
  }

  // ---------------------------------------------------------- speakBusType

  /** `speakBusType`: `e22` and `e23` are read out as "E 22" and "E 23";
      every other code as "Semidirecte". */
  function SpeakBusType(bt: string): (r: string)
    ensures r == "E 22" <==> bt == "e22"
    ensures r == "E 23" <==> bt == "e23"
    ensures r == "Semidirecte" <==> bt != "e22" && bt != "e23"
  {
    if bt == "e22" then "E 22"
    else if bt == "e23" then "E 23"
    else "Semidirecte"
  }

  // --------------------------------------------------------- routeSentence

  /** "time stop" for one stop. */
  function StopPhrase(s: StopTime): string
  {
    s.time + " " + s.stop
  }

  function Phrases(stops: seq<StopTime>): seq<string>
  {
    seq(|stops|, i requires 0 <= i < |stops| => StopPhrase(stops[i]))
  }

  /** `routeSentence`. */
  function RouteSentence(stops: seq<StopTime>): string
  {
    "Recorregut: " + Join(Phrases(stops), "; ") + "."
  }

  /** A route of one stop reads "Recorregut: <time> <stop>.". */
  lemma RouteSentenceOne(s: StopTime)
    ensures RouteSentence([s]) == "Recorregut: " + s.time + " " + s.stop + "."
  {
    assert Phrases([s]) == [StopPhrase(s)];
  }

  /** One more stop replaces the final "." by "; <time> <stop>.". With
      `RouteSentenceOne` this determines the sentence of every route. */
  lemma RouteSentenceSnoc(stops: seq<StopTime>, s: StopTime)
    requires stops != []
    ensures var r := RouteSentence(stops);
            |r| >= 1 && RouteSentence(stops + [s]) == r[..|r| - 1] + "; " + s.time + " " + s.stop + "."
  {
    var ps := Phrases(stops + [s]);
    assert ps[..|ps| - 1] == Phrases(stops);
    var r := RouteSentence(stops);
    assert r[..|r| - 1] == "Recorregut: " + Join(Phrases(stops), "; ");
  }

  lemma RouteSentenceExample()
    ensures RouteSentence([StopTime("A", "08:00"), StopTime("B", "08:10")]) == "Recorregut: 08:00 A; 08:10 B."
  {
    RouteSentenceOne(StopTime("A", "08:00"));
    RouteSentenceSnoc([StopTime("A", "08:00")], StopTime("B", "08:10"));
    assert [StopTime("A", "08:00")] + [StopTime("B", "08:10")] == [StopTime("A", "08:00"), StopTime("B", "08:10")];
  }

  // ------------------------------------------------------------- tripLabel

  /** `tripLabel`: service, then departure, then arrival. */
  function TripLabel(t: Trip, bt: string): string
  {
    "Servei " + SpeakBusType(bt) + ". Sortida " + t.startTime + ". Arribada " + t.endTime + "."
  }

  /** For one bus type, the label tells departure and arrival apart: two
      trips whose departure texts have the same length (as `HH:MM` times
      do) share a label only when they share both times. */
  lemma TripLabelDetermines(t: Trip, u: Trip, bt: string)
    requires |t.startTime| == |u.startTime|
    requires TripLabel(t, bt) == TripLabel(u, bt)
    ensures t.startTime == u.startTime && t.endTime == u.endTime
  {
    var head := "Servei " + SpeakBusType(bt) + ". Sortida ";
    var mid := ". Arribada ";
    var a := TripLabel(t, bt);
    var b := TripLabel(u, bt);
    assert a == head + t.startTime + mid + t.endTime + ".";
    assert b == head + u.startTime + mid + u.endTime + ".";
    var n := |head|;
    var m := n + |t.startTime|;
    assert a[n..m] == t.startTime;
    assert b[n..m] == u.startTime;
    assert a[m + |mid|..|a| - 1] == t.endTime;
    assert b[m + |mid|..|b| - 1] == u.endTime;
  }

  lemma TripLabelExample()
    ensures TripLabel(Trip(Number(7), "08:00", "09:15", []), "e23") == "Servei E 23. Sortida 08:00. Arribada 09:15."
  {
  }
}
