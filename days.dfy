/** Day types: the three canonical names and `day_bucket`, which maps the
    CSV's free-text `Tipus_dia` onto them. */
module Days {
  import opened Wrappers
  import opened Text

  const Weekdays: string := "Dilluns a divendres feiners, excepte agost"
  const Saturdays: string := "Dissabtes i Festius"
  const Sundays: string := "Diumenges, excepte festiu"

  /** `DAY_ORDER`. */
  const DayOrder: seq<string> := [Weekdays, Saturdays, Sundays]

  /** The first canonical name equal to `low` ignoring case (the loop over
      `DAY_ORDER` with its early return). */
  function ExactDay(low: string, names: seq<string>): (r: Option<string>)
    ensures r.Some? ==> r.value in names && Lower(r.value) == low
    ensures r.None? ==> forall d :: d in names ==> Lower(d) != low
  {
    if names == [] then None
    else if low == Lower(names[0]) then Some(names[0])
    else ExactDay(low, names[1..])
  }

  /** `day_bucket`: an exact case-insensitive match wins; otherwise the first
      keyword found decides, "diumenge" before "dissabte"/"festiu" before
      "dilluns"/"feiner"; otherwise the stripped input comes back. */
  function DayBucket(raw: string): string
  {
    var s := Strip(raw);
    var low := Lower(s);
    match ExactDay(low, DayOrder)
    case Some(d) => d
    case None =>
      if Contains(low, "diumenge") then Sundays
      else if Contains(low, "dissabte") || Contains(low, "festiu") then Saturdays
      else if Contains(low, "dilluns") || Contains(low, "feiner") then Weekdays
      else s
  }

  predicate HasDayKeyword(low: string)
  {
    Contains(low, "diumenge") || Contains(low, "dissabte") || Contains(low, "festiu")
    || Contains(low, "dilluns") || Contains(low, "feiner")
  }

  lemma WeekdaysLacksM()
    ensures 'm' !in Weekdays && 'M' !in Weekdays
  {
  }

  lemma WeekdaysLacksB()
    ensures 'b' !in Weekdays && 'B' !in Weekdays
  {
  }

  /** The lower-cased weekday name starts with "dilluns" and, having no
      `m` and no `b`, contains neither "diumenge" nor "dissabte". */
  lemma WeekdaysName()
    ensures Lower(Weekdays)[2] == 'l'
    ensures Contains(Lower(Weekdays), "dilluns")
    ensures !Contains(Lower(Weekdays), "diumenge") && !Contains(Lower(Weekdays), "dissabte")
  {
    var w := Weekdays;
    assert w[0] == 'D' && w[1] == 'i' && w[2] == 'l' && w[3] == 'l' && w[4] == 'u' && w[5] == 'n' && w[6] == 's';
    assert Lower(w)[..7] == "dilluns";
    assert 'm' in "diumenge" && 'b' in "dissabte";
    WeekdaysLacksM();
    WeekdaysLacksB();
    LowerLacks(w, 'm');
    LowerLacks(w, 'b');
    NotContainsMissingChar(Lower(w), "diumenge", 'm');
    NotContainsMissingChar(Lower(w), "dissabte", 'b');
  }

  /** The tail of the weekday name from its only `f` on: it starts with
      "fei", and has no further `f`. */
  lemma FeinersLacksFestiu(c: string)
    requires c == "einers, excepte agost"
    ensures !Contains(Lower("f" + c), "festiu")
  {
    LowerAppend("f", c);
    var l := Lower("f") + Lower(c);
    assert !StartsWith(l, "festiu") by {
      assert l[2] == Lower(c)[1] == 'i';
    }
    assert l[1..] == Lower(c);
    LowerLacks(c, 'f');
    NotContainsMissingChar(Lower(c), "festiu", 'f');
  }

  lemma WeekdaysSplit()
    ensures Weekdays == "Dilluns a divendres " + ("f" + "einers, excepte agost")
  {
  }

  lemma PrefixLacksF(a: string)
    requires a == "Dilluns a divendres "
    ensures 'f' !in Lower(a)
  {
    LowerLacks(a, 'f');
  }

  /** The lower-cased weekday name has one `f`, in "feiners", so it does
      not contain "festiu". */
  lemma WeekdaysLacksFestiu()
    ensures !Contains(Lower(Weekdays), "festiu")
  {
    var a := "Dilluns a divendres ";
    var c := "einers, excepte agost";
    WeekdaysSplit();
    LowerAppend(a, "f" + c);
    PrefixLacksF(a);
    FeinersLacksFestiu(c);
    if Contains(Lower(a) + Lower("f" + c), "festiu") {
      ContainsSkip(Lower(a), Lower("f" + c), "festiu");
    }
  }

  /** The lower-cased Saturday name starts with "dissabte" and, having no
      `m`, does not contain "diumenge". */
  lemma SaturdaysName()
    ensures Lower(Saturdays)[2] == 's'
    ensures Contains(Lower(Saturdays), "dissabte")
    ensures !Contains(Lower(Saturdays), "diumenge")
  {
    var sa := Saturdays;
    assert sa[0] == 'D' && sa[1] == 'i' && sa[2] == 's' && sa[3] == 's' && sa[4] == 'a' && sa[5] == 'b'
      && sa[6] == 't' && sa[7] == 'e';
    assert Lower(sa)[..8] == "dissabte";
    assert 'm' in "diumenge";
    LowerLacks(sa, 'm');
    NotContainsMissingChar(Lower(sa), "diumenge", 'm');
  }

  /** The lower-cased Sunday name starts with "diumenge". */
  lemma SundaysName()
    ensures Lower(Sundays)[2] == 'u'
    ensures Contains(Lower(Sundays), "diumenge")
  {
    var su := Sundays;
    assert su[0] == 'D' && su[1] == 'i' && su[2] == 'u' && su[3] == 'm' && su[4] == 'e' && su[5] == 'n'
      && su[6] == 'g' && su[7] == 'e';
    assert Lower(su)[..8] == "diumenge";
  }

  /** The canonical names differ even ignoring case, each contains its own
      keyword, and none contains a keyword of a higher priority than its
      own. */
  lemma CanonicalNames()
    ensures Lower(Weekdays) != Lower(Saturdays) && Lower(Weekdays) != Lower(Sundays)
    ensures Lower(Saturdays) != Lower(Sundays)
    ensures Contains(Lower(Weekdays), "dilluns")
    ensures Contains(Lower(Saturdays), "dissabte")
    ensures Contains(Lower(Sundays), "diumenge")
    ensures !Contains(Lower(Weekdays), "diumenge") && !Contains(Lower(Saturdays), "diumenge")
    ensures !Contains(Lower(Weekdays), "dissabte") && !Contains(Lower(Weekdays), "festiu")
  {
    WeekdaysLacksFestiu();
    WeekdaysName();
    SaturdaysName();
    SundaysName();
  }

  /** `day_bucket` returns a canonical name or the stripped input, and a
      canonical name exactly when the lower-cased input names a day keyword. */
  lemma DayBucketRange(raw: string)
    ensures DayBucket(raw) in DayOrder || DayBucket(raw) == Strip(raw)
    ensures DayBucket(raw) in DayOrder <==> HasDayKeyword(Lower(Strip(raw)))
  {
    var s := Strip(raw);
    var low := Lower(s);
    CanonicalNames();
    if ExactDay(low, DayOrder).None? && !HasDayKeyword(low) {
      assert DayBucket(raw) == s;
    }
  }

  /** An input equal to a canonical name ignoring case and surrounding
      whitespace is mapped to that name. */
  lemma DayBucketExact(raw: string, k: nat)
    requires k < |DayOrder| && Lower(Strip(raw)) == Lower(DayOrder[k])
    ensures DayBucket(raw) == DayOrder[k]
  {
    CanonicalNames();
  }

  /** Keyword priority: "diumenge" wins over everything; "dissabte" or
      "festiu" win over "dilluns" and "feiner"; these last two give the
      weekday name. */
  lemma DayBucketPriority(raw: string)
    ensures Contains(Lower(Strip(raw)), "diumenge") ==> DayBucket(raw) == Sundays
    ensures !Contains(Lower(Strip(raw)), "diumenge") && Contains(Lower(Strip(raw)), "dissabte")
            ==> DayBucket(raw) == Saturdays
    ensures !Contains(Lower(Strip(raw)), "diumenge") && Contains(Lower(Strip(raw)), "festiu")
            ==> DayBucket(raw) == Saturdays
    ensures !Contains(Lower(Strip(raw)), "diumenge") && !Contains(Lower(Strip(raw)), "dissabte")
            && !Contains(Lower(Strip(raw)), "festiu")
            && (Contains(Lower(Strip(raw)), "dilluns") || Contains(Lower(Strip(raw)), "feiner"))
            ==> DayBucket(raw) == Weekdays
  {
    CanonicalNames();
  }
}
