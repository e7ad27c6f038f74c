/** Repeat-day selection of the alarm form: the day list is either the
    sentinel `["Daily"]` or a list of concrete day tags in the order the
    user picked them. `ToggleDay` is the form's tap handler and
    `RepeatText` the label shown for a stored list. */
module Days {
  import opened Seqs

  /** The eight strings a day list can hold: the sentinel "Daily" and the
      seven concrete day tags. */
  datatype Tag = Daily | Sun | Mon | Tue | Wed | Thu | Fri | Sat

  /** The string the form stores and displays for a tag. */
  function Name(t: Tag): string {
    match t
    case Daily => "Daily"
    case Sun => "Sun"
    case Mon => "Mon"
    case Tue => "Tue"
    case Wed => "Wed"
    case Thu => "Thu"
    case Fri => "Fri"
    case Sat => "Sat"
  }

  const WeekSet: set<Tag> := {Sun, Mon, Tue, Wed, Thu, Fri, Sat}
  const WeekdaySet: set<Tag> := {Mon, Tue, Wed, Thu, Fri}
  const WeekendSet: set<Tag> := {Sat, Sun}

  /** Every element is a concrete day tag. */
  predicate AllConcrete(days: seq<Tag>) {
    Daily !in days
  }

  /** The shape every selection the form can reach has: the sentinel
      alone, or one to six distinct concrete days. */
  predicate WellFormed(days: seq<Tag>) {
    days == [Daily] || (1 <= |days| <= 6 && NoDup(days) && AllConcrete(days))
  }

  /** The days of the week on which an alarm with this list repeats. */
  function Fires(days: seq<Tag>): set<Tag> {
    if Daily in days then WeekSet else Elems(days)
  }

  /** The test `(d) => d !== x` handed to `filter`. */
  function Differs(x: Tag): Tag -> bool {
    d => d != x
  }

  /** `days.filter((d) => d !== x)`. */
  function Without(days: seq<Tag>, x: Tag): (r: seq<Tag>)
    ensures x !in r
    ensures forall y :: y in r <==> y in days && y != x
  {
    Filter(Differs(x), days)
  }

  /** `toggleDay`: "Daily" resets the selection to the sentinel; a
      concrete day is dropped when it is selected and appended otherwise,
      and a selection that ends up empty or holding seven entries collapses
      to the sentinel. */
  function ToggleDay(selected: seq<Tag>, day: Tag): (r: seq<Tag>)
    ensures r != []
    ensures day == Daily ==> r == [Daily]
    ensures Daily in r ==> r == [Daily]
  {
    if day == Daily then [Daily]
    else
      var base := Without(selected, Daily);
      var next := if day in base then Without(base, day) else base + [day];
      if |next| == 0 || |next| == 7 then [Daily] else next
  }

  /** The concrete days a list picks out explicitly (none for the
      sentinel). */
  function Chosen(days: seq<Tag>): set<Tag> {
    Elems(Without(days, Daily))
  }

  /** Every set of concrete days lies within the week, which has seven
      days. */
  lemma WeekFacts()
    ensures |WeekSet| == 7 && |WeekdaySet| == 5 && |WeekendSet| == 2
    ensures forall t: Tag :: t != Daily <==> t in WeekSet
  {
  }

  /** A well-formed list is either the sentinel or free of it. */
  lemma WellFormedShape(days: seq<Tag>)
    requires WellFormed(days)
    ensures days != [Daily] ==> Daily !in days && Without(days, Daily) == days
    ensures days == [Daily] ==> Without(days, Daily) == []
  {
    if days != [Daily] {
      FilterKeepsAll(Differs(Daily), days);
    }
  }

  /** The list built before the collapse check is duplicate-free and
      concrete. */
  lemma ToggleStepNoDup(base: seq<Tag>, day: Tag)
    requires NoDup(base) && AllConcrete(base)
    requires day != Daily
    ensures var next := if day in base then Without(base, day) else base + [day];
      NoDup(next) && AllConcrete(next)
  {
    if day in base {
      FilterNoDup(Differs(day), base);
    } else {
      var next := base + [day];
      forall i, j | 0 <= i < j < |next|
        ensures next[i] != next[j]
      {
        if j == |base| {
          assert next[i] == base[i];
        } else {
          assert next[i] == base[i] && next[j] == base[j];
        }
      }
    }
  }

  /** Tapping any day keeps the selection well formed: never empty, never
      the sentinel mixed with concrete days, never a repeated day. */
  lemma ToggleDayWellFormed(selected: seq<Tag>, day: Tag)
    requires WellFormed(selected)
    ensures WellFormed(ToggleDay(selected, day))
  {
    if day != Daily {
      WellFormedShape(selected);
      var base := Without(selected, Daily);
      ToggleStepNoDup(base, day);
    }
  }

  /** What tapping a concrete day does when the selection does not
      collapse: the day flips between selected and unselected, a newly
      selected day goes to the end, and the other concrete days keep their
      relative order. */
  lemma ToggleDayKeepsOthers(selected: seq<Tag>, day: Tag)
    requires day != Daily
    ensures var r := ToggleDay(selected, day);
      r != [Daily] ==>
        && (day in r <==> day !in selected)
        && (day !in selected ==> r[|r| - 1] == day)
        && Without(r, day) == Without(Without(selected, Daily), day)
  {
    var base := Without(selected, Daily);
    var r := ToggleDay(selected, day);
    if r != [Daily] {
      if day in base {
        FilterKeepsAll(Differs(day), Without(base, day));
      } else {
        FilterAppend(Differs(day), base, [day]);
        assert Without([day], day) == [];
      }
    }
  }

  /** The collapse rule in terms of the days picked: after tapping a
      concrete day, the picked set is the old one with that day flipped;
      the selection becomes the sentinel exactly when that set is empty or
      the whole week, and otherwise holds exactly that set. */
  lemma ToggleDayPickedSet(selected: seq<Tag>, day: Tag)
    requires WellFormed(selected)
    requires day != Daily
    ensures var flipped := if day in Chosen(selected) then Chosen(selected) - {day}
                           else Chosen(selected) + {day};
      var r := ToggleDay(selected, day);
      && (r == [Daily] <==> flipped == {} || flipped == WeekSet)
      && (r != [Daily] ==> Elems(r) == flipped)
  {
    WellFormedShape(selected);
    var base := Without(selected, Daily);
    var next := if day in base then Without(base, day) else base + [day];
    assert ToggleDay(selected, day) == if |next| == 0 || |next| == 7 then [Daily] else next;
    var flipped := Flipped(Elems(base), day);
    FlippedElems(base, day);
    ToggleStepNoDup(base, day);
    NoDupCard(next);
    assert Daily !in flipped;
    WeekCard(flipped);
    assert next != [Daily];
  }

  /** A set of concrete days has seven elements exactly when it is the
      whole week. */
  lemma WeekCard(t: set<Tag>)
    requires Daily !in t
    ensures |t| == 7 <==> t == WeekSet
    ensures |t| == 0 <==> t == {}
  {
    WeekFacts();
    assert t <= WeekSet;
    if |t| == 7 {
      SubsetSameCard(t, WeekSet);
    }
  }

  /** A set of days with `day` added when absent and removed when present. */
  function Flipped(picked: set<Tag>, day: Tag): set<Tag> {
    if day in picked then picked - {day} else picked + {day}
  }

  /** The list built before the collapse check holds the flipped set. */
  lemma FlippedElems(base: seq<Tag>, day: Tag)
    ensures Elems(if day in base then Without(base, day) else base + [day]) == Flipped(Elems(base), day)
  {
    if day in base {
      var w := Without(base, day);
      assert forall y :: y in Elems(w) <==> y in w;
    } else {
      assert forall y :: y in Elems(base + [day]) <==> y in base || y == day;
    }
  }

  /** Tapping an unselected day on a selection of concrete days appends
      it, unless that makes seven, in which case the selection becomes
      "Daily". */
  lemma ToggleDayAppends(selected: seq<Tag>, day: Tag)
    requires AllConcrete(selected) && day != Daily && day !in selected
    ensures ToggleDay(selected, day) == if |selected| == 6 then [Daily] else selected + [day]
  {
    FilterKeepsAll(Differs(Daily), selected);
  }

  /** Deselecting the only picked day falls back to "Daily". */
  lemma DeselectLastCollapses(day: Tag)
    requires day != Daily
    ensures ToggleDay([day], day) == [Daily]
  {
    FilterKeepsAll(Differs(Daily), [day]);
    assert Without([day], day) == [];
  }

  /** `getRepeatText`: the summary label shown for a day list. */
  function RepeatText(days: seq<Tag>): string {
    if Daily in days || |days| == 7 then "Daily"
    else if |days| == 5 && Sat !in days && Sun !in days then "Weekdays"
    else if |days| == 2 && Sat in days && Sun in days then "Weekends"
    else Join(Names(days), ", ")
  }

  /** The stored strings of a day list. */
  function Names(days: seq<Tag>): seq<string> {
    seq(|days|, i requires 0 <= i < |days| => Name(days[i]))
  }

  /** Joining three-letter tags with ", " puts tag `i` at characters
      `5*i .. 5*i+3` with the separator right after it, so the joined text
      lists the tags in stored order. */
  lemma {:induction false} JoinTags(parts: seq<string>)
    requires |parts| >= 1
    requires forall i :: 0 <= i < |parts| ==> |parts[i]| == 3
    ensures |Join(parts, ", ")| == 5 * |parts| - 2
    ensures forall i :: 0 <= i < |parts| ==> Join(parts, ", ")[5 * i .. 5 * i + 3] == parts[i]
    ensures forall i :: 0 <= i < |parts| - 1 ==> Join(parts, ", ")[5 * i + 3 .. 5 * i + 5] == ", "
  {
    if |parts| > 1 {
      var rest := Join(parts[1..], ", ");
      JoinTags(parts[1..]);
      var j := Join(parts, ", ");
      assert j == parts[0] + ", " + rest;
      forall i | 0 <= i < |parts|
        ensures j[5 * i .. 5 * i + 3] == parts[i]
      {
        if i > 0 {
          assert j[5 * i .. 5 * i + 3] == rest[5 * (i - 1) .. 5 * (i - 1) + 3];
        }
      }
      forall i | 0 <= i < |parts| - 1
        ensures j[5 * i + 3 .. 5 * i + 5] == ", "
      {
        if i > 0 {
          assert j[5 * i + 3 .. 5 * i + 5] == rest[5 * (i - 1) + 3 .. 5 * (i - 1) + 5];
        }
      }
    }
  }

  /** The joined names of a non-empty list of concrete days are never one
      of the three fixed labels. */
  lemma JoinIsNotALabel(days: seq<Tag>)
    requires 1 <= |days| && AllConcrete(days)
    ensures var j := Join(Names(days), ", ");
      j != "Daily" && j != "Weekdays" && j != "Weekends"
  {
    var names := Names(days);
    forall i | 0 <= i < |names|
      ensures |names[i]| == 3
    {
      assert days[i] in days;
      ConcreteNameLength(days[i]);
    }
    JoinTags(names);
    var j := Join(names, ", ");
    assert |j| == 5 * |days| - 2;
    if |j| == 8 {
      assert j[3..5] == ", ";
      assert j[3] == ',';
      assert "Weekdays"[3] == 'k' && "Weekends"[3] == 'k';
    }
  }

  lemma ConcreteNameLength(t: Tag)
    requires t != Daily
    ensures |Name(t)| == 3
  {
  }

  /** For every selection the form can hold, the summary label says which
      days the alarm repeats on: "Daily" exactly for the whole week,
      "Weekdays" exactly for Monday to Friday, "Weekends" exactly for
      Saturday and Sunday, and otherwise the picked names in stored order. */
  lemma RepeatTextMeaning(days: seq<Tag>)
    requires WellFormed(days)
    ensures RepeatText(days) == "Daily" <==> Fires(days) == WeekSet
    ensures RepeatText(days) == "Weekdays" <==> Fires(days) == WeekdaySet
    ensures RepeatText(days) == "Weekends" <==> Fires(days) == WeekendSet
    ensures Fires(days) !in {WeekSet, WeekdaySet, WeekendSet} ==>
              RepeatText(days) == Join(Names(days), ", ")
  {
    LabelsDistinct();
    if days != [Daily] {
      WellFormedShape(days);
      NoDupCard(days);
      WeekdaysExactly(days);
      WeekendsExactly(days);
      if Fires(days) == WeekSet {
        WeekFacts();
        assert false;
      }
      var w := |days| == 5 && Sat !in days && Sun !in days;
      var e := |days| == 2 && Sat in days && Sun in days;
      if !w && !e {
        JoinIsNotALabel(days);
      }
    }
  }

  /** The three fixed labels differ, and so do the day sets they stand
      for. */
  lemma LabelsDistinct()
    ensures "Daily" != "Weekdays" && "Daily" != "Weekends" && "Weekdays" != "Weekends"
    ensures WeekSet != WeekdaySet && WeekSet != WeekendSet && WeekdaySet != WeekendSet
  {
    assert "Weekdays"[4] == 'd' && "Weekends"[4] == 'e';
    WeekFacts();
  }

  /** A duplicate-free list of concrete days has five entries and neither
      weekend day exactly when it is Monday to Friday. */
  lemma WeekdaysExactly(days: seq<Tag>)
    requires NoDup(days) && AllConcrete(days)
    ensures (|days| == 5 && Sat !in days && Sun !in days) <==> Elems(days) == WeekdaySet
  {
    NoDupCard(days);
    WeekFacts();
    if |days| == 5 && Sat !in days && Sun !in days {
      forall x | x in Elems(days)
        ensures x in WeekdaySet
      {
        assert x in days;
        assert x != Daily && x != Sat && x != Sun;
        match x
        case Mon =>
        case Tue =>
        case Wed =>
        case Thu =>
        case Fri =>
      }
      SubsetSameCard(Elems(days), WeekdaySet);
    }
    if Elems(days) == WeekdaySet {
      assert Sat !in Elems(days) && Sun !in Elems(days);
    }
  }

  /** A duplicate-free list of concrete days has two entries including
      both weekend days exactly when it is Saturday and Sunday. */
  lemma WeekendsExactly(days: seq<Tag>)
    requires NoDup(days) && AllConcrete(days)
    ensures (|days| == 2 && Sat in days && Sun in days) <==> Elems(days) == WeekendSet
  {
    NoDupCard(days);
    WeekFacts();
    if |days| == 2 && Sat in days && Sun in days {
      assert WeekendSet <= Elems(days);
      SubsetSameCard(WeekendSet, Elems(days));
    }
    if Elems(days) == WeekendSet {
      assert Sat in Elems(days) && Sun in Elems(days);
    }
  }
}
