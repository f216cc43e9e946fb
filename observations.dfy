/** The observation set of main.cpp, a std::map<std::string, float> from date to soil moisture.
    A std::map keeps its keys unique and in ascending order, so it is modelled as the sequence of
    its entries in that order; ToMap gives the mapping it stands for. */
module Observations {
  import opened StringOrder

  datatype Observation = Observation(date: string, value: real)

  /** Dates strictly ascending: no date twice, iteration order of the std::map. */
  predicate Ordered(s: seq<Observation>) {
    forall i, j {:trigger Less(s[i].date, s[j].date)} :: 0 <= i < j < |s| ==> Less(s[i].date, s[j].date)
  }

  type ObservationSet = s: seq<Observation> | Ordered(s) witness []

  /** The dates of the entries. */
  function Dates(s: seq<Observation>): set<string>
    decreases |s|
  {
    if s == [] then {} else {s[0].date} + Dates(s[1..])
  }

  lemma {:induction false} DateAt(s: seq<Observation>, i: nat)
    requires i < |s|
    ensures s[i].date in Dates(s)
    decreases i
  {
    if i > 0 {
      DateAt(s[1..], i - 1);
    }
  }

  /** The date -> value mapping an observation set stands for: one key per entry. */
  function ToMap(s: ObservationSet): (m: map<string, real>)
    ensures m.Keys == Dates(s)
    decreases |s|
  {
    if s == [] then map[]
    else
      FirstNotInTail(s);
      ToMap(s[1..])[s[0].date := s[0].value]
  }

  /** A date is in Dates(s) exactly when some entry carries it. */
  lemma {:induction false} DatesMembers(s: seq<Observation>, d: string)
    ensures d in Dates(s) <==> exists i :: 0 <= i < |s| && s[i].date == d
    decreases |s|
  {
    if s != [] {
      DatesMembers(s[1..], d);
      if d in Dates(s[1..]) {
        var i :| 0 <= i < |s[1..]| && s[1..][i].date == d;
        assert s[i + 1].date == d;
      }
      if exists i :: 0 <= i < |s| && s[i].date == d {
        var i :| 0 <= i < |s| && s[i].date == d;
        if i > 0 { assert s[1..][i - 1].date == d; }
      }
    }
  }

  /** Each entry's date maps to that entry's value. */
  lemma {:induction false} ToMapAt(s: ObservationSet, i: nat)
    requires i < |s|
    ensures s[i].date in ToMap(s) && ToMap(s)[s[i].date] == s[i].value
    decreases i
  {
    DateAt(s, i);
    if i > 0 {
      ToMapAt(s[1..], i - 1);
      FirstNotInTail(s);
      DateAt(s[1..], i - 1);
    }
  }

  /** One key per entry: the std::map's size is the number of its entries. */
  lemma {:induction false} ToMapSize(s: ObservationSet)
    ensures |ToMap(s)| == |s|
    decreases |s|
  {
    if s != [] {
      ToMapSize(s[1..]);
      FirstNotInTail(s);
    }
  }

  lemma FirstNotInTail(s: ObservationSet)
    requires s != []
    ensures s[0].date !in Dates(s[1..])
  {
    if s[0].date in Dates(s[1..]) {
      FirstIsLeast(s, s[0].date);
      LessIrreflexive(s[0].date);
    }
  }

  /** Every date after the first entry is above it. */
  lemma {:induction false} FirstIsLeast(s: ObservationSet, d: string)
    requires s != [] && d in Dates(s[1..])
    ensures Less(s[0].date, d)
    decreases |s|
  {
    var rest := s[1..];
    if d != rest[0].date {
      FirstIsLeast(rest, d);
      LessTransitive(s[0].date, s[1].date, d);
    }
  }

  /** An entry below every date of an observation set can be put in front of it. */
  lemma ConsOrdered(o: Observation, s: ObservationSet)
    requires forall d :: d in Dates(s) ==> Less(o.date, d)
    ensures Ordered([o] + s)
  {
    forall i, j | 0 <= i < j < |[o] + s|
      ensures Less(([o] + s)[i].date, ([o] + s)[j].date)
    {
      if i == 0 {
        DateAt(s, j - 1);
      }
    }
  }

  /** The assignment data[date] = value of main.cpp:31: replaces the value of a date already
      present, otherwise inserts the date at its place in the order. */
  function Put(s: ObservationSet, date: string, value: real): (r: ObservationSet)
    ensures ToMap(r) == ToMap(s)[date := value]
    decreases |s|
  {
    var o := Observation(date, value);
    if s == [] then [o]
    else if date == s[0].date then
      PutReplace(s, o);
      [o] + s[1..]
    else if Less(date, s[0].date) then
      PutBefore(s, o);
      [o] + s
    else
      LessTotal(date, s[0].date);
      var t := Put(s[1..], date, value);
      PutAfter(s, o, t);
      [s[0]] + t
  }

  lemma ToMapFirst(s: ObservationSet)
    requires s != []
    ensures ToMap(s)[s[0].date] == s[0].value
  {
  }

  lemma ToMapCons(o: Observation, s: ObservationSet)
    requires Ordered([o] + s)
    ensures ToMap([o] + s) == ToMap(s)[o.date := o.value]
  {
    assert ([o] + s)[1..] == s;
  }

  lemma PutReplace(s: ObservationSet, o: Observation)
    requires s != [] && o.date == s[0].date
    ensures Ordered([o] + s[1..])
    ensures ToMap([o] + s[1..]) == ToMap(s)[o.date := o.value]
  {
    assert Ordered([o] + s[1..]) by {
      forall d | d in Dates(s[1..]) ensures Less(o.date, d) { FirstIsLeast(s, d); }
      ConsOrdered(o, s[1..]);
    }
    ToMapCons(o, s[1..]);
  }

  lemma PutBefore(s: ObservationSet, o: Observation)
    requires s != [] && Less(o.date, s[0].date)
    ensures Ordered([o] + s)
    ensures ToMap([o] + s) == ToMap(s)[o.date := o.value]
  {
    forall d | d in Dates(s) ensures Less(o.date, d) {
      if d != s[0].date {
        InTail(s, d);
        FirstIsLeast(s, d);
        LessTransitive(o.date, s[0].date, d);
      }
    }
    ConsOrdered(o, s);
    ToMapCons(o, s);
  }

  lemma PutAfter(s: ObservationSet, o: Observation, t: ObservationSet)
    requires s != [] && Less(s[0].date, o.date)
    requires ToMap(t) == ToMap(s[1..])[o.date := o.value]
    ensures Ordered([s[0]] + t)
    ensures ToMap([s[0]] + t) == ToMap(s)[o.date := o.value]
  {
    AboveAll(s, o.date, t);
    var m := ToMap(s[1..]);
    calc {
      ToMap([s[0]] + t);
      { ToMapCons(s[0], t); }
      m[o.date := o.value][s[0].date := s[0].value];
      { LessIrreflexive(s[0].date); UpdatesCommute(m, o.date, o.value, s[0].date, s[0].value); }
      m[s[0].date := s[0].value][o.date := o.value];
      ToMap(s)[o.date := o.value];
    }
  }

  lemma AboveAll(s: ObservationSet, date: string, t: ObservationSet)
    requires s != [] && Less(s[0].date, date)
    requires ToMap(t).Keys == ToMap(s[1..]).Keys + {date}
    ensures Ordered([s[0]] + t)
  {
    forall d | d in Dates(t) ensures Less(s[0].date, d) {
      if d != date { FirstIsLeast(s, d); }
    }
    ConsOrdered(s[0], t);
  }

  lemma UpdatesCommute(m: map<string, real>, a: string, x: real, b: string, y: real)
    requires a != b
    ensures m[a := x][b := y] == m[b := y][a := x]
  {
  }

  lemma RemoveUpdated(m: map<string, real>, k: string, v: real)
    requires k !in m
    ensures m[k := v] - {k} == m
  {
  }

  /** A date of the set other than the first is a date of the rest. */
  lemma InTail(s: seq<Observation>, d: string)
    requires d in Dates(s) && d != s[0].date
    ensures d in Dates(s[1..])
  {
  }

  /** Two sets with the same dates begin with the same (least) date. */
  lemma SameLeast(a: ObservationSet, b: ObservationSet)
    requires a != [] && b != [] && Dates(a) == Dates(b)
    ensures a[0].date == b[0].date
  {
    assert a[0].date in Dates(b) && b[0].date in Dates(a);
    if a[0].date != b[0].date {
      InTail(b, a[0].date);
      InTail(a, b[0].date);
      FirstIsLeast(a, b[0].date);
      FirstIsLeast(b, a[0].date);
      LessAsymmetric(a[0].date, b[0].date);
    }
  }

  /** Dropping the first entry drops its date from the mapping and nothing else. */
  lemma TailMap(s: ObservationSet)
    requires s != []
    ensures ToMap(s[1..]) == ToMap(s) - {s[0].date}
  {
    FirstNotInTail(s);
    RemoveUpdated(ToMap(s[1..]), s[0].date, s[0].value);
  }

  /** The std::map is determined by its contents: two observation sets that stand for the same
      mapping are the same sequence. */
  lemma {:induction false} ToMapInjective(a: ObservationSet, b: ObservationSet)
    requires ToMap(a) == ToMap(b)
    ensures a == b
    decreases |a|
  {
    if a == [] {
      ToMapSize(b);
    } else {
      SameFirst(a, b);
      ToMapInjective(a[1..], b[1..]);
      assert a == [a[0]] + a[1..];
      assert b == [b[0]] + b[1..];
    }
  }

  /** Equal mappings: same first entry, and the rest stand for equal mappings too. */
  lemma SameFirst(a: ObservationSet, b: ObservationSet)
    requires a != [] && ToMap(a) == ToMap(b)
    ensures b != [] && a[0] == b[0] && ToMap(a[1..]) == ToMap(b[1..])
  {
    ToMapSize(a);
    ToMapSize(b);
    SameLeast(a, b);
    ToMapFirst(a);
    ToMapFirst(b);
    TailMap(a);
    TailMap(b);
  }
}
