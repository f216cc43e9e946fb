/** loadEarthObservationData (main.cpp:11-35): the lines of the input file, in order, each put
    into the std::map as data[date] = value, until the first line that does not parse. The file
    is a parameter: None when it cannot be opened, otherwise the lines getline returns. The
    properties of the read loop hold for any way of reading a line; the program reads lines
    with LineParser.ParseLine. */
module Loader {
  import opened Wrappers
  import opened Observations
  import opened LineParser

  /** How one line is read: its observation, or None when it does not parse. */
  type LineReader = string -> Option<Observation>

  /** What the read loop leaves in the map, starting from acc, for the remaining lines. */
  function LoadFrom(acc: map<string, real>, lines: seq<string>, read: LineReader): map<string, real>
    decreases |lines|
  {
    if lines == [] then acc
    else match read(lines[0])
      case None => acc
      case Some(o) => LoadFrom(acc[o.date := o.value], lines[1..], read)
  }

  /** The observation set the loader returns; empty when the file cannot be opened. */
  function Loaded(input: Option<seq<string>>): map<string, real> {
    match input
    case None => map[]
    case Some(lines) => LoadFrom(map[], lines, ParseLine)
  }

  /** The observations of the lines before the first line that does not parse. */
  function Accepted(lines: seq<string>, read: LineReader): (p: seq<Observation>)
    ensures |p| <= |lines|
    ensures forall j :: 0 <= j < |p| ==> read(lines[j]) == Some(p[j])
    ensures |p| < |lines| ==> read(lines[|p|]).None?
    decreases |lines|
  {
    if lines == [] then []
    else match read(lines[0])
      case None => []
      case Some(o) => [o] + Accepted(lines[1..], read)
  }

  method LoadEarthObservationData(input: Option<seq<string>>) returns (data: ObservationSet)
    ensures input.None? ==> data == []
    ensures ToMap(data) == Loaded(input)
  {
    data := [];
    if input.None? {
      return;
    }
    var lines := input.value;
    var i := 0;
    while i < |lines|
      invariant i <= |lines|
      invariant LoadFrom(ToMap(data), lines[i..], ParseLine) == LoadFrom(map[], lines, ParseLine)
    {
      var parsed := ParseLine(lines[i]);
      if parsed.None? {
        break;
      }
      assert lines[i..][1..] == lines[i + 1..];
      data := Put(data, parsed.value.date, parsed.value.value);
      i := i + 1;
    }
  }

  /** A line that does not parse ends the load: nothing after it contributes, valid or not. */
  lemma {:induction false} StopsAtFirstBadLine(acc: map<string, real>, good: seq<string>, bad: string,
                                               rest: seq<string>, read: LineReader)
    requires forall j :: 0 <= j < |good| ==> read(good[j]).Some?
    requires read(bad).None?
    ensures LoadFrom(acc, good + [bad] + rest, read) == LoadFrom(acc, good, read)
    decreases |good|
  {
    if good == [] {
      assert (good + [bad] + rest)[0] == bad;
    } else {
      var o := read(good[0]).value;
      assert (good + [bad] + rest)[1..] == good[1..] + [bad] + rest;
      StopsAtFirstBadLine(acc[o.date := o.value], good[1..], bad, rest, read);
    }
  }

  /** Observations put into a map one after the other. */
  function PutAll(acc: map<string, real>, obs: seq<Observation>): map<string, real>
    decreases |obs|
  {
    if obs == [] then acc else PutAll(acc[obs[0].date := obs[0].value], obs[1..])
  }

  /** The load is the accepted observations put into the map in line order. */
  lemma {:induction false} LoadIsAccepted(acc: map<string, real>, lines: seq<string>, read: LineReader)
    ensures LoadFrom(acc, lines, read) == PutAll(acc, Accepted(lines, read))
    decreases |lines|
  {
    if lines != [] && read(lines[0]).Some? {
      var o := read(lines[0]).value;
      LoadIsAccepted(acc[o.date := o.value], lines[1..], read);
      assert Accepted(lines, read)[1..] == Accepted(lines[1..], read);
    }
  }

  /** The keys of the loaded map are exactly the dates of the accepted lines. */
  lemma LoadedKeys(acc: map<string, real>, lines: seq<string>, read: LineReader)
    ensures LoadFrom(acc, lines, read).Keys == acc.Keys + Dates(Accepted(lines, read))
  {
    LoadIsAccepted(acc, lines, read);
    PutAllKeys(acc, Accepted(lines, read));
  }

  lemma {:induction false} PutAllKeys(acc: map<string, real>, obs: seq<Observation>)
    ensures PutAll(acc, obs).Keys == acc.Keys + Dates(obs)
    decreases |obs|
  {
    if obs != [] {
      PutAllKeys(acc[obs[0].date := obs[0].value], obs[1..]);
    }
  }

  /** A date keeps the value of the last accepted line that carries it. */
  lemma LoadedValueIsLast(acc: map<string, real>, lines: seq<string>, read: LineReader, j: nat)
    requires j < |Accepted(lines, read)|
    requires forall k :: j < k < |Accepted(lines, read)| ==>
               Accepted(lines, read)[k].date != Accepted(lines, read)[j].date
    ensures Accepted(lines, read)[j].date in LoadFrom(acc, lines, read)
    ensures LoadFrom(acc, lines, read)[Accepted(lines, read)[j].date] == Accepted(lines, read)[j].value
  {
    LoadIsAccepted(acc, lines, read);
    PutAllLast(acc, Accepted(lines, read), j);
  }

  lemma {:induction false} PutAllLast(acc: map<string, real>, obs: seq<Observation>, j: nat)
    requires j < |obs|
    requires forall k :: j < k < |obs| ==> obs[k].date != obs[j].date
    ensures obs[j].date in PutAll(acc, obs) && PutAll(acc, obs)[obs[j].date] == obs[j].value
    decreases |obs|
  {
    var next := acc[obs[0].date := obs[0].value];
    if j == 0 {
      DatesMembers(obs[1..], obs[0].date);
      PutAllUntouched(next, obs[1..], obs[0].date);
    } else {
      PutAllLast(next, obs[1..], j - 1);
    }
  }

  /** A date that no later observation carries keeps its value. */
  lemma {:induction false} PutAllUntouched(acc: map<string, real>, obs: seq<Observation>, d: string)
    requires d in acc && d !in Dates(obs)
    ensures d in PutAll(acc, obs) && PutAll(acc, obs)[d] == acc[d]
    decreases |obs|
  {
    if obs != [] {
      PutAllUntouched(acc[obs[0].date := obs[0].value], obs[1..], d);
    }
  }

  predicate DistinctDates(obs: seq<Observation>) {
    forall i, j :: 0 <= i < j < |obs| ==> obs[i].date != obs[j].date
  }

  /** The map has at most one entry per accepted line, exactly one when their dates differ. */
  lemma LoadedSize(lines: seq<string>, read: LineReader)
    ensures |LoadFrom(map[], lines, read)| <= |Accepted(lines, read)|
    ensures DistinctDates(Accepted(lines, read)) ==> |LoadFrom(map[], lines, read)| == |Accepted(lines, read)|
  {
    LoadedKeys(map[], lines, read);
    DatesSize(Accepted(lines, read));
  }

  lemma {:induction false} DatesSize(obs: seq<Observation>)
    ensures |Dates(obs)| <= |obs|
    ensures DistinctDates(obs) ==> |Dates(obs)| == |obs|
    decreases |obs|
  {
    if obs != [] {
      DatesSize(obs[1..]);
      if DistinctDates(obs) {
        assert DistinctDates(obs[1..]);
        DatesMembers(obs[1..], obs[0].date);
      }
    }
  }

  /** When every line parses and no date repeats, the order of the lines does not matter. */
  lemma LoadIgnoresLineOrder(lines: seq<string>, shuffled: seq<string>, read: LineReader)
    requires multiset(lines) == multiset(shuffled)
    requires |Accepted(lines, read)| == |lines|
    requires DistinctDates(Accepted(lines, read))
    ensures LoadFrom(map[], lines, read) == LoadFrom(map[], shuffled, read)
  {
    ShuffledAllRead(lines, shuffled, read);
    ShuffledDatesDistinct(lines, shuffled, read);
    var m, m' := LoadFrom(map[], lines, read), LoadFrom(map[], shuffled, read);
    forall d | d in m ensures d in m' && m'[d] == m[d] {
      SameEntry(lines, shuffled, read, d);
    }
    forall d | d in m' ensures d in m {
      SameEntry(shuffled, lines, read, d);
    }
  }

  /** A loaded date of one ordering is loaded with the same value from the other. */
  lemma SameEntry(lines: seq<string>, shuffled: seq<string>, read: LineReader, d: string)
    requires multiset(lines) == multiset(shuffled)
    requires |Accepted(lines, read)| == |lines|
    requires DistinctDates(Accepted(lines, read))
    requires d in LoadFrom(map[], lines, read)
    ensures d in LoadFrom(map[], shuffled, read)
    ensures LoadFrom(map[], shuffled, read)[d] == LoadFrom(map[], lines, read)[d]
  {
    var a, a' := Accepted(lines, read), Accepted(shuffled, read);
    ShuffledAllRead(lines, shuffled, read);
    ShuffledDatesDistinct(lines, shuffled, read);
    LoadedKeys(map[], lines, read);
    DatesMembers(a, d);
    var i :| 0 <= i < |a| && a[i].date == d;
    assert lines[i] in multiset(shuffled);
    var i' :| 0 <= i' < |shuffled| && shuffled[i'] == lines[i];
    assert a'[i'] == a[i];
    LoadedValueIsLast(map[], lines, read, i);
    LoadedValueIsLast(map[], shuffled, read, i');
  }

  /** When every line reads, a reordering of lines whose dates are distinct has distinct dates
      too: two lines of the reordering with one date are two lines of the original order. */
  lemma ShuffledDatesDistinct(lines: seq<string>, shuffled: seq<string>, read: LineReader)
    requires multiset(lines) == multiset(shuffled)
    requires |Accepted(lines, read)| == |lines|
    requires DistinctDates(Accepted(lines, read))
    ensures DistinctDates(Accepted(shuffled, read))
  {
    ShuffledAllRead(lines, shuffled, read);
    var a, a' := Accepted(lines, read), Accepted(shuffled, read);
    forall i, j | 0 <= i < j < |a'| ensures a'[i].date != a'[j].date {
      var k, l := SamePlaces(lines, shuffled, i, j);
      assert a[k] == a'[i] && a[l] == a'[j];
    }
  }

  /** When every line reads, every line of a reordering reads too: each is a line of the
      original order. */
  lemma ShuffledAllRead(lines: seq<string>, shuffled: seq<string>, read: LineReader)
    requires multiset(lines) == multiset(shuffled)
    requires |Accepted(lines, read)| == |lines|
    ensures |Accepted(shuffled, read)| == |shuffled|
  {
    forall i | 0 <= i < |shuffled| ensures read(shuffled[i]).Some? {
      assert shuffled[i] in multiset(lines);
      var k :| 0 <= k < |lines| && lines[k] == shuffled[i];
    }
    AllRead(shuffled, read);
  }

  /** Lines that all read are all accepted. */
  lemma {:induction false} AllRead(lines: seq<string>, read: LineReader)
    requires forall i :: 0 <= i < |lines| ==> read(lines[i]).Some?
    ensures |Accepted(lines, read)| == |lines|
    decreases |lines|
  {
    if lines != [] {
      assert read(lines[0]).Some?;
      AllRead(lines[1..], read);
    }
  }

  /** Two positions of a reordering correspond to two different positions of the original. */
  lemma SamePlaces(lines: seq<string>, shuffled: seq<string>, i: nat, j: nat) returns (k: nat, l: nat)
    requires multiset(lines) == multiset(shuffled)
    requires i < j < |shuffled|
    ensures k < |lines| && l < |lines| && k != l
    ensures lines[k] == shuffled[i] && lines[l] == shuffled[j]
  {
    assert shuffled[i] in multiset(lines);
    if shuffled[i] == shuffled[j] {
      TwiceCounted(shuffled, i, j);
      k, l := TwicePlaced(lines, shuffled[i]);
    } else {
      assert shuffled[j] in multiset(lines);
      k :| 0 <= k < |lines| && lines[k] == shuffled[i];
      l :| 0 <= l < |lines| && lines[l] == shuffled[j];
    }
  }

  /** A string at two positions of a sequence occurs at least twice in its multiset. */
  lemma TwiceCounted(s: seq<string>, i: nat, j: nat)
    requires i < j < |s| && s[i] == s[j]
    ensures multiset(s)[s[i]] >= 2
  {
    assert s == s[..j] + s[j..];
    assert s[..j][i] == s[i];
    assert s[j..][0] == s[i];
  }

  /** A string that occurs at least twice in a sequence's multiset sits at two positions. */
  lemma {:induction false} TwicePlaced(s: seq<string>, x: string) returns (k: nat, l: nat)
    requires multiset(s)[x] >= 2
    ensures k < l < |s| && s[k] == x && s[l] == x
    decreases |s|
  {
    assert s == [s[0]] + s[1..];
    if s[0] == x {
      assert x in multiset(s[1..]);
      var m :| 0 <= m < |s[1..]| && s[1..][m] == x;
      k, l := 0, m + 1;
    } else {
      var k', l' := TwicePlaced(s[1..], x);
      k, l := k' + 1, l' + 1;
    }
  }
}
