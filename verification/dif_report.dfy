/** `runDIFReport`: the Mantel-Haenszel DIF screen over the completed
    sessions, from the persons and their group labels to the sorted rows
    and the CSV text. */
module DifReport {
  import opened Wrappers
  import opened Text
  import opened Sessions
  import opened Sorting
  import opened Csv
  import opened MantelHaenszel
  import opened DifTables

  // ---------------------------------------------------------------------
  // Persons

  /** `(meta[groupKey] ?? "").toString().trim().toLowerCase()` */
  function GroupLabel(meta: map<string, string>, groupKey: string): string
  {
    ToLower(Trim(MetaOr(meta, groupKey)))
  }

  /** Every outcome is a number. */
  predicate AllScored(evts: seq<Payload>)
  {
    forall j :: 0 <= j < |evts| ==> evts[j].x.Some?
  }

  /** The responses whose outcome `x` is a number, in order. */
  function Scored(evts: seq<Payload>): (r: seq<Payload>)
    ensures |r| <= |evts|
    ensures AllScored(r)
    ensures forall p :: p in r <==> p in evts && p.x.Some?
  {
    if evts == [] then []
    else (if evts[0].x.Some? then [evts[0]] else []) + Scored(evts[1..])
  }

  /** Each scored response is kept as often as it occurs, and no other. */
  lemma {:induction false} ScoredCounts(evts: seq<Payload>)
    ensures forall p :: multiset(Scored(evts))[p] == if p.x.Some? then multiset(evts)[p] else 0
  {
    if evts != [] {
      var head := if evts[0].x.Some? then [evts[0]] else [];
      assert evts == [evts[0]] + evts[1..];
      assert Scored(evts) == head + Scored(evts[1..]);
      ScoredCounts(evts[1..]);
    }
  }

  /** The filter keeps log order: a split list filters part by part. */
  lemma {:induction false} ScoredAppend(a: seq<Payload>, b: seq<Payload>)
    ensures Scored(a + b) == Scored(a) + Scored(b)
  {
    if a == [] {
      assert a + b == b;
    } else {
      assert a + b == [a[0]] + (a[1..] + b) && a == [a[0]] + a[1..];
      ScoredCons(a[0], a[1..] + b);
      ScoredCons(a[0], a[1..]);
      ScoredAppend(a[1..], b);
      ConcatAssoc(if a[0].x.Some? then [a[0]] else [], Scored(a[1..]), Scored(b));
    }
  }

  lemma ScoredCons(x: Payload, rest: seq<Payload>)
    ensures Scored([x] + rest) == (if x.x.Some? then [x] else []) + Scored(rest)
  {
    assert ([x] + rest)[0] == x && ([x] + rest)[1..] == rest;
  }

  /** The total score proxy: the number of responses with a truthy outcome. */
  function CorrectCount(evts: seq<Payload>): (r: nat)
    ensures r <= |evts|
  {
    if evts == [] then 0
    else CorrectCount(evts[..|evts| - 1]) + (if Truthy(evts[|evts| - 1].x) then 1 else 0)
  }

  function PersonOf(s: Session, groupKey: string): Person
  {
    var scored := Scored(Responses(s.events));
    Person(s.id, GroupLabel(s.meta, groupKey), CorrectCount(scored), scored)
  }

  /** The persons of the given sessions: one per session whose group label
      is not empty, in session order. */
  function PersonsOf(ss: seq<Session>, groupKey: string): (r: seq<Person>)
    ensures |r| <= |ss|
    ensures forall i :: 0 <= i < |r| ==> r[i].group != "" && r[i].total <= |r[i].evts|
    ensures forall i :: 0 <= i < |r| ==> AllScored(r[i].evts)
  {
    if ss == [] then []
    else
      var n := |ss| - 1;
      var prev := PersonsOf(ss[..n], groupKey);
      if GroupLabel(ss[n].meta, groupKey) == "" then prev
      else
        var p := PersonOf(ss[n], groupKey);
        assert AllScored(p.evts) && p.total <= |p.evts|;
        prev + [p]
  }

  /** A session has a group label when its raw group value is not all white
      space: lower-casing keeps the length, so only trimming can empty it. */
  predicate IsLabelled(s: Session, groupKey: string)
  {
    Trim(MetaOr(s.meta, groupKey)) != ""
  }

  lemma IsLabelledIff(s: Session, groupKey: string)
    ensures IsLabelled(s, groupKey) <==> GroupLabel(s.meta, groupKey) != ""
  {
    assert |GroupLabel(s.meta, groupKey)| == |Trim(MetaOr(s.meta, groupKey))|;
  }

  /** The sessions whose group label is not empty, in order. */
  function Labelled(ss: seq<Session>, groupKey: string): (r: seq<Session>)
    ensures |r| <= |ss|
    ensures forall s :: s in r <==> s in ss && IsLabelled(s, groupKey)
  {
    if ss == [] then []
    else
      var n := |ss| - 1;
      assert ss == ss[..n] + [ss[n]];
      Labelled(ss[..n], groupKey) + (if IsLabelled(ss[n], groupKey) then [ss[n]] else [])
  }

  /** Each labelled session is kept as often as it occurs, and no other. */
  lemma LabelledCounts(ss: seq<Session>, groupKey: string)
    ensures forall s :: multiset(Labelled(ss, groupKey))[s] == if IsLabelled(s, groupKey) then multiset(ss)[s] else 0
  {
    forall s ensures multiset(Labelled(ss, groupKey))[s] == if IsLabelled(s, groupKey) then multiset(ss)[s] else 0 {
      LabelledCount(ss, groupKey, s);
    }
  }

  /** The same, for one session. */
  lemma {:induction false} LabelledCount(ss: seq<Session>, groupKey: string, s: Session)
    ensures multiset(Labelled(ss, groupKey))[s] == if IsLabelled(s, groupKey) then multiset(ss)[s] else 0
  {
    if ss != [] {
      var n := |ss| - 1;
      assert ss == ss[..n] + [ss[n]];
      LabelledSnoc(ss[..n], ss[n], groupKey);
      LabelledCount(ss[..n], groupKey, s);
      SnocCount(ss[..n], ss[n], Labelled(ss[..n], groupKey), IsLabelled(ss[n], groupKey), s, IsLabelled(s, groupKey));
    }
  }

  lemma LabelledSnoc(ss: seq<Session>, s: Session, groupKey: string)
    ensures Labelled(ss + [s], groupKey) == Labelled(ss, groupKey) + (if IsLabelled(s, groupKey) then [s] else [])
  {
    assert (ss + [s])[..|ss|] == ss;
  }

  /** The filter keeps session order: a split list filters part by part. */
  lemma {:induction false} LabelledAppend(a: seq<Session>, b: seq<Session>, groupKey: string)
    ensures Labelled(a + b, groupKey) == Labelled(a, groupKey) + Labelled(b, groupKey)
  {
    if b == [] {
      assert a + b == a;
    } else {
      var n := |b| - 1;
      assert a + b == (a + b[..n]) + [b[n]] && b == b[..n] + [b[n]];
      LabelledSnoc(a + b[..n], b[n], groupKey);
      LabelledSnoc(b[..n], b[n], groupKey);
      LabelledAppend(a, b[..n], groupKey);
      ConcatAssoc(Labelled(a, groupKey), Labelled(b[..n], groupKey),
                  if IsLabelled(b[n], groupKey) then [b[n]] else []);
    }
  }

  /** One person per session, each built from its session, in order. */
  function PersonsAll(ls: seq<Session>, groupKey: string): seq<Person>
  {
    if ls == [] then [] else PersonsAll(ls[..|ls| - 1], groupKey) + [PersonOf(ls[|ls| - 1], groupKey)]
  }

  /** Appending a session appends its person. */
  lemma PersonsAllSnoc(ls: seq<Session>, s: Session, groupKey: string)
    ensures PersonsAll(ls + [s], groupKey) == PersonsAll(ls, groupKey) + [PersonOf(s, groupKey)]
  {
    assert (ls + [s])[..|ls|] == ls;
  }

  /** The last session adds its person exactly when it has a label. */
  lemma PersonsOfLast(ss: seq<Session>, groupKey: string)
    requires ss != []
    ensures var n := |ss| - 1;
      PersonsOf(ss, groupKey) == PersonsOf(ss[..n], groupKey) + (if IsLabelled(ss[n], groupKey) then [PersonOf(ss[n], groupKey)] else [])
  {
    IsLabelledIff(ss[|ss| - 1], groupKey);
  }

  /** The persons are exactly one per session with a non-empty group label,
      in session order, each built from its session. */
  lemma {:induction false} PersonsOfLabelled(ss: seq<Session>, groupKey: string)
    ensures PersonsOf(ss, groupKey) == PersonsAll(Labelled(ss, groupKey), groupKey)
  {
    if ss != [] {
      var n := |ss| - 1;
      assert ss == ss[..n] + [ss[n]];
      LabelledSnoc(ss[..n], ss[n], groupKey);
      PersonsOfLast(ss, groupKey);
      if IsLabelled(ss[n], groupKey) {
        PersonsAllSnoc(Labelled(ss[..n], groupKey), ss[n], groupKey);
      } else {
        assert Labelled(ss[..n], groupKey) + [] == Labelled(ss[..n], groupKey);
      }
      PersonsOfLabelled(ss[..n], groupKey);
    }
  }

  /** The loop that builds the `person` array from the completed sessions. */
  method BuildPersons(sessions: seq<Session>, groupKey: string) returns (person: seq<Person>)
    ensures person == PersonsOf(sessions, groupKey)
  {
    person := [];
    for i := 0 to |sessions|
      invariant person == PersonsOf(sessions[..i], groupKey)
    {
      var s := sessions[i];
      assert sessions[..i + 1][..i] == sessions[..i];
      var g := GroupLabel(s.meta, groupKey);
      if g == "" {
        continue;
      }
      var scored := Scored(Responses(s.events));
      var total := CorrectCount(scored);
      person := person + [Person(s.id, g, total, scored)];
    }
    assert sessions[..|sessions|] == sessions;
  }

  /** The persons of a run. */
  function PersonsIn(sessions: seq<Session>, groupKey: string): seq<Person>
  {
    PersonsOf(Completed(sessions), groupKey)
  }

  // ---------------------------------------------------------------------
  // Group sizes

  /** One entry of the `counts` map. */
  datatype GroupCount = GroupCount(name: string, count: nat)

  /** The number of persons with group label `g`. */
  function CountIn(ps: seq<Person>, g: string): (r: nat)
    ensures r <= |ps|
  {
    if ps == [] then 0 else CountIn(ps[..|ps| - 1], g) + (if ps[|ps| - 1].group == g then 1 else 0)
  }

  predicate DistinctLabels(cs: seq<GroupCount>)
  {
    forall i, j :: 0 <= i < j < |cs| ==> cs[i].name != cs[j].name
  }

  predicate HasLabel(cs: seq<GroupCount>, g: string)
  {
    exists i :: 0 <= i < |cs| && cs[i].name == g
  }

  /** `counts.set(g, (counts.get(g) ?? 0) + 1)` on a map that keeps its
      keys in insertion order: the entry of `g` goes up by one, or a new
      entry with count 1 is appended. */
  function BumpGroup(cs: seq<GroupCount>, g: string): (r: seq<GroupCount>)
    requires DistinctLabels(cs)
    ensures DistinctLabels(r)
    ensures HasLabel(cs, g) ==> |r| == |cs| && forall i :: 0 <= i < |cs| ==>
      r[i].name == cs[i].name && r[i].count == cs[i].count + (if cs[i].name == g then 1 else 0)
    ensures !HasLabel(cs, g) ==> r == cs + [GroupCount(g, 1)]
  {
    if cs == [] then [GroupCount(g, 1)]
    else if cs[0].name == g then
      BumpHead(cs, g);
      [cs[0].(count := cs[0].count + 1)] + cs[1..]
    else
      assert cs == [cs[0]] + cs[1..];
      BumpCons(cs[0], cs[1..], g, BumpGroup(cs[1..], g));
      [cs[0]] + BumpGroup(cs[1..], g)
  }

  /** Bumping the label of the first entry. */
  lemma BumpHead(cs: seq<GroupCount>, g: string)
    requires DistinctLabels(cs) && cs != [] && cs[0].name == g
    ensures var r := [cs[0].(count := cs[0].count + 1)] + cs[1..];
      && DistinctLabels(r) && HasLabel(cs, g) && |r| == |cs|
      && forall i :: 0 <= i < |cs| ==>
           r[i].name == cs[i].name && r[i].count == cs[i].count + (if cs[i].name == g then 1 else 0)
  {
    var r := [cs[0].(count := cs[0].count + 1)] + cs[1..];
    forall i | 0 <= i < |cs|
      ensures r[i].name == cs[i].name && r[i].count == cs[i].count + (if cs[i].name == g then 1 else 0)
    {
      if i > 0 {
        assert r[i] == cs[i];
      }
    }
  }

  /** Bumping a label behind a first entry with another label. */
  lemma BumpCons(c: GroupCount, rest: seq<GroupCount>, g: string, t: seq<GroupCount>)
    requires DistinctLabels([c] + rest) && c.name != g && DistinctLabels(t)
    requires HasLabel(rest, g) ==> |t| == |rest| && forall i :: 0 <= i < |rest| ==>
      t[i].name == rest[i].name && t[i].count == rest[i].count + (if rest[i].name == g then 1 else 0)
    requires !HasLabel(rest, g) ==> t == rest + [GroupCount(g, 1)]
    ensures var cs, r := [c] + rest, [c] + t;
      && DistinctLabels(r)
      && (HasLabel(cs, g) ==> |r| == |cs| && forall i :: 0 <= i < |cs| ==>
            r[i].name == cs[i].name && r[i].count == cs[i].count + (if cs[i].name == g then 1 else 0))
      && (!HasLabel(cs, g) ==> r == cs + [GroupCount(g, 1)])
  {
    var cs, r := [c] + rest, [c] + t;
    assert forall j :: 0 <= j < |rest| ==> rest[j].name != c.name by {
      forall j | 0 <= j < |rest| ensures rest[j].name != c.name {
        assert cs[0] == c && cs[j + 1] == rest[j];
      }
    }
    forall i, j | 0 <= i < j < |r| ensures r[i].name != r[j].name {
      if i > 0 {
        assert r[i] == t[i - 1] && r[j] == t[j - 1];
      } else if HasLabel(rest, g) {
        assert r[j].name == rest[j - 1].name;
      } else if j - 1 < |rest| {
        assert r[j] == rest[j - 1];
      }
    }
    assert HasLabel(rest, g) ==> HasLabel(cs, g) by {
      if HasLabel(rest, g) {
        var k :| 0 <= k < |rest| && rest[k].name == g;
        assert cs[k + 1] == rest[k];
      }
    }
    if HasLabel(cs, g) {
      var k :| 0 <= k < |cs| && cs[k].name == g;
      assert rest[k - 1].name == g;
      forall i | 0 <= i < |cs|
        ensures r[i].name == cs[i].name && r[i].count == cs[i].count + (if cs[i].name == g then 1 else 0)
      {
        if i > 0 {
          assert r[i] == t[i - 1] && cs[i] == rest[i - 1];
        }
      }
    }
  }

  /** `cs` is the `counts` map of `ps`: one entry per label present, each
      holding that label's number of persons. */
  predicate Tallies(cs: seq<GroupCount>, ps: seq<Person>)
  {
    && DistinctLabels(cs)
    && (forall i :: 0 <= i < |cs| ==> cs[i].count == CountIn(ps, cs[i].name) && cs[i].count > 0)
    && (forall i :: 0 <= i < |ps| ==> HasLabel(cs, ps[i].group))
  }

  lemma CountInAppend(ps: seq<Person>, p: Person, g: string)
    ensures CountIn(ps + [p], g) == CountIn(ps, g) + (if p.group == g then 1 else 0)
  {
    assert (ps + [p])[..|ps|] == ps;
  }

  /** A label absent from a tally has no persons. */
  lemma {:induction false} CountZero(ps: seq<Person>, g: string, cs: seq<GroupCount>)
    requires forall i :: 0 <= i < |ps| ==> HasLabel(cs, ps[i].group)
    requires !HasLabel(cs, g)
    ensures CountIn(ps, g) == 0
  {
    if ps != [] {
      var n := |ps| - 1;
      forall i | 0 <= i < n ensures HasLabel(cs, ps[..n][i].group) {
        assert ps[..n][i] == ps[i];
      }
      CountZero(ps[..n], g, cs);
    }
  }

  lemma BumpCounts(cs: seq<GroupCount>, ps: seq<Person>, p: Person)
    requires Tallies(cs, ps)
    ensures var r := BumpGroup(cs, p.group);
      forall i :: 0 <= i < |r| ==> r[i].count == CountIn(ps + [p], r[i].name) && r[i].count > 0
  {
    var r := BumpGroup(cs, p.group);
    forall i | 0 <= i < |r| ensures r[i].count == CountIn(ps + [p], r[i].name) && r[i].count > 0 {
      CountInAppend(ps, p, r[i].name);
      if !HasLabel(cs, p.group) && i == |cs| {
        CountZero(ps, p.group, cs);
      }
    }
  }

  lemma BumpLabels(cs: seq<GroupCount>, ps: seq<Person>, p: Person)
    requires Tallies(cs, ps)
    ensures var r := BumpGroup(cs, p.group);
      forall i :: 0 <= i < |ps + [p]| ==> HasLabel(r, (ps + [p])[i].group)
  {
    var r := BumpGroup(cs, p.group);
    forall i | 0 <= i < |ps + [p]| ensures HasLabel(r, (ps + [p])[i].group) {
      var g := (ps + [p])[i].group;
      if HasLabel(cs, g) {
        var k :| 0 <= k < |cs| && cs[k].name == g;
        assert r[k].name == g;
      } else {
        assert i == |ps|;
        assert r[|cs|].name == g;
      }
    }
  }

  /** The `counts` map after the loop over `ps`. */
  function GroupTally(ps: seq<Person>): (r: seq<GroupCount>)
    ensures Tallies(r, ps)
  {
    if ps == [] then []
    else
      var n := |ps| - 1;
      var prev := GroupTally(ps[..n]);
      assert ps[..n] + [ps[n]] == ps;
      BumpCounts(prev, ps[..n], ps[n]);
      BumpLabels(prev, ps[..n], ps[n]);
      BumpGroup(prev, ps[n].group)
  }

  /** The loop that fills `counts`, one person at a time. */
  method CountGroups(ps: seq<Person>) returns (counts: seq<GroupCount>)
    ensures counts == GroupTally(ps)
  {
    counts := [];
    for i := 0 to |ps|
      invariant counts == GroupTally(ps[..i])
    {
      assert ps[..i + 1][..i] == ps[..i];
      counts := BumpGroup(counts, ps[i].group);
    }
    assert ps[..|ps|] == ps;
  }

  /** The comparator `(a, b) => b[1] - a[1]`: larger counts first. */
  function ByCountDesc(e: GroupCount): real
  {
    -(e.count as real)
  }

  /** The group entries from the largest to the smallest. */
  function Ranked(ps: seq<Person>): seq<GroupCount>
  {
    SortBy(GroupTally(ps), ByCountDesc)
  }

  /** Sorting by descending count keeps the entries of each count in order. */
  lemma CountTiesKeepOrder(cs: seq<GroupCount>, c: nat)
    ensures WithKey(SortBy(cs, ByCountDesc), ByCountDesc, -(c as real)) == WithKey(cs, ByCountDesc, -(c as real))
  {
    SortStable(cs, ByCountDesc, -(c as real));
  }

  /** A count tie is broken by the tally's order, which is the `Map`'s
      insertion order: the entries of each count appear in the ranking in
      the order in which their labels were first counted. */
  lemma RankedTiesKeepTallyOrder(ps: seq<Person>, c: nat)
    ensures WithKey(Ranked(ps), ByCountDesc, -(c as real)) == WithKey(GroupTally(ps), ByCountDesc, -(c as real))
  {
    CountTiesKeepOrder(GroupTally(ps), c);
  }

  lemma {:induction false} DistinctAtMostOnce(cs: seq<GroupCount>, x: GroupCount)
    requires DistinctLabels(cs)
    ensures multiset(cs)[x] <= 1
  {
    if cs != [] {
      var n := |cs| - 1;
      assert cs == cs[..n] + [cs[n]];
      assert DistinctLabels(cs[..n]);
      DistinctAtMostOnce(cs[..n], x);
      if x == cs[n] {
        assert x !in cs[..n];
      }
    }
  }

  /** The ranking holds exactly the entries of the tally. */
  lemma RankedPermutes(ps: seq<Person>)
    ensures var r, cs := Ranked(ps), GroupTally(ps);
      && |r| == |cs|
      && (forall i :: 0 <= i < |r| ==> r[i] in cs)
      && (forall i :: 0 <= i < |cs| ==> cs[i] in r)
  {
    var r, cs := Ranked(ps), GroupTally(ps);
    forall i | 0 <= i < |r| ensures r[i] in cs {
      assert r[i] in multiset(r);
    }
    forall i | 0 <= i < |cs| ensures cs[i] in r {
      assert cs[i] in multiset(cs);
    }
  }

  lemma RankedCounts(ps: seq<Person>)
    ensures var r := Ranked(ps);
      forall i :: 0 <= i < |r| ==> r[i].count == CountIn(ps, r[i].name) && r[i].count > 0
  {
    RankedPermutes(ps);
  }

  /** Every label with persons has its entry in the ranking. */
  lemma RankedFind(ps: seq<Person>, g: string) returns (k: nat)
    requires CountIn(ps, g) > 0
    ensures k < |Ranked(ps)| && Ranked(ps)[k].name == g && Ranked(ps)[k].count == CountIn(ps, g)
  {
    var r, cs := Ranked(ps), GroupTally(ps);
    var j := PersonWithLabel(ps, g);
    assert HasLabel(cs, ps[j].group);
    var i :| 0 <= i < |cs| && cs[i].name == g;
    RankedPermutes(ps);
    assert cs[i] in r;
    k :| 0 <= k < |r| && r[k] == cs[i];
  }

  /** No label has more persons than the first entry. */
  lemma RankedFirst(ps: seq<Person>, g: string)
    requires |Ranked(ps)| >= 1
    ensures CountIn(ps, g) <= Ranked(ps)[0].count
  {
    var r := Ranked(ps);
    if CountIn(ps, g) > 0 {
      var k := RankedFind(ps, g);
      if k > 0 {
        assert ByCountDesc(r[0]) <= ByCountDesc(r[k]);
      }
    }
  }

  /** No label other than the first has more persons than the second entry. */
  lemma RankedSecond(ps: seq<Person>, g: string)
    requires |Ranked(ps)| >= 2 && g != Ranked(ps)[0].name
    ensures CountIn(ps, g) <= Ranked(ps)[1].count
  {
    var r := Ranked(ps);
    if CountIn(ps, g) > 0 {
      var k := RankedFind(ps, g);
      if k > 1 {
        assert ByCountDesc(r[1]) <= ByCountDesc(r[k]);
      }
    }
  }

  /** The first two entries have different labels. */
  lemma RankedDistinct(ps: seq<Person>)
    requires |Ranked(ps)| >= 2
    ensures Ranked(ps)[0].name != Ranked(ps)[1].name
  {
    var cs := GroupTally(ps);
    assert DistinctLabels(cs);
    assert multiset(Ranked(ps)) == multiset(cs);
    PermutedLabelsDistinct(cs, Ranked(ps));
  }

  /** A permutation of entries with distinct labels starts with two labels
      that differ. */
  lemma PermutedLabelsDistinct(cs: seq<GroupCount>, r: seq<GroupCount>)
    requires DistinctLabels(cs) && multiset(r) == multiset(cs) && |r| >= 2
    ensures r[0].name != r[1].name
  {
    if r[0].name == r[1].name {
      assert r[0] in multiset(cs) && r[1] in multiset(cs);
      var i0 :| 0 <= i0 < |cs| && cs[i0] == r[0];
      var i1 :| 0 <= i1 < |cs| && cs[i1] == r[1];
      assert i0 == i1 by {
        assert cs[i0].name == cs[i1].name;
      }
      FirstTwoTwice(r);
      DistinctAtMostOnce(cs, r[0]);
    }
  }

  lemma FirstTwoTwice<T>(r: seq<T>)
    requires |r| >= 2 && r[0] == r[1]
    ensures multiset(r)[r[0]] >= 2
  {
    assert r == [r[0], r[1]] + r[2..];
  }

  /** The largest group comes first, the second-largest second, and they
      are different labels. */
  lemma RankedTop(ps: seq<Person>)
    ensures var r := Ranked(ps);
      && |r| == |GroupTally(ps)|
      && (forall i :: 0 <= i < |r| ==> r[i].count == CountIn(ps, r[i].name) && r[i].count > 0)
      && (|r| >= 1 ==> forall g :: CountIn(ps, g) <= r[0].count)
      && (|r| >= 2 ==> r[0].name != r[1].name)
      && (|r| >= 2 ==> forall g :: g != r[0].name ==> CountIn(ps, g) <= r[1].count)
  {
    var r := Ranked(ps);
    RankedCounts(ps);
    if |r| >= 1 {
      forall g ensures CountIn(ps, g) <= r[0].count {
        RankedFirst(ps, g);
      }
    }
    if |r| >= 2 {
      RankedDistinct(ps);
      forall g | g != r[0].name ensures CountIn(ps, g) <= r[1].count {
        RankedSecond(ps, g);
      }
    }
  }

  /** A label with persons is the label of one of them. */
  lemma PersonWithLabel(ps: seq<Person>, g: string) returns (j: nat)
    requires CountIn(ps, g) > 0
    ensures j < |ps| && ps[j].group == g
  {
    var n := |ps| - 1;
    if ps[n].group == g {
      j := n;
    } else {
      j := PersonWithLabel(ps[..n], g);
    }
  }

  /** Fewer than two entries happens exactly when every person has the same
      label. */
  lemma RankedTooFew(ps: seq<Person>)
    ensures |Ranked(ps)| < 2 <==> forall i, j :: 0 <= i < |ps| && 0 <= j < |ps| ==> ps[i].group == ps[j].group
  {
    var cs := GroupTally(ps);
    if |cs| >= 2 {
      var i := PersonWithLabel(ps, cs[0].name);
      var j := PersonWithLabel(ps, cs[1].name);
      assert ps[i].group != ps[j].group;
    } else {
      forall i, j | 0 <= i < |ps| && 0 <= j < |ps| ensures ps[i].group == ps[j].group {
        assert HasLabel(cs, ps[i].group) && HasLabel(cs, ps[j].group);
      }
    }
  }

  /** `person.filter(p => p.group === g)` */
  function InGroup(ps: seq<Person>, g: string): (r: seq<Person>)
    ensures |r| == CountIn(ps, g)
    ensures forall i :: 0 <= i < |r| ==> r[i].group == g && r[i] in ps
    ensures forall p :: multiset(r)[p] == if p.group == g then multiset(ps)[p] else 0
  {
    if ps == [] then []
    else
      var n := |ps| - 1;
      assert forall p :: p in ps[..n] ==> p in ps;
      assert ps == ps[..n] + [ps[n]];
      InGroup(ps[..n], g) + (if ps[n].group == g then [ps[n]] else [])
  }

  // ---------------------------------------------------------------------
  // Score strata

  function Totals(ps: seq<Person>): (r: seq<nat>)
    ensures |r| == |ps| && forall i :: 0 <= i < |ps| ==> r[i] == ps[i].total
  {
    seq(|ps|, i requires 0 <= i < |ps| => ps[i].total)
  }

  /** `Math.floor(p * (n - 1))` for p = k / 5, in exact arithmetic. */
  function QuantileIndex(k: nat, n: nat): (r: nat)
    requires 1 <= n && k <= 5
    ensures r < n
  {
    assert k * (n - 1) <= 5 * (n - 1);
    (k * (n - 1)) / 5
  }

  /** `[q(0.2), q(0.4), q(0.6), q(0.8)]` over the sorted totals. */
  function Cuts(sorted: seq<nat>): (r: seq<nat>)
    requires |sorted| >= 1
    ensures |r| == NumStrata - 1
  {
    var n := |sorted|;
    [sorted[QuantileIndex(1, n)], sorted[QuantileIndex(2, n)], sorted[QuantileIndex(3, n)], sorted[QuantileIndex(4, n)]]
  }

  lemma QuantileIndexMonotone(k: nat, n: nat)
    requires 1 <= n && k < 5
    ensures QuantileIndex(k, n) <= QuantileIndex(k + 1, n)
  {
    assert k * (n - 1) <= (k + 1) * (n - 1);
  }

  lemma SortedAt(sorted: seq<nat>, a: nat, b: nat)
    requires SortedBy(sorted, ByNat) && a <= b < |sorted|
    ensures sorted[a] <= sorted[b]
  {
    if a < b {
      assert ByNat(sorted[a]) <= ByNat(sorted[b]);
    }
  }

  lemma FourAscending(cuts: seq<nat>)
    requires |cuts| == 4 && cuts[0] <= cuts[1] <= cuts[2] <= cuts[3]
    ensures Ascending(cuts)
  {
  }

  /** The cut points are totals of persons and never decrease, so every
      stratum is a band of totals. */
  lemma CutsAscending(ts: seq<nat>)
    requires |ts| >= 1
    ensures var cuts := Cuts(SortBy(ts, ByNat));
      Ascending(cuts) && forall i :: 0 <= i < |cuts| ==> cuts[i] in ts
  {
    var sorted := SortBy(ts, ByNat);
    var n := |sorted|;
    var cuts := Cuts(sorted);
    QuantileIndexMonotone(1, n);
    QuantileIndexMonotone(2, n);
    QuantileIndexMonotone(3, n);
    SortedAt(sorted, QuantileIndex(1, n), QuantileIndex(2, n));
    SortedAt(sorted, QuantileIndex(2, n), QuantileIndex(3, n));
    SortedAt(sorted, QuantileIndex(3, n), QuantileIndex(4, n));
    FourAscending(cuts);
    forall i | 0 <= i < |cuts| ensures cuts[i] in ts {
      assert cuts[i] in sorted;
      assert cuts[i] in multiset(sorted);
    }
  }

  // ---------------------------------------------------------------------
  // Tables

  /** `addGroup(refP, true)` then `addGroup(focP, false)` on an empty map. */
  function Tabulate(ps: seq<Person>, ref: string, foc: string, cuts: seq<nat>): (r: Table)
    requires |cuts| < NumStrata
    ensures WellFormed(r)
  {
    RecordPersons(RecordPersons(EmptyTable, InGroup(ps, ref), cuts, true), InGroup(ps, foc), cuts, false)
  }

  /** Counters A and B hold the correct and incorrect responses of the
      reference group, C and D those of the focal group, and the four of
      them together count every scored response of the two groups. */
  lemma TabulateCounts(ps: seq<Person>, ref: string, foc: string, cuts: seq<nat>)
    requires |cuts| < NumStrata
    ensures var t := Tabulate(ps, ref, foc, cuts);
      var refP, focP := InGroup(ps, ref), InGroup(ps, foc);
      && Tally(t, A) == PersonsTally(refP, true, A)
      && Tally(t, B) == PersonsTally(refP, true, B)
      && Tally(t, C) == PersonsTally(focP, false, C)
      && Tally(t, D) == PersonsTally(focP, false, D)
      && Tally(t, A) + Tally(t, B) == ResponseCount(refP)
      && Tally(t, C) + Tally(t, D) == ResponseCount(focP)
  {
    var refP, focP := InGroup(ps, ref), InGroup(ps, foc);
    var t0 := RecordPersons(EmptyTable, refP, cuts, true);
    assert forall k :: Tally(EmptyTable, k) == 0;
    PersonsTallySplit(refP, true);
    PersonsTallySplit(focP, false);
    forall k ensures Tally(Tabulate(ps, ref, foc, cuts), k) == PersonsTally(refP, true, k) + PersonsTally(focP, false, k) {
      RecordPersonsTally(EmptyTable, refP, cuts, true, k);
      RecordPersonsTally(t0, focP, cuts, false, k);
    }
  }

  // ---------------------------------------------------------------------
  // Rows

  /** The row of an item, from the sums over its strata. */
  function RowOf(id: string, strata: map<string, seq<Cell>>, ln: real -> real): Option<Row>
    requires id in strata
  {
    ItemRow(id, NumSum(strata[id]), DenSum(strata[id]), ln)
  }

  /** The rows of the items in `order`, skipping those whose sums are not
      both positive. */
  function RowsOf(order: seq<string>, strata: map<string, seq<Cell>>, ln: real -> real): (r: seq<Row>)
    requires forall id :: id in order ==> id in strata
    ensures |r| <= |order|
    ensures forall i :: 0 <= i < |r| ==> (r[i].itemId in order && RowOf(r[i].itemId, strata, ln) == Some(r[i]))
  {
    if order == [] then []
    else
      var n := |order| - 1;
      var prev := RowsOf(order[..n], strata, ln);
      assert forall x :: x in order[..n] ==> x in order;
      var row := RowOf(order[n], strata, ln);
      if row.Some? then prev + [row.value] else prev
  }

  /** Every item whose sums are both positive has a row. */
  lemma {:induction false} RowsComplete(order: seq<string>, strata: map<string, seq<Cell>>, ln: real -> real, id: string)
    requires forall x :: x in order ==> x in strata
    requires id in order && NumSum(strata[id]) > 0.0 && DenSum(strata[id]) > 0.0
    ensures exists i :: 0 <= i < |RowsOf(order, strata, ln)| && RowsOf(order, strata, ln)[i].itemId == id
  {
    var n := |order| - 1;
    var r := RowsOf(order, strata, ln);
    var prev := RowsOf(order[..n], strata, ln);
    if order[n] == id {
      assert r[|r| - 1].itemId == id;
    } else {
      assert id in order[..n] by {
        var k :| 0 <= k < |order| && order[k] == id;
        assert order[..n][k] == id;
      }
      RowsComplete(order[..n], strata, ln, id);
      var i :| 0 <= i < |prev| && prev[i].itemId == id;
      assert r[i] == prev[i];
    }
  }

  /** Each item yields at most one row. */
  lemma {:induction false} RowsDistinct(order: seq<string>, strata: map<string, seq<Cell>>, ln: real -> real)
    requires forall id :: id in order ==> id in strata
    requires Distinct(order)
    ensures var r := RowsOf(order, strata, ln);
      forall i, j :: 0 <= i < j < |r| ==> r[i].itemId != r[j].itemId
  {
    if order != [] {
      var n := |order| - 1;
      assert Distinct(order[..n]);
      RowsDistinct(order[..n], strata, ln);
      assert order[n] !in order[..n] by {
        forall i | 0 <= i < n ensures order[..n][i] != order[n] {
          assert order[i] != order[n];
        }
      }
      var r, prev := RowsOf(order, strata, ln), RowsOf(order[..n], strata, ln);
      RowsOfStep(order, strata, ln);
      forall i, j | 0 <= i < j < |r| ensures r[i].itemId != r[j].itemId {
        if j >= |prev| {
          assert prev[i].itemId in order[..n];
        }
      }
    }
  }

  /** The rows of a longer key list extend those of its prefix by at most
      the row of the last key. */
  lemma RowsOfStep(order: seq<string>, strata: map<string, seq<Cell>>, ln: real -> real)
    requires forall id :: id in order ==> id in strata
    requires order != []
    ensures var n := |order| - 1;
      var r, prev := RowsOf(order, strata, ln), RowsOf(order[..n], strata, ln);
      && |prev| <= |r| <= |prev| + 1
      && (forall i :: 0 <= i < |prev| ==> r[i] == prev[i])
      && (|r| == |prev| + 1 ==> r[|prev|].itemId == order[n])
  {
  }

  /** The rows of one more key. */
  lemma RowsOfSnoc(order: seq<string>, strata: map<string, seq<Cell>>, ln: real -> real, i: nat)
    requires forall id :: id in order ==> id in strata
    requires i < |order|
    ensures var row := RowOf(order[i], strata, ln);
      RowsOf(order[..i + 1], strata, ln) == RowsOf(order[..i], strata, ln) + (if row.Some? then [row.value] else [])
  {
    assert order[..i + 1][..i] == order[..i];
  }

  /** The loop over the item map computing each item's sums and row. */
  method BuildRows(stats: ItemStats, ln: real -> real) returns (rows: seq<Row>)
    requires WellFormed(stats.Value())
    ensures rows == RowsOf(stats.order, stats.strata, ln)
  {
    rows := [];
    var order, strata := stats.order, stats.strata;
    assert forall id :: id in order ==> id in strata;
    for i := 0 to |order|
      invariant rows == RowsOf(order[..i], strata, ln)
    {
      var id := order[i];
      var num, den := MhSums(strata[id]);
      var row := ItemRow(id, num, den, ln);
      RowsOfSnoc(order, strata, ln, i);
      if row.Some? {
        rows := rows + [row.value];
      }
    }
    assert order[..|order|] == order;
  }

  /** The comparator on `|deltaMH|`, largest first. */
  function ByAbsDeltaDesc(r: Row): real
  {
    -Abs(r.delta)
  }

  /** The rows sorted by non-increasing `|deltaMH|`, ties in item order. */
  function RankRows(rows: seq<Row>): (r: seq<Row>)
    ensures multiset(r) == multiset(rows)
    ensures forall i, j :: 0 <= i < j < |r| ==> Abs(r[i].delta) >= Abs(r[j].delta)
  {
    var r := SortBy(rows, ByAbsDeltaDesc);
    assert forall i, j :: 0 <= i < j < |r| ==> ByAbsDeltaDesc(r[i]) <= ByAbsDeltaDesc(r[j]);
    r
  }

  // ---------------------------------------------------------------------
  // CSV

  const Header: seq<string> := ["itemId", "alpha", "deltaMH", "flag"]

  /** The four fields of a row; `fixed(v, d)` is `v.toFixed(d)`. */
  function RowFields(r: Row, fixed: (real, nat) -> string): seq<string>
  {
    [r.itemId, fixed(r.alpha, 4), fixed(r.delta, 3), r.flag]
  }

  function RowRecords(rows: seq<Row>, fixed: (real, nat) -> string): (r: seq<seq<string>>)
    ensures |r| == |rows| && forall i :: 0 <= i < |rows| ==> r[i] == RowFields(rows[i], fixed)
  {
    seq(|rows|, i requires 0 <= i < |rows| => RowFields(rows[i], fixed))
  }

  /** The header joined by commas, then one escaped record per row, all
      joined by line feeds. */
  function CsvText(rows: seq<Row>, fixed: (real, nat) -> string): string
  {
    Join([Join(Header, ",")] + WriteRecords(RowRecords(rows, fixed)), "\n")
  }

  /** Reading the CSV back gives the header and then the four fields of
      every row, in row order: one line per retained item. */
  lemma CsvReadsBack(rows: seq<Row>, fixed: (real, nat) -> string)
    ensures ReadTable(CsvText(rows, fixed)) == [Header] + RowRecords(rows, fixed)
  {
    var recs := [Header] + RowRecords(rows, fixed);
    forall k | 0 <= k < |Header| ensures !NeedsQuotes(Header[k]) {
    }
    WriteRecordPlain(Header);
    assert WriteRecords(recs) == [Join(Header, ",")] + WriteRecords(RowRecords(rows, fixed));
    ReadTableWritten(recs);
  }

  // ---------------------------------------------------------------------
  // The whole run

  /** Fewer persons than this stop the screen. */
  const MinPersons: nat := 60

  datatype DifError = TooFewPersons(persons: nat) | FewerThanTwoGroups

  /** What the run reports: the two groups and their sizes, the cut points,
      the item tables, the sorted rows, the CSV text and its file name. */
  datatype Report = Report(reference: string, focal: string, referenceN: nat, focalN: nat,
                           cuts: seq<nat>, table: Table, rows: seq<Row>, csv: string, fileName: string)

  function FileName(groupKey: string, ref: string, foc: string): string
  {
    "dif_screen_" + groupKey + "_" + ref + "_vs_" + foc + ".csv"
  }

  /** The screen as a function of the sessions, the grouping key, the
      natural logarithm and `toFixed`. */
  function Screen(sessions: seq<Session>, groupKey: string, ln: real -> real, fixed: (real, nat) -> string): Result<Report, DifError>
  {
    var ps := PersonsIn(sessions, groupKey);
    if |ps| < MinPersons then Failure(TooFewPersons(|ps|))
    else
      var top := Ranked(ps);
      if |top| < 2 then Failure(FewerThanTwoGroups)
      else
        var ref, foc := top[0].name, top[1].name;
        var cuts := Cuts(SortBy(Totals(ps), ByNat));
        var table := Tabulate(ps, ref, foc, cuts);
        var rows := RankRows(RowsOf(table.order, table.strata, ln));
        Success(Report(ref, foc, |InGroup(ps, ref)|, |InGroup(ps, foc)|, cuts, table, rows,
                       CsvText(rows, fixed), FileName(groupKey, ref, foc)))
  }

  /** `runDIFReport` up to the download and the closing alert. */
  method RunDifReport(sessions: seq<Session>, groupKey: string, ln: real -> real, fixed: (real, nat) -> string)
    returns (res: Result<Report, DifError>)
    ensures res == Screen(sessions, groupKey, ln, fixed)
  {
    var done := Completed(sessions);
    var person := BuildPersons(done, groupKey);
    if |person| < MinPersons {
      return Failure(TooFewPersons(|person|));
    }
    var counts := CountGroups(person);
    var top := SortBy(counts, ByCountDesc);
    if |top| < 2 {
      return Failure(FewerThanTwoGroups);
    }
    var ref, foc := top[0].name, top[1].name;
    var refP, focP := InGroup(person, ref), InGroup(person, foc);
    var sorted := SortBy(Totals(person), ByNat);
    var cuts := Cuts(sorted);
    var stats := new ItemStats();
    AddGroup(stats, refP, true, cuts);
    AddGroup(stats, focP, false, cuts);
    var rows := BuildRows(stats, ln);
    rows := RankRows(rows);
    var csv := CsvText(rows, fixed);
    res := Success(Report(ref, foc, |refP|, |focP|, cuts, stats.Value(), rows, csv, FileName(groupKey, ref, foc)));
  }

  /** The run stops with too few persons exactly when fewer than 60 have a
      group label, and with too few groups exactly when they all share one. */
  lemma ScreenFails(sessions: seq<Session>, groupKey: string, ln: real -> real, fixed: (real, nat) -> string)
    ensures var ps := PersonsIn(sessions, groupKey);
      var res := Screen(sessions, groupKey, ln, fixed);
      && (res == Failure(TooFewPersons(|ps|)) <==> |ps| < MinPersons)
      && (res == Failure(FewerThanTwoGroups) <==>
           |ps| >= MinPersons && forall i, j :: 0 <= i < |ps| && 0 <= j < |ps| ==> ps[i].group == ps[j].group)
      && (res.Success? <==> |ps| >= MinPersons && exists i, j :: 0 <= i < |ps| && 0 <= j < |ps| && ps[i].group != ps[j].group)
  {
    RankedTooFew(PersonsIn(sessions, groupKey));
  }

  /** The reference group is a largest group, the focal group a largest one
      among the others, and the sizes reported are theirs. */
  lemma ScreenGroups(sessions: seq<Session>, groupKey: string, ln: real -> real, fixed: (real, nat) -> string)
    requires Screen(sessions, groupKey, ln, fixed).Success?
    ensures var ps := PersonsIn(sessions, groupKey);
      var rep := Screen(sessions, groupKey, ln, fixed).value;
      && rep.reference != rep.focal
      && rep.referenceN == CountIn(ps, rep.reference) && rep.focalN == CountIn(ps, rep.focal)
      && rep.focalN > 0
      && (forall g :: CountIn(ps, g) <= rep.referenceN)
      && (forall g :: g != rep.reference ==> CountIn(ps, g) <= rep.focalN)
  {
    RankedTop(PersonsIn(sessions, groupKey));
  }

  /** The cut points are four non-decreasing totals of persons, and the
      tables count every scored response of the two groups in the right
      counter. */
  lemma ScreenTables(sessions: seq<Session>, groupKey: string, ln: real -> real, fixed: (real, nat) -> string)
    requires Screen(sessions, groupKey, ln, fixed).Success?
    ensures var ps := PersonsIn(sessions, groupKey);
      var rep := Screen(sessions, groupKey, ln, fixed).value;
      var refP, focP := InGroup(ps, rep.reference), InGroup(ps, rep.focal);
      && |rep.cuts| == NumStrata - 1 && Ascending(rep.cuts)
      && (forall i :: 0 <= i < |rep.cuts| ==> rep.cuts[i] in Totals(ps))
      && WellFormed(rep.table)
      && Tally(rep.table, A) + Tally(rep.table, B) == ResponseCount(refP)
      && Tally(rep.table, C) + Tally(rep.table, D) == ResponseCount(focP)
      && Tally(rep.table, A) == PersonsTally(refP, true, A)
      && Tally(rep.table, C) == PersonsTally(focP, false, C)
  {
    var ps := PersonsIn(sessions, groupKey);
    var rep := Screen(sessions, groupKey, ln, fixed).value;
    CutsAscending(Totals(ps));
    TabulateCounts(ps, rep.reference, rep.focal, rep.cuts);
  }

  /** Sorting keeps every row valid: it belongs to an item and carries the
      odds ratio, delta and flag of that item's tables. */
  lemma RankedRowsValid(order: seq<string>, strata: map<string, seq<Cell>>, ln: real -> real)
    requires forall id :: id in order ==> id in strata
    ensures var rows := RankRows(RowsOf(order, strata, ln));
      forall i :: 0 <= i < |rows| ==> (rows[i].itemId in order && RowOf(rows[i].itemId, strata, ln) == Some(rows[i]))
  {
    var unsorted := RowsOf(order, strata, ln);
    PermutedRowsValid(unsorted, RankRows(unsorted), order, strata, ln);
  }

  /** Each row of a permutation is a row of the original. */
  lemma PermutedRowsValid(unsorted: seq<Row>, rows: seq<Row>, order: seq<string>,
                          strata: map<string, seq<Cell>>, ln: real -> real)
    requires forall id :: id in order ==> id in strata
    requires multiset(rows) == multiset(unsorted)
    requires forall k :: 0 <= k < |unsorted| ==>
      (unsorted[k].itemId in order && RowOf(unsorted[k].itemId, strata, ln) == Some(unsorted[k]))
    ensures forall i :: 0 <= i < |rows| ==>
      (rows[i].itemId in order && RowOf(rows[i].itemId, strata, ln) == Some(rows[i]))
  {
    forall i | 0 <= i < |rows| ensures rows[i].itemId in order && RowOf(rows[i].itemId, strata, ln) == Some(rows[i]) {
      assert rows[i] in multiset(rows);
      var k :| 0 <= k < |unsorted| && unsorted[k] == rows[i];
    }
  }

  /** Sorting loses no item. */
  lemma RankedRowsComplete(order: seq<string>, strata: map<string, seq<Cell>>, ln: real -> real, id: string)
    requires forall x :: x in order ==> x in strata
    requires id in order && NumSum(strata[id]) > 0.0 && DenSum(strata[id]) > 0.0
    ensures var rows := RankRows(RowsOf(order, strata, ln));
      exists i :: 0 <= i < |rows| && rows[i].itemId == id
  {
    var unsorted := RowsOf(order, strata, ln);
    RowsComplete(order, strata, ln, id);
    PermutedRowsKeepItem(unsorted, RankRows(unsorted), id);
  }

  /** A permutation keeps the row of an item. */
  lemma PermutedRowsKeepItem(unsorted: seq<Row>, rows: seq<Row>, id: string)
    requires multiset(rows) == multiset(unsorted)
    requires exists a :: 0 <= a < |unsorted| && unsorted[a].itemId == id
    ensures exists i :: 0 <= i < |rows| && rows[i].itemId == id
  {
    var a :| 0 <= a < |unsorted| && unsorted[a].itemId == id;
    assert unsorted[a] in multiset(rows);
    var i :| 0 <= i < |rows| && rows[i] == unsorted[a];
  }

  /** Sorting keeps one row per item. */
  lemma RankedRowsDistinct(order: seq<string>, strata: map<string, seq<Cell>>, ln: real -> real)
    requires forall id :: id in order ==> id in strata
    requires Distinct(order)
    ensures var rows := RankRows(RowsOf(order, strata, ln));
      forall i, j :: 0 <= i < j < |rows| ==> rows[i].itemId != rows[j].itemId
  {
    RowsDistinct(order, strata, ln);
    var unsorted := RowsOf(order, strata, ln);
    assert multiset(RankRows(unsorted)) == multiset(unsorted);
    assert forall a, b :: 0 <= a < b < |unsorted| ==> unsorted[a].itemId != unsorted[b].itemId;
    DistinctIdsPermuted(unsorted, RankRows(unsorted));
  }

  lemma DistinctIdsPermuted(unsorted: seq<Row>, rows: seq<Row>)
    requires multiset(rows) == multiset(unsorted)
    requires forall a, b :: 0 <= a < b < |unsorted| ==> unsorted[a].itemId != unsorted[b].itemId
    ensures forall i, j :: 0 <= i < j < |rows| ==> rows[i].itemId != rows[j].itemId
  {
    forall i, j | 0 <= i < j < |rows| ensures rows[i].itemId != rows[j].itemId {
      if rows[i].itemId == rows[j].itemId {
        SameRowTwice(unsorted, rows, i, j);
        RowsAtMostOnce(unsorted, rows[i]);
      }
    }
  }

  lemma SameRowTwice(unsorted: seq<Row>, rows: seq<Row>, i: nat, j: nat)
    requires multiset(rows) == multiset(unsorted)
    requires forall a, b :: 0 <= a < b < |unsorted| ==> unsorted[a].itemId != unsorted[b].itemId
    requires i < j < |rows| && rows[i].itemId == rows[j].itemId
    ensures multiset(unsorted)[rows[i]] >= 2
  {
    assert rows[i] in multiset(unsorted) && rows[j] in multiset(unsorted);
    var a :| 0 <= a < |unsorted| && unsorted[a] == rows[i];
    var b :| 0 <= b < |unsorted| && unsorted[b] == rows[j];
    assert a == b;
    assert rows == rows[..j] + [rows[j]] + rows[j + 1..];
    assert rows[i] in rows[..j];
    assert multiset(rows)[rows[i]] == multiset(rows[..j])[rows[i]] + 1 + multiset(rows[j + 1..])[rows[i]];
  }

  /** The rows are sorted by non-increasing |delta|, hold one row for each
      item whose sums are both positive and no other, and every row carries
      the odds ratio, delta and flag of its item's tables. */
  lemma ScreenRows(sessions: seq<Session>, groupKey: string, ln: real -> real, fixed: (real, nat) -> string)
    requires Screen(sessions, groupKey, ln, fixed).Success?
    ensures var rep := Screen(sessions, groupKey, ln, fixed).value;
      var t := rep.table;
      && WellFormed(t)
      && (forall i, j :: 0 <= i < j < |rep.rows| ==> Abs(rep.rows[i].delta) >= Abs(rep.rows[j].delta))
      && (forall i, j :: 0 <= i < j < |rep.rows| ==> rep.rows[i].itemId != rep.rows[j].itemId)
      && (forall i :: 0 <= i < |rep.rows| ==> (rep.rows[i].itemId in t.strata && RowOf(rep.rows[i].itemId, t.strata, ln) == Some(rep.rows[i])))
      && (forall id :: id in t.strata && NumSum(t.strata[id]) > 0.0 && DenSum(t.strata[id]) > 0.0 ==>
           exists i :: 0 <= i < |rep.rows| && rep.rows[i].itemId == id)
  {
    var rep := Screen(sessions, groupKey, ln, fixed).value;
    ScreenShape(sessions, groupKey, ln, fixed);
    RankedRowsFacts(rep.table, ln);
  }

  /** The report's rows are the ranked rows of its own table. */
  lemma ScreenShape(sessions: seq<Session>, groupKey: string, ln: real -> real, fixed: (real, nat) -> string)
    requires Screen(sessions, groupKey, ln, fixed).Success?
    ensures var rep := Screen(sessions, groupKey, ln, fixed).value;
      WellFormed(rep.table) && rep.rows == RankRows(RowsOf(rep.table.order, rep.table.strata, ln))
  {
  }

  /** The ranked rows of a table, sorted, one per item, valid and complete. */
  lemma RankedRowsFacts(t: Table, ln: real -> real)
    requires WellFormed(t)
    ensures var rows := RankRows(RowsOf(t.order, t.strata, ln));
      && (forall i, j :: 0 <= i < j < |rows| ==> Abs(rows[i].delta) >= Abs(rows[j].delta))
      && (forall i, j :: 0 <= i < j < |rows| ==> rows[i].itemId != rows[j].itemId)
      && (forall i :: 0 <= i < |rows| ==> (rows[i].itemId in t.strata && RowOf(rows[i].itemId, t.strata, ln) == Some(rows[i])))
      && (forall id :: id in t.strata && NumSum(t.strata[id]) > 0.0 && DenSum(t.strata[id]) > 0.0 ==>
           exists i :: 0 <= i < |rows| && rows[i].itemId == id)
  {
    var rows := RankRows(RowsOf(t.order, t.strata, ln));
    RankedRowsValid(t.order, t.strata, ln);
    RankedRowsDistinct(t.order, t.strata, ln);
    forall id | id in t.strata && NumSum(t.strata[id]) > 0.0 && DenSum(t.strata[id]) > 0.0
      ensures exists i :: 0 <= i < |rows| && rows[i].itemId == id
    {
      RankedRowsComplete(t.order, t.strata, ln, id);
    }
  }

  lemma {:induction false} RowsAtMostOnce(rows: seq<Row>, x: Row)
    requires forall i, j :: 0 <= i < j < |rows| ==> rows[i].itemId != rows[j].itemId
    ensures multiset(rows)[x] <= 1
  {
    if rows != [] {
      var n := |rows| - 1;
      assert rows == rows[..n] + [rows[n]];
      RowsAtMostOnce(rows[..n], x);
      if x == rows[n] {
        assert x !in rows[..n];
      }
    }
  }

  /** The CSV holds the header and one line per row, in row order. */
  lemma ScreenCsv(sessions: seq<Session>, groupKey: string, ln: real -> real, fixed: (real, nat) -> string)
    requires Screen(sessions, groupKey, ln, fixed).Success?
    ensures var rep := Screen(sessions, groupKey, ln, fixed).value;
      && ReadTable(rep.csv) == [Header] + RowRecords(rep.rows, fixed)
      && |ReadTable(rep.csv)| == 1 + |rep.rows|
      && rep.fileName == "dif_screen_" + groupKey + "_" + rep.reference + "_vs_" + rep.focal + ".csv"
  {
    var rep := Screen(sessions, groupKey, ln, fixed).value;
    CsvReadsBack(rep.rows, fixed);
  }
}
