/** `inferGroupLevels`: the distinct, sorted values of the three grouping
    fields of the session metadata, offered as reference and focal levels. */
module GroupLevels {
  import opened Sessions
  import opened Text

  datatype Levels = Levels(groupA: seq<string>, groupB: seq<string>, groupC: seq<string>)

  /** Strictly increasing in the default order of `Array.prototype.sort`. */
  predicate Strict(xs: seq<string>)
  {
    forall i, j :: 0 <= i < j < |xs| ==> StrLess(xs[i], xs[j])
  }

  /** A strictly increasing list holds no value twice. */
  lemma StrictIsDistinct(xs: seq<string>)
    requires Strict(xs)
    ensures Distinct(xs)
  {
    forall i, j | 0 <= i < j < |xs| ensures xs[i] != xs[j] {
      StrLessIrreflexive(xs[i]);
    }
  }

  /** The value of a metadata field when it is truthy, i.e. present and not
      the empty text. */
  predicate HasTruthy(s: Session, key: string)
  {
    key in s.meta && s.meta[key] != ""
  }

  /** The truthy values of a metadata field across the sessions. */
  function TruthyValues(ss: seq<Session>, key: string): set<string>
  {
    if ss == [] then {}
    else
      var last := ss[|ss| - 1];
      TruthyValues(ss[..|ss| - 1], key) + (if HasTruthy(last, key) then {last.meta[key]} else {})
  }

  /** A value is collected iff some session carries it, non-empty, in the field. */
  lemma {:induction false} TruthyValuesMembers(ss: seq<Session>, key: string, v: string)
    ensures v in TruthyValues(ss, key) <==> exists s :: s in ss && HasTruthy(s, key) && s.meta[key] == v
  {
    if ss != [] {
      var init, last := ss[..|ss| - 1], ss[|ss| - 1];
      TruthyValuesMembers(init, key, v);
      assert ss == init + [last];
      if v in TruthyValues(init, key) {
        var s :| s in init && HasTruthy(s, key) && s.meta[key] == v;
        assert s in ss;
      }
      if exists s :: s in ss && HasTruthy(s, key) && s.meta[key] == v {
        var s :| s in ss && HasTruthy(s, key) && s.meta[key] == v;
        if s != last {
          assert s in init;
        }
      }
    }
  }

  /** Inserts a new value into a strictly increasing list. */
  function InsertStr(x: string, xs: seq<string>): (r: seq<string>)
    requires Strict(xs) && x !in xs
    ensures |r| == |xs| + 1
    ensures forall v :: v in r <==> v in xs || v == x
    ensures Strict(r)
  {
    if xs == [] then [x]
    else if StrLess(x, xs[0]) then
      forall j | 0 < j < |xs| ensures StrLess(x, xs[j]) {
        StrLessTransitive(x, xs[0], xs[j]);
      }
      [x] + xs
    else
      StrLessTotal(x, xs[0]);
      assert xs == [xs[0]] + xs[1..];
      var t := InsertStr(x, xs[1..]);
      forall j | 0 <= j < |t| ensures StrLess(xs[0], t[j]) {
        if t[j] != x {
          assert t[j] in t;
          assert t[j] in xs[1..];
          var k :| 0 <= k < |xs[1..]| && xs[1..][k] == t[j];
          assert xs[k + 1] == t[j];
        }
      }
      [xs[0]] + t
  }

  /** `[...set].sort()`: the values of a duplicate-free list in increasing order. */
  function SortStrings(xs: seq<string>): (r: seq<string>)
    requires Distinct(xs)
    ensures |r| == |xs|
    ensures forall v :: v in r <==> v in xs
    ensures Strict(r)
  {
    if xs == [] then []
    else
      assert xs == [xs[0]] + xs[1..];
      InsertStr(xs[0], SortStrings(xs[1..]))
  }

  /** `set.add(v)` on the insertion-ordered contents of a JavaScript `Set`. */
  function Add(seen: seq<string>, v: string): (r: seq<string>)
    requires Distinct(seen)
    ensures Distinct(r)
    ensures forall w :: w in r <==> w in seen || w == v
  {
    if v in seen then seen else seen + [v]
  }

  /** Adds the truthy value of one field of one session. */
  function Collect(seen: seq<string>, s: Session, key: string): (r: seq<string>)
    requires Distinct(seen)
    ensures Distinct(r)
    ensures forall w :: w in r <==> w in seen || (HasTruthy(s, key) && w == s.meta[key])
  {
    if HasTruthy(s, key) then Add(seen, s.meta[key]) else seen
  }

  /** `inferGroupLevels(sessionsList)`: for each grouping field, exactly the
      truthy values it takes across the sessions, strictly increasing and so
      without duplicates. */
  method InferGroupLevels(sessions: seq<Session>) returns (levels: Levels)
    ensures Strict(levels.groupA) && Strict(levels.groupB) && Strict(levels.groupC)
    ensures forall v :: v in levels.groupA <==> v in TruthyValues(sessions, "groupA")
    ensures forall v :: v in levels.groupB <==> v in TruthyValues(sessions, "groupB")
    ensures forall v :: v in levels.groupC <==> v in TruthyValues(sessions, "groupC")
  {
    var a, b, c := [], [], [];
    for i := 0 to |sessions|
      invariant Distinct(a) && Distinct(b) && Distinct(c)
      invariant forall v :: v in a <==> v in TruthyValues(sessions[..i], "groupA")
      invariant forall v :: v in b <==> v in TruthyValues(sessions[..i], "groupB")
      invariant forall v :: v in c <==> v in TruthyValues(sessions[..i], "groupC")
    {
      assert sessions[..i + 1][..i] == sessions[..i];
      var s := sessions[i];
      a := Collect(a, s, "groupA");
      b := Collect(b, s, "groupB");
      c := Collect(c, s, "groupC");
    }
    assert sessions[..|sessions|] == sessions;
    levels := Levels(SortStrings(a), SortStrings(b), SortStrings(c));
  }
}
