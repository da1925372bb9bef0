/** The per-item tables of the DIF screen: the score strata of a total and
    the 2x2 counts (A, B, C, D) of each item in each stratum, filled in by
    walking the reference group and then the focal group. */
module DifTables {
  import opened Text
  import opened Sessions
  import opened MantelHaenszel

  /** A person kept for the screen: their session, normalised group label,
      total score proxy and scored `ITEM_RESPONSE` payloads. */
  datatype Person = Person(sessionId: string, group: string, total: nat, evts: seq<Payload>)

  /** Five score strata, separated by four cut points. */
  const NumStrata: nat := 5

  // ---------------------------------------------------------------------
  // Strata

  /** The number of cut points strictly below `t`. */
  function CountBelow(cuts: seq<nat>, t: nat): (r: nat)
    ensures r <= |cuts|
  {
    if cuts == [] then 0
    else CountBelow(cuts[..|cuts| - 1], t) + (if t > cuts[|cuts| - 1] then 1 else 0)
  }

  /** `stratum(t)`: the loop over the cut points counting those below `t`. */
  method Stratum(cuts: seq<nat>, t: nat) returns (s: nat)
    ensures s == CountBelow(cuts, t)
  {
    s := 0;
    for i := 0 to |cuts|
      invariant s == CountBelow(cuts[..i], t)
    {
      assert cuts[..i + 1][..i] == cuts[..i];
      if t > cuts[i] {
        s := s + 1;
      }
    }
    assert cuts[..|cuts|] == cuts;
  }

  predicate Ascending(cuts: seq<nat>)
  {
    forall i, j :: 0 <= i < j < |cuts| ==> cuts[i] <= cuts[j]
  }

  /** A higher total never falls into a lower stratum. */
  lemma {:induction false} StratumMonotone(cuts: seq<nat>, t: nat, u: nat)
    requires t <= u
    ensures CountBelow(cuts, t) <= CountBelow(cuts, u)
  {
    if cuts != [] {
      StratumMonotone(cuts[..|cuts| - 1], t, u);
    }
  }

  /** With ascending cut points the stratum of `t` is the bin it falls in:
      the cuts before position `s` are below `t`, the others are not. */
  lemma {:induction false} StratumIsBin(cuts: seq<nat>, t: nat)
    requires Ascending(cuts)
    ensures forall k :: 0 <= k < |cuts| ==> (k < CountBelow(cuts, t) <==> cuts[k] < t)
  {
    if cuts != [] {
      var n := |cuts| - 1;
      var p := cuts[..n];
      assert Ascending(p);
      StratumIsBin(p, t);
      if t > cuts[n] {
        assert CountBelow(p, t) >= n;
      }
    }
  }

  // ---------------------------------------------------------------------
  // Cells

  /** The four counters of a cell: reference correct / incorrect, focal
      correct / incorrect. */
  datatype Slot = A | B | C | D

  /** `isRef` and `x` select the counter a response increments. */
  function SlotOf(isRef: bool, correct: bool): (k: Slot)
    ensures isRef <==> k in {A, B}
    ensures correct <==> k in {A, C}
  {
    if isRef then (if correct then A else B) else (if correct then C else D)
  }

  function CellCount(c: Cell, k: Slot): nat
  {
    match k
    case A => c.a
    case B => c.b
    case C => c.c
    case D => c.d
  }

  /** `st.A++` and its siblings: exactly one counter goes up by one. */
  function Bump(c: Cell, k: Slot): (r: Cell)
    ensures CellCount(r, k) == CellCount(c, k) + 1
    ensures forall j :: j != k ==> CellCount(r, j) == CellCount(c, j)
  {
    match k
    case A => c.(a := c.a + 1)
    case B => c.(b := c.b + 1)
    case C => c.(c := c.c + 1)
    case D => c.(d := c.d + 1)
  }

  // ---------------------------------------------------------------------
  // The item map as a value

  /** The `itemStats` map: its keys in insertion order and, per item, one
      cell per stratum. */
  datatype Table = Table(order: seq<string>, strata: map<string, seq<Cell>>)

  ghost predicate WellFormed(t: Table)
  {
    (forall id :: id in t.strata <==> id in t.order)
    && Distinct(t.order)
    && (forall id :: id in t.strata ==> |t.strata[id]| == NumStrata)
  }

  const EmptyCell: Cell := Cell(0, 0, 0, 0)

  function EmptyStrata(): (r: seq<Cell>)
    ensures |r| == NumStrata && forall i :: 0 <= i < |r| ==> r[i] == EmptyCell
  {
    [EmptyCell, EmptyCell, EmptyCell, EmptyCell, EmptyCell]
  }

  const EmptyTable: Table := Table([], map[])

  /** `ensure(itemId)`: adds five empty cells for an item not seen before. */
  function EnsureItem(t: Table, id: string): (r: Table)
    requires WellFormed(t)
    ensures WellFormed(r) && id in r.strata
    ensures id in t.strata ==> r == t
    ensures id !in t.strata ==> r.order == t.order + [id] && r.strata == t.strata[id := EmptyStrata()]
  {
    if id in t.strata then t else Table(t.order + [id], t.strata[id := EmptyStrata()])
  }

  /** One response of item `id` counted in stratum `s` under counter `k`. */
  function Record(t: Table, id: string, s: nat, k: Slot): (r: Table)
    requires WellFormed(t) && s < NumStrata
    ensures WellFormed(r)
  {
    var u := EnsureItem(t, id);
    u.(strata := u.strata[id := u.strata[id][s := Bump(u.strata[id][s], k)]])
  }

  /** The cell of item `id` in stratum `s` before a response is recorded:
      the existing one, or an empty one for a new item. */
  function CellBefore(t: Table, id: string, s: nat): Cell
    requires WellFormed(t) && s < NumStrata
  {
    if id in t.strata then t.strata[id][s] else EmptyCell
  }

  /** Recording a response changes exactly one counter of one cell: the
      counter `k` of item `id` in stratum `s`. Other items, other strata and
      the other counters are as before, and a new item is appended to the
      key order. */
  lemma RecordChangesOneCounter(t: Table, id: string, s: nat, k: Slot)
    requires WellFormed(t) && s < NumStrata
    ensures var r := Record(t, id, s, k);
      && id in r.strata
      && CellCount(r.strata[id][s], k) == CellCount(CellBefore(t, id, s), k) + 1
      && (forall j :: j != k ==> CellCount(r.strata[id][s], j) == CellCount(CellBefore(t, id, s), j))
      && (forall i :: 0 <= i < NumStrata && i != s ==> r.strata[id][i] == (if id in t.strata then t.strata[id][i] else EmptyCell))
      && (forall other :: other in t.strata && other != id ==> other in r.strata && r.strata[other] == t.strata[other])
      && r.order == (if id in t.strata then t.order else t.order + [id])
  {
  }

  /** The item ids of a sequence of responses. */
  function ItemsOf(evts: seq<Payload>): set<string>
  {
    if evts == [] then {} else ItemsOf(evts[..|evts| - 1]) + {evts[|evts| - 1].itemId}
  }

  /** The responses of one person, all in stratum `s`. */
  function RecordEvents(t: Table, evts: seq<Payload>, s: nat, isRef: bool): (r: Table)
    requires WellFormed(t) && s < NumStrata
    ensures WellFormed(r)
    ensures r.strata.Keys == t.strata.Keys + ItemsOf(evts)
  {
    if evts == [] then t
    else
      var n := |evts| - 1;
      Record(RecordEvents(t, evts[..n], s, isRef), evts[n].itemId, s, SlotOf(isRef, Truthy(evts[n].x)))
  }

  /** `addGroup(ps, isRef)`: every person's responses in the stratum of
      their total. */
  function RecordPersons(t: Table, ps: seq<Person>, cuts: seq<nat>, isRef: bool): (r: Table)
    requires WellFormed(t) && |cuts| < NumStrata
    ensures WellFormed(r)
  {
    if ps == [] then t
    else
      var n := |ps| - 1;
      RecordEvents(RecordPersons(t, ps[..n], cuts, isRef), ps[n].evts, CountBelow(cuts, ps[n].total), isRef)
  }

  // ---------------------------------------------------------------------
  // Counter totals

  function StrataTally(cs: seq<Cell>, k: Slot): nat
  {
    if cs == [] then 0 else StrataTally(cs[..|cs| - 1], k) + CellCount(cs[|cs| - 1], k)
  }

  function ItemsTally(order: seq<string>, strata: map<string, seq<Cell>>, k: Slot): nat
    requires forall id :: id in order ==> id in strata
  {
    if order == [] then 0
    else ItemsTally(order[..|order| - 1], strata, k) + StrataTally(strata[order[|order| - 1]], k)
  }

  /** The sum of counter `k` over every item and stratum of the table. */
  function Tally(t: Table, k: Slot): nat
    requires WellFormed(t)
  {
    ItemsTally(t.order, t.strata, k)
  }

  lemma {:induction false} StrataTallyEmpty(cs: seq<Cell>, k: Slot)
    requires forall i :: 0 <= i < |cs| ==> cs[i] == EmptyCell
    ensures StrataTally(cs, k) == 0
  {
    if cs != [] {
      StrataTallyEmpty(cs[..|cs| - 1], k);
    }
  }

  lemma {:induction false} StrataTallyUpdate(cs: seq<Cell>, s: nat, c: Cell, k: Slot)
    requires s < |cs|
    ensures StrataTally(cs[s := c], k) + CellCount(cs[s], k) == StrataTally(cs, k) + CellCount(c, k)
  {
    var n := |cs| - 1;
    assert cs[s := c][..n] == if s < n then cs[..n][s := c] else cs[..n];
    if s < n {
      StrataTallyUpdate(cs[..n], s, c, k);
    }
  }

  /** Tallies over items do not see entries of items outside `order`. */
  lemma {:induction false} ItemsTallyOutside(order: seq<string>, strata: map<string, seq<Cell>>, id: string, v: seq<Cell>, k: Slot)
    requires forall x :: x in order ==> x in strata
    requires id !in order
    ensures ItemsTally(order, strata[id := v], k) == ItemsTally(order, strata, k)
  {
    if order != [] {
      ItemsTallyOutside(order[..|order| - 1], strata, id, v, k);
    }
  }

  lemma {:induction false} ItemsTallyUpdate(order: seq<string>, strata: map<string, seq<Cell>>, id: string, v: seq<Cell>, k: Slot)
    requires forall x :: x in order ==> x in strata
    requires Distinct(order) && id in order
    ensures ItemsTally(order, strata[id := v], k) + StrataTally(strata[id], k)
         == ItemsTally(order, strata, k) + StrataTally(v, k)
  {
    var n := |order| - 1;
    var p := order[..n];
    assert Distinct(p);
    if order[n] == id {
      forall i | 0 <= i < n ensures p[i] != id {
        assert order[i] != order[n];
      }
      ItemsTallyOutside(p, strata, id, v, k);
    } else {
      assert id in p by {
        var i :| 0 <= i < |order| && order[i] == id;
        assert i < n;
      }
      ItemsTallyUpdate(p, strata, id, v, k);
    }
  }

  /** Adding the empty cells of a new item changes no total. */
  lemma EnsureTally(t: Table, id: string, j: Slot)
    requires WellFormed(t)
    ensures Tally(EnsureItem(t, id), j) == Tally(t, j)
  {
    if id !in t.strata {
      NewItemTally(t.order, t.strata, id, j);
    }
  }

  lemma NewItemTally(order: seq<string>, strata: map<string, seq<Cell>>, id: string, k: Slot)
    requires forall x :: x in order ==> x in strata
    requires id !in order
    ensures ItemsTally(order + [id], strata[id := EmptyStrata()], k) == ItemsTally(order, strata, k)
  {
    var o, m := order + [id], strata[id := EmptyStrata()];
    assert o[..|o| - 1] == order && o[|o| - 1] == id;
    ItemsTallyOutside(order, strata, id, EmptyStrata(), k);
    StrataTallyEmpty(EmptyStrata(), k);
  }

  /** Recording a response adds one to its own counter's total and nothing to
      the others. */
  lemma RecordTally(t: Table, id: string, s: nat, k: Slot, j: Slot)
    requires WellFormed(t) && s < NumStrata
    ensures Tally(Record(t, id, s, k), j) == Tally(t, j) + (if j == k then 1 else 0)
  {
    EnsureTally(t, id, j);
    var u := EnsureItem(t, id);
    var cs := u.strata[id];
    StrataTallyUpdate(cs, s, Bump(cs[s], k), j);
    ItemsTallyUpdate(u.order, u.strata, id, cs[s := Bump(cs[s], k)], j);
  }

  /** The responses counted under `k` when `isRef` decides the group. */
  function EventsTally(evts: seq<Payload>, isRef: bool, k: Slot): nat
  {
    if evts == [] then 0
    else EventsTally(evts[..|evts| - 1], isRef, k) + (if SlotOf(isRef, Truthy(evts[|evts| - 1].x)) == k then 1 else 0)
  }

  function PersonsTally(ps: seq<Person>, isRef: bool, k: Slot): nat
  {
    if ps == [] then 0 else PersonsTally(ps[..|ps| - 1], isRef, k) + EventsTally(ps[|ps| - 1].evts, isRef, k)
  }

  /** The number of scored responses of the given persons. */
  function ResponseCount(ps: seq<Person>): nat
  {
    if ps == [] then 0 else ResponseCount(ps[..|ps| - 1]) + |ps[|ps| - 1].evts|
  }

  lemma {:induction false} RecordEventsTally(t: Table, evts: seq<Payload>, s: nat, isRef: bool, k: Slot)
    requires WellFormed(t) && s < NumStrata
    ensures Tally(RecordEvents(t, evts, s, isRef), k) == Tally(t, k) + EventsTally(evts, isRef, k)
  {
    if evts != [] {
      var n := |evts| - 1;
      RecordEventsTally(t, evts[..n], s, isRef, k);
      RecordTally(RecordEvents(t, evts[..n], s, isRef), evts[n].itemId, s, SlotOf(isRef, Truthy(evts[n].x)), k);
    }
  }

  /** Counter `k` of the table grows by exactly the responses of `ps` that
      belong to it: correct reference answers to A, incorrect ones to B,
      correct focal answers to C, incorrect ones to D. */
  lemma {:induction false} RecordPersonsTally(t: Table, ps: seq<Person>, cuts: seq<nat>, isRef: bool, k: Slot)
    requires WellFormed(t) && |cuts| < NumStrata
    ensures Tally(RecordPersons(t, ps, cuts, isRef), k) == Tally(t, k) + PersonsTally(ps, isRef, k)
  {
    if ps != [] {
      var n := |ps| - 1;
      RecordPersonsTally(t, ps[..n], cuts, isRef, k);
      RecordEventsTally(RecordPersons(t, ps[..n], cuts, isRef), ps[n].evts, CountBelow(cuts, ps[n].total), isRef, k);
    }
  }

  lemma {:induction false} EventsTallySplit(evts: seq<Payload>, isRef: bool)
    ensures EventsTally(evts, isRef, A) + EventsTally(evts, isRef, B) + EventsTally(evts, isRef, C) + EventsTally(evts, isRef, D) == |evts|
    ensures isRef ==> EventsTally(evts, isRef, C) == 0 && EventsTally(evts, isRef, D) == 0
    ensures !isRef ==> EventsTally(evts, isRef, A) == 0 && EventsTally(evts, isRef, B) == 0
  {
    if evts != [] {
      EventsTallySplit(evts[..|evts| - 1], isRef);
    }
  }

  /** Every response of a group lands in one of that group's two counters
      and in none of the other group's. */
  lemma {:induction false} PersonsTallySplit(ps: seq<Person>, isRef: bool)
    ensures isRef ==> PersonsTally(ps, isRef, A) + PersonsTally(ps, isRef, B) == ResponseCount(ps)
    ensures isRef ==> PersonsTally(ps, isRef, C) == 0 && PersonsTally(ps, isRef, D) == 0
    ensures !isRef ==> PersonsTally(ps, isRef, C) + PersonsTally(ps, isRef, D) == ResponseCount(ps)
    ensures !isRef ==> PersonsTally(ps, isRef, A) == 0 && PersonsTally(ps, isRef, B) == 0
  {
    if ps != [] {
      PersonsTallySplit(ps[..|ps| - 1], isRef);
      EventsTallySplit(ps[|ps| - 1].evts, isRef);
    }
  }

  // ---------------------------------------------------------------------
  // The item map as an object

  /** The `itemStats` map, updated in place by `ensure` and the counter
      increments. */
  class ItemStats {
    var order: seq<string>
    var strata: map<string, seq<Cell>>

    function Value(): Table
      reads this
    {
      Table(order, strata)
    }

    constructor ()
      ensures Value() == EmptyTable
    {
      order := [];
      strata := map[];
    }

    /** `ensure(itemId)` */
    method Ensure(id: string)
      requires WellFormed(Value())
      modifies this
      ensures Value() == EnsureItem(old(Value()), id)
    {
      if id !in strata {
        order := order + [id];
        strata := strata[id := EmptyStrata()];
      }
    }

    /** `ensure(id).strata[sidx]` followed by the increment of counter `k`. */
    method Count(id: string, sidx: nat, k: Slot)
      requires WellFormed(Value()) && sidx < NumStrata
      modifies this
      ensures Value() == Record(old(Value()), id, sidx, k)
    {
      Ensure(id);
      var st := strata[id];
      strata := strata[id := st[sidx := Bump(st[sidx], k)]];
    }
  }

  /** The inner loop of `addGroup`: one person's responses, all counted in
      the person's stratum. */
  method AddResponses(stats: ItemStats, evts: seq<Payload>, sidx: nat, isRef: bool)
    requires WellFormed(stats.Value()) && sidx < NumStrata
    modifies stats
    ensures WellFormed(stats.Value())
    ensures stats.Value() == RecordEvents(old(stats.Value()), evts, sidx, isRef)
  {
    ghost var before := stats.Value();
    for j := 0 to |evts|
      invariant WellFormed(stats.Value())
      invariant stats.Value() == RecordEvents(before, evts[..j], sidx, isRef)
    {
      var e := evts[j];
      assert evts[..j + 1][..j] == evts[..j];
      stats.Count(e.itemId, sidx, SlotOf(isRef, Truthy(e.x)));
    }
    assert evts[..|evts|] == evts;
  }

  /** `addGroup(ps, isRef)`: for each person, their stratum, then each of
      their responses counted in that stratum. */
  method AddGroup(stats: ItemStats, ps: seq<Person>, isRef: bool, cuts: seq<nat>)
    requires WellFormed(stats.Value()) && |cuts| < NumStrata
    modifies stats
    ensures stats.Value() == RecordPersons(old(stats.Value()), ps, cuts, isRef)
  {
    for i := 0 to |ps|
      invariant WellFormed(stats.Value())
      invariant stats.Value() == RecordPersons(old(stats.Value()), ps[..i], cuts, isRef)
    {
      var p := ps[i];
      var sidx := Stratum(cuts, p.total);
      assert ps[..i + 1][..i] == ps[..i];
      AddResponses(stats, p.evts, sidx, isRef);
    }
    assert ps[..|ps|] == ps;
  }
}
