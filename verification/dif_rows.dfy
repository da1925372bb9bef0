/** The long-format rows the DIF explorer builds from the completed sessions:
    one row per item response, carrying a per-domain score proxy and the
    three grouping fields, and the selection of rows passed to the screen. */
module DifRows {
  import opened Wrappers
  import opened Sessions

  datatype DifRow = DifRow(
    sessionId: string, personId: string, domain: string, itemId: string, x: Option<real>,
    scoreProxy: nat, groupA: string, groupB: string, groupC: string)

  /** The running `{ sum, n }` of one domain. */
  datatype DomainTally = DomainTally(sum: nat, n: nat)

  /** `x === 1`: the response is recorded as correct. */
  predicate IsCorrect(p: Payload)
  {
    p.x == Some(1.0)
  }

  /** The number of responses in domain `d`. */
  function CountIn(ps: seq<Payload>, d: string): nat
  {
    if ps == [] then 0
    else CountIn(ps[..|ps| - 1], d) + (if ps[|ps| - 1].domain == d then 1 else 0)
  }

  /** The number of correct responses in domain `d`. */
  function CorrectIn(ps: seq<Payload>, d: string): nat
  {
    if ps == [] then 0
    else CorrectIn(ps[..|ps| - 1], d) + (if ps[|ps| - 1].domain == d && IsCorrect(ps[|ps| - 1]) then 1 else 0)
  }

  /** A domain's score proxy never exceeds its number of responses. */
  lemma {:induction false} CorrectAtMostCount(ps: seq<Payload>, d: string)
    ensures CorrectIn(ps, d) <= CountIn(ps, d)
  {
    if ps != [] {
      CorrectAtMostCount(ps[..|ps| - 1], d);
    }
  }

  /** A domain with no responses has no tally of its own. */
  lemma {:induction false} CountInZero(ps: seq<Payload>, d: string)
    requires forall k :: 0 <= k < |ps| ==> ps[k].domain != d
    ensures CountIn(ps, d) == 0 && CorrectIn(ps, d) == 0
  {
    if ps != [] {
      CountInZero(ps[..|ps| - 1], d);
    }
  }

  /** The first loop over the responses: `byDomain[d]` holds the number of
      correct responses and of all responses in each domain that occurs. */
  method TallyDomains(ps: seq<Payload>) returns (byDomain: map<string, DomainTally>)
    ensures forall k :: 0 <= k < |ps| ==> ps[k].domain in byDomain
    ensures forall d :: d in byDomain ==> byDomain[d] == DomainTally(CorrectIn(ps, d), CountIn(ps, d))
  {
    byDomain := map[];
    for i := 0 to |ps|
      invariant forall k :: 0 <= k < i ==> ps[k].domain in byDomain
      invariant forall d :: d in byDomain ==> byDomain[d] == DomainTally(CorrectIn(ps[..i], d), CountIn(ps[..i], d))
    {
      var p := ps[i];
      assert ps[..i + 1][..i] == ps[..i];
      if p.domain !in byDomain {
        CountInZero(ps[..i], p.domain);
      }
      var t := if p.domain in byDomain then byDomain[p.domain] else DomainTally(0, 0);
      byDomain := byDomain[p.domain := DomainTally(t.sum + (if IsCorrect(p) then 1 else 0), t.n + 1)];
    }
    assert ps[..|ps|] == ps;
  }

  /** `meta.participantId ?? s.id` */
  function PersonId(s: Session): string
  {
    if "participantId" in s.meta then s.meta["participantId"] else s.id
  }

  /** The row of one response of a session, its score proxy the number of
      correct responses of that session in the response's domain. */
  function RowFor(s: Session, ps: seq<Payload>, p: Payload): DifRow
  {
    DifRow(s.id, PersonId(s), p.domain, p.itemId, p.x, CorrectIn(ps, p.domain),
           MetaOr(s.meta, "groupA"), MetaOr(s.meta, "groupB"), MetaOr(s.meta, "groupC"))
  }

  /** The rows of one session, one per response, in log order. */
  function SessionRows(s: Session): (r: seq<DifRow>)
    ensures |r| == |Responses(s.events)|
  {
    var ps := Responses(s.events);
    seq(|ps|, k requires 0 <= k < |ps| => RowFor(s, ps, ps[k]))
  }

  /** The rows of all the sessions, session by session. */
  function AllRows(ss: seq<Session>): seq<DifRow>
  {
    if ss == [] then [] else AllRows(ss[..|ss| - 1]) + SessionRows(ss[|ss| - 1])
  }

  /** The number of responses across the sessions. */
  function ResponseTotal(ss: seq<Session>): nat
  {
    if ss == [] then 0 else ResponseTotal(ss[..|ss| - 1]) + |Responses(ss[|ss| - 1].events)|
  }

  /** The rows built for the completed sessions (`renderDifExplorer`, before
      any level is chosen); the store's sessions are given as a list. */
  method BuildRows(sessions: seq<Session>) returns (rows: seq<DifRow>)
    ensures rows == AllRows(Completed(sessions))
  {
    var sess := Completed(sessions);
    rows := [];
    for i := 0 to |sess|
      invariant rows == AllRows(sess[..i])
    {
      var sessionRows := RowsForSession(sess[i]);
      rows := rows + sessionRows;
      AllRowsSnoc(sess, i);
    }
    assert sess[..|sess|] == sess;
  }

  lemma AllRowsSnoc(ss: seq<Session>, i: nat)
    requires i < |ss|
    ensures AllRows(ss[..i + 1]) == AllRows(ss[..i]) + SessionRows(ss[i])
  {
    assert ss[..i + 1][..i] == ss[..i];
  }

  /** The inner loops of one session: the domain tallies, then one row per
      response. */
  method RowsForSession(s: Session) returns (rows: seq<DifRow>)
    ensures rows == SessionRows(s)
  {
    var responses := Responses(s.events);
    var byDomain := TallyDomains(responses);
    rows := [];
    for j := 0 to |responses|
      invariant rows == SessionRows(s)[..j]
    {
      var r := responses[j];
      var scoreProxy := byDomain[r.domain].sum;
      rows := rows + [DifRow(s.id, PersonId(s), r.domain, r.itemId, r.x, scoreProxy,
                             MetaOr(s.meta, "groupA"), MetaOr(s.meta, "groupB"), MetaOr(s.meta, "groupC"))];
      assert SessionRows(s)[..j + 1] == SessionRows(s)[..j] + [SessionRows(s)[j]];
    }
    assert SessionRows(s)[..|responses|] == SessionRows(s);
  }

  /** Exactly one row per item response. */
  lemma {:induction false} AllRowsCount(ss: seq<Session>)
    ensures |AllRows(ss)| == ResponseTotal(ss)
  {
    if ss != [] {
      AllRowsCount(ss[..|ss| - 1]);
    }
  }

  /** Each row of a session copies its response, identifies the session and
      the person, and carries a score proxy between zero and the session's
      number of responses in that domain. */
  lemma SessionRowFacts(s: Session, k: int)
    requires 0 <= k < |Responses(s.events)|
    ensures var ps := Responses(s.events);
      var row := SessionRows(s)[k];
      && row.sessionId == s.id && row.personId == PersonId(s)
      && row.domain == ps[k].domain && row.itemId == ps[k].itemId && row.x == ps[k].x
      && row.scoreProxy == CorrectIn(ps, ps[k].domain)
      && 1 <= CountIn(ps, ps[k].domain)
      && row.scoreProxy <= CountIn(ps, ps[k].domain)
      && row.groupA == MetaOr(s.meta, "groupA")
  {
    var ps := Responses(s.events);
    CorrectAtMostCount(ps, ps[k].domain);
    CountInPositive(ps, k);
  }

  lemma {:induction false} CountInPositive(ps: seq<Payload>, k: int)
    requires 0 <= k < |ps|
    ensures CountIn(ps, ps[k].domain) >= 1
  {
    if k < |ps| - 1 {
      assert ps[..|ps| - 1][k] == ps[k];
      CountInPositive(ps[..|ps| - 1], k);
    }
  }

  /** Every row was built from a response of one of the sessions. */
  lemma {:induction false} AllRowsFrom(ss: seq<Session>, row: DifRow)
    requires row in AllRows(ss)
    ensures exists s, k :: s in ss && 0 <= k < |SessionRows(s)| && SessionRows(s)[k] == row
  {
    var init, last := ss[..|ss| - 1], ss[|ss| - 1];
    if row in AllRows(init) {
      AllRowsFrom(init, row);
      var s, k :| s in init && 0 <= k < |SessionRows(s)| && SessionRows(s)[k] == row;
      assert s in ss;
    } else {
      var k :| 0 <= k < |SessionRows(last)| && SessionRows(last)[k] == row;
      assert last in ss;
    }
  }

  /** The grouping variable chosen in the explorer. */
  datatype GroupVar = GroupA | GroupB | GroupC

  /** `r[v] ?? ""` */
  function GroupOf(r: DifRow, v: GroupVar): string
  {
    match v
    case GroupA => r.groupA
    case GroupB => r.groupB
    case GroupC => r.groupC
  }

  /** `rows.filter(r => r.domain === domain && (r[v] ?? "") !== "")`: the rows
      handed to the DIF routine, in order. */
  function DomainRows(rows: seq<DifRow>, domain: string, v: GroupVar): (r: seq<DifRow>)
    ensures |r| <= |rows|
    ensures forall row :: row in r <==> row in rows && row.domain == domain && GroupOf(row, v) != ""
  {
    if rows == [] then []
    else
      var last := rows[|rows| - 1];
      assert rows == rows[..|rows| - 1] + [last];
      DomainRows(rows[..|rows| - 1], domain, v) + (if last.domain == domain && GroupOf(last, v) != "" then [last] else [])
  }

  /** Each row of the domain with a grouping value is kept as often as it
      occurs, and no other. */
  lemma {:induction false} DomainRowsCounts(rows: seq<DifRow>, domain: string, v: GroupVar)
    ensures forall row :: multiset(DomainRows(rows, domain, v))[row] ==
                         if row.domain == domain && GroupOf(row, v) != "" then multiset(rows)[row] else 0
  {
    if rows != [] {
      var n := |rows| - 1;
      var last := if rows[n].domain == domain && GroupOf(rows[n], v) != "" then [rows[n]] else [];
      assert rows == rows[..n] + [rows[n]];
      assert DomainRows(rows, domain, v) == DomainRows(rows[..n], domain, v) + last;
      DomainRowsCounts(rows[..n], domain, v);
    }
  }

  /** The filter keeps row order: a split list filters part by part. */
  lemma {:induction false} DomainRowsAppend(a: seq<DifRow>, b: seq<DifRow>, domain: string, v: GroupVar)
    ensures DomainRows(a + b, domain, v) == DomainRows(a, domain, v) + DomainRows(b, domain, v)
  {
    if b == [] {
      assert a + b == a;
    } else {
      var n := |b| - 1;
      assert a + b == (a + b[..n]) + [b[n]] && b == b[..n] + [b[n]];
      DomainRowsSnoc(a + b[..n], b[n], domain, v);
      DomainRowsSnoc(b[..n], b[n], domain, v);
      DomainRowsAppend(a, b[..n], domain, v);
      ConcatAssoc(DomainRows(a, domain, v), DomainRows(b[..n], domain, v),
                  if b[n].domain == domain && GroupOf(b[n], v) != "" then [b[n]] else []);
    }
  }

  lemma DomainRowsSnoc(rows: seq<DifRow>, row: DifRow, domain: string, v: GroupVar)
    ensures DomainRows(rows + [row], domain, v)
      == DomainRows(rows, domain, v) + (if row.domain == domain && GroupOf(row, v) != "" then [row] else [])
  {
    assert (rows + [row])[..|rows|] == rows && (rows + [row])[|rows|] == row;
  }
}
