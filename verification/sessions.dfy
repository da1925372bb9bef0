/** The records of the local session store as the core reads them: a session
    with its metadata and its ordered event log. */
module Sessions {
  import opened Wrappers

  const ItemResponse: string := "ITEM_RESPONSE"

  /** The payload of an `ITEM_RESPONSE` event, as far as the core reads it.
      `x` is `None` when the recorded outcome is not a JavaScript number. */
  datatype Payload = Payload(domain: string, itemId: string, x: Option<real>)

  datatype Event = Event(kind: string, payload: Payload)

  /** `meta` maps a field name to its text; a field that is missing, `null`
      or `undefined` is absent from the map. */
  datatype Session = Session(id: string, completed: bool, meta: map<string, string>, events: seq<Event>)

  /** `meta[key] ?? ""` */
  function MetaOr(meta: map<string, string>, key: string): (r: string)
    ensures key in meta ==> r == meta[key]
    ensures key !in meta ==> r == ""
  {
    if key in meta then meta[key] else ""
  }

  /** JavaScript truthiness of a number outcome (`e.payload.x ? 1 : 0`). */
  predicate Truthy(x: Option<real>)
  {
    x.Some? && x.value != 0.0
  }

  /** `sessions.filter(s => s.completed)` */
  function Completed(sessions: seq<Session>): (r: seq<Session>)
    ensures |r| <= |sessions|
    ensures forall s :: s in r <==> s in sessions && s.completed
  {
    if sessions == [] then []
    else (if sessions[0].completed then [sessions[0]] else []) + Completed(sessions[1..])
  }

  /** Each completed session is kept as often as it occurs, and no other. */
  lemma {:induction false} CompletedCounts(sessions: seq<Session>)
    ensures forall s :: multiset(Completed(sessions))[s] == if s.completed then multiset(sessions)[s] else 0
  {
    if sessions != [] {
      var head := if sessions[0].completed then [sessions[0]] else [];
      assert sessions == [sessions[0]] + sessions[1..];
      assert Completed(sessions) == head + Completed(sessions[1..]);
      CompletedCounts(sessions[1..]);
    }
  }

  /** The filter keeps the order of the store: a split list filters part by
      part. */
  lemma {:induction false} CompletedAppend(a: seq<Session>, b: seq<Session>)
    ensures Completed(a + b) == Completed(a) + Completed(b)
  {
    if a == [] {
      assert a + b == b;
    } else {
      var head := if a[0].completed then [a[0]] else [];
      assert (a + b)[0] == a[0] && (a + b)[1..] == a[1..] + b;
      assert Completed(a + b) == head + Completed(a[1..] + b);
      assert Completed(a) == head + Completed(a[1..]);
      CompletedAppend(a[1..], b);
    }
  }

  /** The payloads of the `ITEM_RESPONSE` events, in log order. */
  function Responses(events: seq<Event>): (r: seq<Payload>)
    ensures |r| <= |events|
    ensures forall p :: p in r ==> exists e :: e in events && e.kind == ItemResponse && e.payload == p
    ensures forall e :: e in events && e.kind == ItemResponse ==> e.payload in r
  {
    if events == [] then []
    else
      assert events == [events[0]] + events[1..];
      (if events[0].kind == ItemResponse then [events[0].payload] else [])
      + Responses(events[1..])
  }

  /** The number of `ITEM_RESPONSE` events in a log. */
  function ResponseEventCount(events: seq<Event>): nat
  {
    if events == [] then 0
    else ResponseEventCount(events[..|events| - 1]) + (if events[|events| - 1].kind == ItemResponse then 1 else 0)
  }

  /** Filtering a log split in two filters each part, in order. */
  lemma {:induction false} ResponsesAppend(a: seq<Event>, b: seq<Event>)
    ensures Responses(a + b) == Responses(a) + Responses(b)
  {
    if a == [] {
      assert a + b == b;
    } else {
      var head := if a[0].kind == ItemResponse then [a[0].payload] else [];
      assert (a + b)[0] == a[0] && (a + b)[1..] == a[1..] + b;
      assert Responses(a + b) == head + Responses(a[1..] + b);
      assert Responses(a) == head + Responses(a[1..]);
      ResponsesAppend(a[1..], b);
    }
  }

  /** One payload for every `ITEM_RESPONSE` event and no other. */
  lemma {:induction false} ResponsesCount(events: seq<Event>)
    ensures |Responses(events)| == ResponseEventCount(events)
  {
    if events != [] {
      var n := |events| - 1;
      assert events == events[..n] + [events[n]];
      ResponsesAppend(events[..n], [events[n]]);
      assert Responses([events[n]]) == (if events[n].kind == ItemResponse then [events[n].payload] else []) + Responses([]);
      ResponsesCount(events[..n]);
    }
  }

  /** One step of counting an element in a filter that appends kept
      elements: if `kept` holds `s` as often as the filter says for `init`,
      then appending `x` to both keeps that so. */
  lemma SnocCount<T>(init: seq<T>, x: T, kept: seq<T>, keepX: bool, s: T, keepS: bool)
    requires multiset(kept)[s] == if keepS then multiset(init)[s] else 0
    requires x == s ==> keepX == keepS
    ensures multiset(kept + (if keepX then [x] else []))[s] == if keepS then multiset(init + [x])[s] else 0
  {
    assert multiset(init + [x]) == multiset(init) + multiset{x};
    assert multiset(kept + (if keepX then [x] else [])) == multiset(kept) + multiset(if keepX then [x] else []);
  }

  lemma ConcatAssoc<T>(h: seq<T>, x: seq<T>, y: seq<T>)
    ensures h + (x + y) == (h + x) + y
  {
  }
}
