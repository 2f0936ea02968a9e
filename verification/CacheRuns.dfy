/**
 * Runs of cached reads against the source they stand for (packages/cache.py): one call at a
 * time, and with calls in flight while the source is written.
 */
module CacheRuns {
  import opened Outcomes
  import opened Cache

  type Source<V> = (string, seq<string>) -> V

  lemma JoinOfNothing()
    ensures Join([]) == "" && Join([""]) == ""
  {}

  // ----- One call at a time -------------------------------------------------

  /** A read, a source write with its invalidation, or an extra invalidation. */
  datatype Op<!V> =
    | Read(ns: string, parts: seq<string>, ttl: int, now: real, later: real)
    | Publish(ns: string, parts: seq<string>, next: Source<V>)
    | Forget(ns: string, parts: seq<string>)

  datatype State<!V> = State(entries: Entries, source: Source<V>)

  function Forgotten(entries: Entries, ns: string, parts: seq<string>): Entries {
    match Invalidated(entries, ns, parts)
    case Ok(left) => left
    case Err(_) => entries
  }

  function After<V>(codec: Codec<V>, s: State<V>, op: Op<V>): State<V> {
    match op
    case Read(ns, parts, ttl, now, later) =>
      s.(entries := Cached(codec, s.entries, ns, parts, ttl, s.source(ns, parts), now, later).0)
    case Publish(ns, parts, next) => State(Forgotten(s.entries, ns, parts), next)
    case Forget(ns, parts) => s.(entries := Forgotten(s.entries, ns, parts))
  }

  function Run<V>(codec: Codec<V>, s: State<V>, ops: seq<Op<V>>): State<V> {
    if ops == [] then s else After(codec, Run(codec, s, ops[..|ops| - 1]), ops[|ops| - 1])
  }

  /** What a write may change: what its invalidation drops, a namespace or the suffixes under some parts. */
  predicate Under(ns: string, parts: seq<string>, m: string, q: seq<string>) {
    m == ns && Join(parts) <= Join(q)
  }

  /** Reads use colon-free namespaces, and a write changes only what it invalidates. */
  ghost predicate FollowsRules<V(!new)>(s: State<V>, op: Op<V>) {
    match op
    case Read(ns, _, _, _, _) => ColonFree(ns)
    case Publish(ns, parts, next) =>
      ColonFree(ns) && PartsFit(parts) && forall m, q :: !Under(ns, parts, m, q) ==> next(m, q) == s.source(m, q)
    case Forget(_, _) => true
  }

  ghost predicate Disciplined<V(!new)>(codec: Codec<V>, s: State<V>, ops: seq<Op<V>>) {
    forall i :: 0 <= i < |ops| ==> FollowsRules(Run(codec, s, ops[..i]), ops[i])
  }

  /** Every entry with a suffix, expired or not, is the source's present value in print. */
  ghost predicate UpToDate<V(!new)>(codec: Codec<V>, s: State<V>) {
    forall ns, parts ::
      ColonFree(ns) && PartsFit(parts) && Join(parts) != "" && KeyOf(ns, Join(parts)) in s.entries ==>
        codec.dumps(s.source(ns, parts)) == Some(s.entries[KeyOf(ns, Join(parts))].value)
  }

  /** A key with a suffix has one reading. */
  lemma SameKey(ns: string, parts: seq<string>, m: string, q: seq<string>)
    requires ColonFree(ns) && ColonFree(m) && PartsFit(parts) && PartsFit(q) && Join(q) != ""
    requires KeyOf(m, Join(q)) == KeyOf(ns, Join(parts))
    ensures m == ns && q == parts
  {
    KeyDetermines(m, Join(q), ns, Join(parts));
    JoinOfNothing();
    JoinIsInjective(q, parts);
  }

  lemma ReadKeepsUpToDate<V(!new)>(codec: Codec<V>, s: State<V>, ns: string, parts: seq<string>, ttl: int,
                                   now: real, later: real)
    requires UpToDate(codec, s) && ColonFree(ns)
    ensures UpToDate(codec, After(codec, s, Read(ns, parts, ttl, now, later)))
  {
    hide KeyOf, Join, ColonFree;
    var t := After(codec, s, Read(ns, parts, ttl, now, later));
    forall m, q | ColonFree(m) && PartsFit(q) && Join(q) != "" && KeyOf(m, Join(q)) in t.entries
      ensures codec.dumps(t.source(m, q)) == Some(t.entries[KeyOf(m, Join(q))].value)
    {
      if PartsFit(parts) && KeyOf(m, Join(q)) == KeyOf(ns, Join(parts)) {
        SameKey(ns, parts, m, q);
      }
    }
  }

  /** An invalidation drops every key with a suffix that its parts cover. */
  lemma InvalidationCovers(entries: Entries, ns: string, parts: seq<string>, q: seq<string>)
    requires ColonFree(ns) && PartsFit(parts) && Under(ns, parts, ns, q) && Join(q) != ""
    ensures KeyOf(ns, Join(q)) !in Forgotten(entries, ns, parts)
  {
    JoinOfNothing();
    NamespaceDrop(ns, ns, Join(q));
    if Join(parts) == "" {
      assert KeyOf(ns, "") <= KeyOf(ns, "") + ":";
    } else {
      EntryDrop(ns, ns, Join(parts), Join(q));
    }
    hide KeyOf, Join;
  }

  lemma PublishKeepsUpToDate<V(!new)>(codec: Codec<V>, s: State<V>, ns: string, parts: seq<string>, next: Source<V>)
    requires UpToDate(codec, s) && FollowsRules(s, Publish(ns, parts, next))
    ensures UpToDate(codec, After(codec, s, Publish(ns, parts, next)))
  {
    hide KeyOf, Join, ColonFree, PartsFit, Under;
    var t := After(codec, s, Publish(ns, parts, next));
    forall m, q | ColonFree(m) && PartsFit(q) && Join(q) != "" && KeyOf(m, Join(q)) in t.entries
      ensures codec.dumps(t.source(m, q)) == Some(t.entries[KeyOf(m, Join(q))].value)
    {
      if Under(ns, parts, m, q) {
        CoveredIsDropped(s.entries, ns, parts, m, q);
      }
    }
  }

  lemma CoveredIsDropped(entries: Entries, ns: string, parts: seq<string>, m: string, q: seq<string>)
    requires ColonFree(ns) && PartsFit(parts) && Under(ns, parts, m, q) && Join(q) != ""
    ensures KeyOf(m, Join(q)) !in Forgotten(entries, ns, parts)
  {
    InvalidationCovers(entries, ns, parts, q);
  }

  lemma ForgetKeepsUpToDate<V(!new)>(codec: Codec<V>, s: State<V>, ns: string, parts: seq<string>)
    requires UpToDate(codec, s)
    ensures UpToDate(codec, After(codec, s, Forget(ns, parts)))
  {
    hide KeyOf, Join, ColonFree, PartsFit;
  }

  lemma {:induction false} RunKeepsUpToDate<V(!new)>(codec: Codec<V>, s: State<V>, ops: seq<Op<V>>)
    requires s.entries == map[] && Disciplined(codec, s, ops)
    ensures UpToDate(codec, Run(codec, s, ops))
    decreases |ops|
  {
    hide UpToDate, KeyOf, Join, FollowsRules;
    if ops == [] {
      NothingIsUpToDate(codec, s);
    } else {
      var n := |ops| - 1;
      assert forall i :: 0 <= i < n ==> ops[..n][..i] == ops[..i];
      RunKeepsUpToDate(codec, s, ops[..n]);
      var before := Run(codec, s, ops[..n]);
      assert FollowsRules(before, ops[n]);
      OpKeepsUpToDate(codec, before, ops[n]);
    }
  }

  lemma NothingIsUpToDate<V(!new)>(codec: Codec<V>, s: State<V>)
    requires s.entries == map[]
    ensures UpToDate(codec, s)
  {}

  lemma OpKeepsUpToDate<V(!new)>(codec: Codec<V>, s: State<V>, op: Op<V>)
    requires UpToDate(codec, s) && FollowsRules(s, op)
    ensures UpToDate(codec, After(codec, s, op))
  {
    hide UpToDate, After;
    match op {
      case Read(ns, parts, ttl, now, later) => ReadKeepsUpToDate(codec, s, ns, parts, ttl, now, later);
      case Publish(ns, parts, next) => PublishKeepsUpToDate(codec, s, ns, parts, next);
      case Forget(ns, parts) => ForgetKeepsUpToDate(codec, s, ns, parts);
    }
  }

  /**
   * After any disciplined run, a read with a suffix answers the source's value exactly when it
   * misses or that value reads back.
   */
  lemma CachedAgreesIff<V(!new)>(codec: Codec<V>, s: State<V>, ops: seq<Op<V>>, ns: string,
                                 parts: seq<string>, ttl: int, now: real, later: real)
    requires s.entries == map[] && Disciplined(codec, s, ops)
    requires ColonFree(ns) && PartsFit(parts) && Join(parts) != ""
    ensures var end := Run(codec, s, ops);
            var v := end.source(ns, parts);
            Cached(codec, end.entries, ns, parts, ttl, v, now, later).1 == Ok(v) <==>
            Got(end.entries, KeyOf(ns, Join(parts)), now).1.None? || ReadsBack(codec, v)
  {
    RunKeepsUpToDate(codec, s, ops);
    hide Run, Disciplined, KeyOf, Join, ColonFree;
  }

  /** The second read of a cold key, within its ttl, agrees with produce exactly when the value reads back. */
  lemma SecondReadAgreesIff<V(!new)>(codec: Codec<V>, entries: Entries, ns: string, parts: seq<string>,
                                     ttl: int, v: V, now: real, later: real, again: real)
    requires PartsFit(parts) && KeyOf(ns, Join(parts)) !in entries
    requires again < later + ttl as real
    ensures var first := Cached(codec, entries, ns, parts, ttl, v, now, later);
            && first.1 == Ok(v)
            && (Cached(codec, first.0, ns, parts, ttl, v, again, again).1 == Ok(v) <==> ReadsBack(codec, v))
  {
    hide KeyOf, Join;
  }

  /** A value the printer flattens: default=str makes a date its text. */
  datatype Sample = Moment(iso: string) | Words(text: string)

  const FLATTENING: Codec<Sample> :=
    Codec((v: Sample) => Some(match v case Moment(iso) => iso case Words(text) => text),
          (text: string) => Some(Words(text)))

  /** So a cached date is a date at first and text from then on. */
  lemma DatesComeBackAsText(ns: string, part: string, iso: string, now: real)
    requires ColonFree(part)
    ensures var first := Cached(FLATTENING, map[], ns, [part], 60, Moment(iso), now, now);
            && first.1 == Ok(Moment(iso))
            && Cached(FLATTENING, first.0, ns, [part], 60, Moment(iso), now, now).1 == Ok(Words(iso))
  {
    hide KeyOf, Join;
  }

  /**
   * With no suffix (no parts, or one empty part) a read does go stale: its entry outlives a
   * write of the namespace and the invalidation of it.
   */
  lemma NoSuffixGoesStale<V(!new)>(codec: Codec<V>, ns: string, parts: seq<string>, source: Source<V>,
                                   next: Source<V>, ttl: int, now: real, later: real)
    requires ColonFree(ns) && PartsFit(parts) && Join(parts) == "" && next(ns, parts) != source(ns, parts)
    requires codec.dumps(source(ns, parts)).Some?
    requires codec.loads(codec.dumps(source(ns, parts)).value) == Some(source(ns, parts))
    requires now <= later < now + ttl as real
    ensures var end := Run(codec, State(map[], source), [Read(ns, parts, ttl, now, now), Publish(ns, [], next)]);
            && end.source(ns, parts) == next(ns, parts)
            && Cached(codec, end.entries, ns, parts, ttl, next(ns, parts), later, later).1 == Ok(source(ns, parts))
  {
    var first, second := Read(ns, parts, ttl, now, now), Publish(ns, [], next);
    var s := State(map[], source);
    assert [first, second][..1] == [first] && [first][..0] == [];
    NamespaceDrop(ns, ns, "");
    JoinOfNothing();
    hide KeyOf, Join, ColonFree;
    assert Run(codec, s, [first]) == After(codec, s, first);
    assert Run(codec, s, [first, second]) == After(codec, After(codec, s, first), second);
  }

  // ----- Calls in flight ----------------------------------------------------

  /**
   * A call begins with its read of the store and, on a miss, with produce; it finishes with its
   * store. Other calls, writes of the source and invalidations may come between.
   */
  datatype Event<!V> =
    | Begin(call: nat, ns: string, parts: seq<string>, now: real)
    | Finish(call: nat, ttl: int, now: real)
    | Write(next: Source<V>)
    | Drop(ns: string, parts: seq<string>)

  /** A call that missed: what it produced, and the event it began at. */
  datatype Flight<!V> = Flight(ns: string, parts: seq<string>, value: V, begun: nat)

  /** Where an entry comes from: the two events of the call that stored it. */
  datatype Origin = Origin(ns: string, parts: seq<string>, begun: nat, finished: nat)

  datatype Live<!V> = Live(entries: Entries, flights: map<nat, Flight<V>>, origins: map<string, Origin>)

  /** The source after the writes of a trace. */
  function SourceAfter<V>(source: Source<V>, events: seq<Event<V>>): Source<V> {
    if events == [] then source
    else
      match events[|events| - 1]
      case Write(next) => next
      case _ => SourceAfter(source, events[..|events| - 1])
  }

  function Begun<V>(codec: Codec<V>, s: Live<V>, e: Event<V>, source: Source<V>, at: nat): Live<V>
    requires e.Begin?
  {
    if !PartsFit(e.parts) then s
    else
      var (left, hit) := Got(s.entries, KeyOf(e.ns, Join(e.parts)), e.now);
      if hit.Some? && codec.loads(hit.value).Some? then s.(entries := left)
      else
        s.(entries := left,
           flights := s.flights[e.call := Flight(e.ns, e.parts, source(e.ns, e.parts), at)])
  }

  function Finished<V>(codec: Codec<V>, s: Live<V>, e: Event<V>, at: nat): Live<V>
    requires e.Finish?
  {
    if e.call !in s.flights then s
    else
      var f := s.flights[e.call];
      var landed := s.(flights := s.flights - {e.call});
      match codec.dumps(f.value)
      case None => landed
      case Some(text) =>
        var key := KeyOf(f.ns, Join(f.parts));
        landed.(entries := Stored(s.entries, key, text, e.ttl, e.now),
                origins := s.origins[key := Origin(f.ns, f.parts, f.begun, at)])
  }

  function Next<V>(codec: Codec<V>, s: Live<V>, e: Event<V>, source: Source<V>, at: nat): Live<V> {
    match e
    case Begin(_, _, _, _) => Begun(codec, s, e, source, at)
    case Finish(_, _, _) => Finished(codec, s, e, at)
    case Write(_) => s
    case Drop(ns, parts) => s.(entries := Forgotten(s.entries, ns, parts))
  }

  function Trace<V>(codec: Codec<V>, source: Source<V>, events: seq<Event<V>>): Live<V> {
    if events == [] then Live(map[], map[], map[])
    else
      var before := events[..|events| - 1];
      Next(codec, Trace(codec, source, before), events[|events| - 1], SourceAfter(source, before), |before|)
  }

  predicate CallsFit<V>(events: seq<Event<V>>) {
    forall i :: 0 <= i < |events| && events[i].Begin? ==> ColonFree(events[i].ns)
  }

  /** Event i began a call for this entry. */
  predicate BeganAt<V>(events: seq<Event<V>>, i: nat, ns: string, parts: seq<string>) {
    i < |events| && events[i].Begin? && events[i].ns == ns && events[i].parts == parts
    && PartsFit(parts) && ColonFree(ns)
  }

  /** Event i invalidated this key. */
  predicate DropsKey<V>(events: seq<Event<V>>, i: nat, key: string)
    requires i < |events|
  {
    events[i].Drop? && PartsFit(events[i].parts)
    && (if events[i].parts == [] then KeyOf(events[i].ns, "") + ":" <= key
        else KeyOf(events[i].ns, Join(events[i].parts)) <= key)
  }

  ghost predicate KnownFlight<V(!new)>(source: Source<V>, events: seq<Event<V>>, f: Flight<V>) {
    BeganAt(events, f.begun, f.ns, f.parts)
    && f.value == SourceAfter(source, events[..f.begun])(f.ns, f.parts)
  }

  /** An entry is what its call produced, and has not been invalidated since it was stored. */
  ghost predicate KnownEntry<V(!new)>(codec: Codec<V>, source: Source<V>, events: seq<Event<V>>, key: string,
                                      e: Entry, o: Origin)
  {
    && key == KeyOf(o.ns, Join(o.parts))
    && BeganAt(events, o.begun, o.ns, o.parts) && o.begun < o.finished < |events| && events[o.finished].Finish?
    && codec.dumps(SourceAfter(source, events[..o.begun])(o.ns, o.parts)) == Some(e.value)
    && e.expiresAt == events[o.finished].now + events[o.finished].ttl as real
    && forall d :: o.finished < d < |events| ==> !DropsKey(events, d, key)
  }

  ghost predicate Known<V(!new)>(codec: Codec<V>, source: Source<V>, events: seq<Event<V>>, s: Live<V>) {
    && (forall c :: c in s.flights ==> KnownFlight(source, events, s.flights[c]))
    && (forall key :: key in s.entries ==>
          key in s.origins && KnownEntry(codec, source, events, key, s.entries[key], s.origins[key]))
  }

  lemma FlightStaysKnown<V(!new)>(source: Source<V>, events: seq<Event<V>>, e: Event<V>, f: Flight<V>)
    requires KnownFlight(source, events, f)
    ensures KnownFlight(source, events + [e], f)
  {
    hide SourceAfter;
    assert (events + [e])[..f.begun] == events[..f.begun];
  }

  lemma EntryStaysKnown<V(!new)>(codec: Codec<V>, source: Source<V>, events: seq<Event<V>>, e: Event<V>,
                                 key: string, entry: Entry, o: Origin)
    requires KnownEntry(codec, source, events, key, entry, o)
    requires !DropsKey(events + [e], |events|, key)
    ensures KnownEntry(codec, source, events + [e], key, entry, o)
  {
    hide SourceAfter, KeyOf, Join;
    assert (events + [e])[..o.begun] == events[..o.begun];
    forall d | o.finished < d < |events + [e]|
      ensures !DropsKey(events + [e], d, key)
    {
      if d < |events| {
        assert DropsKey(events + [e], d, key) == DropsKey(events, d, key);
      }
    }
  }

  lemma BeginKeepsKnown<V(!new)>(codec: Codec<V>, source: Source<V>, events: seq<Event<V>>, s: Live<V>, e: Event<V>)
    requires Known(codec, source, events, s) && e.Begin? && ColonFree(e.ns)
    ensures Known(codec, source, events + [e], Begun(codec, s, e, SourceAfter(source, events), |events|))
  {
    hide KnownEntry, KnownFlight, SourceAfter, KeyOf, Join, ColonFree, PartsFit;
    var after := Begun(codec, s, e, SourceAfter(source, events), |events|);
    forall key | key in after.entries
      ensures key in after.origins
              && KnownEntry(codec, source, events + [e], key, after.entries[key], after.origins[key])
    {
      EntryStaysKnown(codec, source, events, e, key, s.entries[key], s.origins[key]);
    }
    forall c | c in after.flights ensures KnownFlight(source, events + [e], after.flights[c]) {
      if c in s.flights && after.flights[c] == s.flights[c] {
        FlightStaysKnown(source, events, e, s.flights[c]);
      } else {
        NewFlightIsKnown(source, events, e, after.flights[c]);
      }
    }
  }

  lemma NewFlightIsKnown<V(!new)>(source: Source<V>, events: seq<Event<V>>, e: Event<V>, f: Flight<V>)
    requires e.Begin? && ColonFree(e.ns) && PartsFit(e.parts)
    requires f == Flight(e.ns, e.parts, SourceAfter(source, events)(e.ns, e.parts), |events|)
    ensures KnownFlight(source, events + [e], f)
  {
    hide SourceAfter;
    assert (events + [e])[..|events|] == events;
  }

  lemma FinishKeepsKnown<V(!new)>(codec: Codec<V>, source: Source<V>, events: seq<Event<V>>, s: Live<V>, e: Event<V>)
    requires Known(codec, source, events, s) && e.Finish?
    ensures Known(codec, source, events + [e], Finished(codec, s, e, |events|))
  {
    hide KnownEntry, KnownFlight, SourceAfter, KeyOf, Join;
    var after := Finished(codec, s, e, |events|);
    forall key | key in after.entries
      ensures key in after.origins
              && KnownEntry(codec, source, events + [e], key, after.entries[key], after.origins[key])
    {
      if key in s.entries && after.entries[key] == s.entries[key] && after.origins[key] == s.origins[key] {
        EntryStaysKnown(codec, source, events, e, key, s.entries[key], s.origins[key]);
      } else {
        NewEntryIsKnown(codec, source, events, e, s.flights[e.call], key, after.entries[key], after.origins[key]);
      }
    }
    forall c | c in after.flights ensures KnownFlight(source, events + [e], after.flights[c]) {
      FlightStaysKnown(source, events, e, s.flights[c]);
    }
  }

  lemma NewEntryIsKnown<V(!new)>(codec: Codec<V>, source: Source<V>, events: seq<Event<V>>, e: Event<V>,
                                 f: Flight<V>, key: string, entry: Entry, o: Origin)
    requires e.Finish? && KnownFlight(source, events, f)
    requires key == KeyOf(f.ns, Join(f.parts)) && o == Origin(f.ns, f.parts, f.begun, |events|)
    requires codec.dumps(f.value) == Some(entry.value) && entry.expiresAt == e.now + e.ttl as real
    ensures KnownEntry(codec, source, events + [e], key, entry, o)
  {
    hide SourceAfter, KeyOf, Join;
    assert (events + [e])[..f.begun] == events[..f.begun];
  }

  lemma DropKeepsKnown<V(!new)>(codec: Codec<V>, source: Source<V>, events: seq<Event<V>>, s: Live<V>, e: Event<V>)
    requires Known(codec, source, events, s) && (e.Drop? || e.Write?)
    ensures Known(codec, source, events + [e], Next(codec, s, e, SourceAfter(source, events), |events|))
  {
    JoinOfNothing();
    hide KnownEntry, KnownFlight, SourceAfter, KeyOf, Join;
    var after := Next(codec, s, e, SourceAfter(source, events), |events|);
    forall key | key in after.entries
      ensures key in after.origins
              && KnownEntry(codec, source, events + [e], key, after.entries[key], after.origins[key])
    {
      EntryStaysKnown(codec, source, events, e, key, s.entries[key], s.origins[key]);
    }
    forall c | c in after.flights ensures KnownFlight(source, events + [e], after.flights[c]) {
      FlightStaysKnown(source, events, e, s.flights[c]);
    }
  }

  lemma {:induction false} TraceIsKnown<V(!new)>(codec: Codec<V>, source: Source<V>, events: seq<Event<V>>)
    requires CallsFit(events)
    ensures Known(codec, source, events, Trace(codec, source, events))
    decreases |events|
  {
    hide Known, SourceAfter;
    if events == [] {
      NothingIsKnown(codec, source);
    } else {
      var before, e := events[..|events| - 1], events[|events| - 1];
      TraceIsKnown(codec, source, before);
      assert events == before + [e];
      var s := Trace(codec, source, before);
      match e {
        case Begin(_, _, _, _) => BeginKeepsKnown(codec, source, before, s, e);
        case Finish(_, _, _) => FinishKeepsKnown(codec, source, before, s, e);
        case Write(_) => DropKeepsKnown(codec, source, before, s, e);
        case Drop(_, _) => DropKeepsKnown(codec, source, before, s, e);
      }
    }
  }

  lemma NothingIsKnown<V(!new)>(codec: Codec<V>, source: Source<V>)
    ensures Known(codec, source, [], Live(map[], map[], map[]))
  {}

  /** Every hit was produced by a call that began at b, stored at f, and stands since. */
  lemma HitHasOrigin<V(!new)>(codec: Codec<V>, source: Source<V>, events: seq<Event<V>>, ns: string,
                              parts: seq<string>, now: real) returns (o: Origin)
    requires CallsFit(events) && ColonFree(ns) && PartsFit(parts) && Join(parts) != ""
    requires Got(Trace(codec, source, events).entries, KeyOf(ns, Join(parts)), now).1.Some?
    ensures o.ns == ns && o.parts == parts
    ensures var s := Trace(codec, source, events);
            var key := KeyOf(ns, Join(parts));
            key in s.entries && KnownEntry(codec, source, events, key, s.entries[key], o)
            && Got(s.entries, key, now).1 == Some(s.entries[key].value)
  {
    hide KeyOf, Join, Trace, SourceAfter, ColonFree;
    TraceIsKnown(codec, source, events);
    o := Trace(codec, source, events).origins[KeyOf(ns, Join(parts))];
    SameKey(o.ns, o.parts, ns, parts);
  }

  /** Event k wrote another value to this entry of the source. */
  ghost predicate Changed<V(!new)>(source: Source<V>, events: seq<Event<V>>, k: nat, ns: string, parts: seq<string>)
    requires k < |events|
  {
    events[k].Write? && events[k].next(ns, parts) != SourceAfter(source, events[..k])(ns, parts)
  }

  lemma {:induction false} UnchangedSource<V(!new)>(source: Source<V>, events: seq<Event<V>>, b: nat, ns: string,
                                                    parts: seq<string>)
    requires b <= |events| && forall k :: b <= k < |events| ==> !Changed(source, events, k, ns, parts)
    ensures SourceAfter(source, events)(ns, parts) == SourceAfter(source, events[..b])(ns, parts)
    decreases |events|
  {
    if b == |events| {
      assert events[..b] == events;
    } else {
      var n := |events| - 1;
      assert events[..n][..b] == events[..b];
      forall k | b <= k < n ensures !Changed(source, events[..n], k, ns, parts) {
        assert events[..n][..k] == events[..k];
        assert !Changed(source, events, k, ns, parts);
      }
      UnchangedSource(source, events[..n], b, ns, parts);
      assert !Changed(source, events, n, ns, parts);
    }
  }

  /** Once changed, this entry has not come back to a value it had. */
  ghost predicate NeverReturns<V(!new)>(source: Source<V>, events: seq<Event<V>>, ns: string, parts: seq<string>) {
    forall i, k :: 0 <= i <= k < |events| && Changed(source, events, k, ns, parts) ==>
      SourceAfter(source, events[..i])(ns, parts) != SourceAfter(source, events)(ns, parts)
  }

  /** What the store would serve for an entry, if anything: `cached` answers it without produce. */
  function Served<V>(codec: Codec<V>, entries: Entries, ns: string, parts: seq<string>, now: real): Option<V> {
    match Got(entries, KeyOf(ns, Join(parts)), now).1
    case None => None
    case Some(text) => codec.loads(text)
  }

  lemma ServedIsAnswered<V(!new)>(codec: Codec<V>, entries: Entries, ns: string, parts: seq<string>, ttl: int,
                                  produced: V, now: real, later: real)
    requires PartsFit(parts)
    ensures Cached(codec, entries, ns, parts, ttl, produced, now, later).1
         == (match Served(codec, entries, ns, parts, now) case Some(v) => Ok(v) case None => Ok(produced))
  {
    hide KeyOf, Join;
  }

  /** Each value that this entry of the source had reads back. */
  ghost predicate EntryReadsBack<V(!new)>(codec: Codec<V>, source: Source<V>, events: seq<Event<V>>, ns: string,
                                          parts: seq<string>)
  {
    forall i :: 0 <= i <= |events| ==> ReadsBack(codec, SourceAfter(source, events[..i])(ns, parts))
  }

  /**
   * What is served is the source's value at this moment if the produce behind it ran after the
   * last change of its entry, and only then unless the entry came back to an old value.
   */
  lemma ServedIsCurrentIff<V(!new)>(codec: Codec<V>, source: Source<V>, events: seq<Event<V>>, ns: string,
                                    parts: seq<string>, now: real) returns (o: Origin)
    requires CallsFit(events) && ColonFree(ns) && PartsFit(parts) && Join(parts) != ""
    requires EntryReadsBack(codec, source, events, ns, parts)
    requires Served(codec, Trace(codec, source, events).entries, ns, parts, now).Some?
    ensures BeganAt(events, o.begun, ns, parts) && o.begun < o.finished < |events|
    ensures var current := SourceAfter(source, events)(ns, parts);
            var isCurrent := Served(codec, Trace(codec, source, events).entries, ns, parts, now) == Some(current);
            var stable := forall k :: o.begun <= k < |events| ==> !Changed(source, events, k, ns, parts);
            && (stable ==> isCurrent)
            && (NeverReturns(source, events, ns, parts) ==> (isCurrent <==> stable))
  {
    hide KeyOf, Join, Trace, SourceAfter, Changed, ColonFree;
    o := HitHasOrigin(codec, source, events, ns, parts, now);
    if forall k :: o.begun <= k < |events| ==> !Changed(source, events, k, ns, parts) {
      UnchangedSource(source, events, o.begun, ns, parts);
    }
  }

  /** Every change is invalidated before the end of the trace. */
  ghost predicate ChangesAreDropped<V(!new)>(source: Source<V>, events: seq<Event<V>>, ns: string,
                                             parts: seq<string>)
  {
    forall k :: 0 <= k < |events| && Changed(source, events, k, ns, parts) ==>
      exists d :: k < d < |events| && DropsKey(events, d, KeyOf(ns, Join(parts)))
  }

  /**
   * When every write has had its invalidation, what is served is current if the call that stored
   * it was not in flight across a change of its entry, and only then unless the entry came back.
   */
  lemma StaleOnlyAcrossWrite<V(!new)>(codec: Codec<V>, source: Source<V>, events: seq<Event<V>>, ns: string,
                                      parts: seq<string>, now: real) returns (o: Origin)
    requires CallsFit(events) && ColonFree(ns) && PartsFit(parts) && Join(parts) != ""
    requires EntryReadsBack(codec, source, events, ns, parts)
    requires ChangesAreDropped(source, events, ns, parts)
    requires Served(codec, Trace(codec, source, events).entries, ns, parts, now).Some?
    ensures BeganAt(events, o.begun, ns, parts) && o.begun < o.finished < |events|
    ensures var current := SourceAfter(source, events)(ns, parts);
            var isCurrent := Served(codec, Trace(codec, source, events).entries, ns, parts, now) == Some(current);
            var undisturbed := forall k :: o.begun <= k < o.finished ==> !Changed(source, events, k, ns, parts);
            && (undisturbed ==> isCurrent)
            && (NeverReturns(source, events, ns, parts) ==> (isCurrent <==> undisturbed))
  {
    hide KeyOf, Join, Trace, SourceAfter, Changed, ColonFree, DropsKey;
    o := HitHasOrigin(codec, source, events, ns, parts, now);
    if forall k :: o.begun <= k < o.finished ==> !Changed(source, events, k, ns, parts) {
      UnchangedSource(source, events, o.begun, ns, parts);
    }
  }

  lemma TraceStep<V(!new)>(codec: Codec<V>, source: Source<V>, events: seq<Event<V>>, e: Event<V>)
    ensures Trace(codec, source, events + [e])
         == Next(codec, Trace(codec, source, events), e, SourceAfter(source, events), |events|)
    ensures SourceAfter(source, events + [e]) == if e.Write? then e.next else SourceAfter(source, events)
  {
    assert (events + [e])[..|events|] == events;
  }

  /** Such a call exists: it produces, the source is written and invalidated, and only then it stores. */
  lemma LateStoreServesOldValue<V(!new)>(codec: Codec<V>, source: Source<V>, next: Source<V>, ns: string,
                                         parts: seq<string>, ttl: int, begun: real, finished: real, now: real)
    requires ColonFree(ns) && PartsFit(parts) && Join(parts) != "" && next(ns, parts) != source(ns, parts)
    requires codec.dumps(source(ns, parts)).Some?
    requires codec.loads(codec.dumps(source(ns, parts)).value) == Some(source(ns, parts))
    requires begun <= finished <= now < finished + ttl as real
    ensures var events := [Begin(0, ns, parts, begun), Write(next), Drop(ns, []), Finish(0, ttl, finished)];
            && SourceAfter(source, events)(ns, parts) == next(ns, parts)
            && Served(codec, Trace(codec, source, events).entries, ns, parts, now) == Some(source(ns, parts))
  {
    var e0, e1, e2, e3 := Begin(0, ns, parts, begun), Write(next), Drop(ns, []), Finish(0, ttl, finished);
    TraceStep(codec, source, [], e0);
    TraceStep(codec, source, [e0], e1);
    TraceStep(codec, source, [e0, e1], e2);
    TraceStep(codec, source, [e0, e1, e2], e3);
    assert [] + [e0] == [e0] && [e0] + [e1] == [e0, e1] && [e0, e1] + [e2] == [e0, e1, e2];
    assert [e0, e1, e2] + [e3] == [e0, e1, e2, e3];
    assert Trace(codec, source, []) == Live(map[], map[], map[]) && SourceAfter(source, []) == source;
    hide KeyOf, Join, ColonFree, Forgotten, Trace, SourceAfter;
  }
}
