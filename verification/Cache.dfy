/**
 * The read-through cache (packages/cache.py) against the uncached function it speeds up.
 * Values are of any type; printing and parsing them as JSON are two given functions.
 */
module Cache {
  import opened Outcomes

  // ----- Keys ---------------------------------------------------------------

  const KEY_PREFIX := "agentpay:cache:v1"

  predicate ColonFree(s: string) {
    forall i :: 0 <= i < |s| ==> s[i] != ':'
  }

  predicate PartsFit(parts: seq<string>) {
    forall i :: 0 <= i < |parts| ==> ColonFree(parts[i])
  }

  /** ":".join(parts) */
  function Join(parts: seq<string>): string {
    if parts == [] then ""
    else if |parts| == 1 then parts[0]
    else parts[0] + ":" + Join(parts[1..])
  }

  datatype Error = ColonInPart

  function KeyOf(ns: string, suffix: string): string {
    KEY_PREFIX + ":" + ns + (if suffix == "" then "" else ":" + suffix)
  }

  function BuildKey(ns: string, parts: seq<string>): Result<string, Error> {
    if !PartsFit(parts) then Err(ColonInPart) else Ok(KeyOf(ns, Join(parts)))
  }

  /** The length of the text before the first colon. */
  function ColonAt(s: string): nat {
    if s == "" || s[0] == ':' then 0 else 1 + ColonAt(s[1..])
  }

  lemma {:induction false} ColonAfter(a: string, x: string)
    requires ColonFree(a) && (x == "" || x[0] == ':')
    ensures ColonAt(a + x) == |a|
  {
    if a == "" {
      assert a + x == x;
    } else {
      ColonAfter(a[1..], x);
      assert (a + x)[1..] == a[1..] + x;
    }
  }

  /** Text before a first colon, and what follows it, are determined by the whole. */
  lemma FirstColon(a: string, x: string, b: string, y: string)
    requires ColonFree(a) && ColonFree(b) && a + x == b + y
    requires (x == "" || x[0] == ':') && (y == "" || y[0] == ':')
    ensures a == b && x == y
  {
    ColonAfter(a, x);
    ColonAfter(b, y);
    assert a == (a + x)[..|a|] && b == (b + y)[..|b|] && x == (a + x)[|a|..] && y == (b + y)[|b|..];
  }

  lemma Regroups(a: string, b: string)
    ensures a + ":" + b == a + (":" + b)
  {}

  /** What follows the first part. */
  function AfterFirst(p: seq<string>): (r: string)
    requires p != []
    ensures r == "" || r[0] == ':'
  {
    if |p| == 1 then "" else ":" + Join(p[1..])
  }

  lemma JoinSplits(p: seq<string>)
    requires p != []
    ensures Join(p) == p[0] + AfterFirst(p)
    ensures |p| > 1 ==> AfterFirst(p) != "" && Join(p[1..]) == AfterFirst(p)[1..]
  {
    if |p| > 1 {
      var first, rest := p[0], Join(p[1..]);
      assert Join(p) == first + ":" + rest;
      hide Join;
      Regroups(first, rest);
    }
  }

  lemma {:induction false} JoinIsInjective(p: seq<string>, q: seq<string>)
    requires PartsFit(p) && PartsFit(q) && p != [] && q != [] && Join(p) == Join(q)
    ensures p == q
  {
    JoinSplits(p);
    JoinSplits(q);
    FirstColon(p[0], AfterFirst(p), q[0], AfterFirst(q));
    if |p| > 1 {
      JoinIsInjective(p[1..], q[1..]);
    }
    assert p == [p[0]] + p[1..] && q == [q[0]] + q[1..];
  }

  lemma KeyDetermines(n: string, s: string, m: string, t: string)
    requires ColonFree(n) && ColonFree(m) && KeyOf(n, s) == KeyOf(m, t)
    ensures n == m && s == t
  {
    var front := KEY_PREFIX + ":";
    var x, y := if s == "" then "" else ":" + s, if t == "" then "" else ":" + t;
    assert KeyOf(n, s) == front + (n + x) && KeyOf(m, t) == front + (m + y);
    assert n + x == KeyOf(n, s)[|front|..] && m + y == KeyOf(m, t)[|front|..];
    FirstColon(n, x, m, y);
    if s != "" {
      assert s == x[1..] && t == y[1..];
    }
  }

  /** Two colon-free namespaces share a key exactly for the same parts, or for none and one empty part. */
  lemma KeysAreUnambiguous(n: string, p: seq<string>, m: string, q: seq<string>)
    requires ColonFree(n) && ColonFree(m) && PartsFit(p) && PartsFit(q)
    ensures BuildKey(n, p) == BuildKey(m, q) <==>
            n == m && (p == q || (p in {[], [""]} && q in {[], [""]}))
  {
    assert Join([""]) == "" == Join([]);
    if BuildKey(n, p) == BuildKey(m, q) {
      KeyDetermines(n, Join(p), m, Join(q));
      if p != [] && q != [] {
        JoinIsInjective(p, q);
      } else if p != [] {
        JoinIsInjective(p, [""]);
      } else if q != [] {
        JoinIsInjective([""], q);
      }
    }
  }

  /** With a colon in a namespace the same key has two readings. */
  lemma ColonInNamespaceIsAmbiguous(n: string, m: string, part: string)
    requires part != "" && ColonFree(part) && ColonFree(m)
    ensures BuildKey(n + ":" + m, [part]) == BuildKey(n, [m, part])
  {
    assert [m, part][1..] == [part];
    assert KeyOf(n + ":" + m, part) == KeyOf(n, m + ":" + part);
  }

  // ----- The store ----------------------------------------------------------

  datatype Entry = Entry(value: string, expiresAt: real)

  type Entries = map<string, Entry>

  /** A hit, and the entries left: reading an expired entry removes it. */
  function Got(entries: Entries, key: string, now: real): (Entries, Option<string>) {
    if key !in entries then (entries, None)
    else if now >= entries[key].expiresAt then (entries - {key}, None)
    else (entries, Some(entries[key].value))
  }

  function Stored(entries: Entries, key: string, value: string, ttl: int, now: real): Entries {
    entries[key := Entry(value, now + ttl as real)]
  }

  function Doomed(entries: Entries, prefix: string): set<string> {
    set k | k in entries && prefix <= k
  }

  function Dropped(entries: Entries, prefix: string): Entries {
    entries - Doomed(entries, prefix)
  }

  class InMemoryCacheBackend {
    var entries: Entries

    constructor ()
      ensures entries == map[]
    {
      entries := map[];
    }

    method Get(key: string, now: real) returns (hit: Option<string>)
      modifies this
      ensures (entries, hit) == Got(old(entries), key, now)
    {
      if key !in entries { return None; }
      var entry := entries[key];
      if now >= entry.expiresAt {
        entries := entries - {key};
        return None;
      }
      return Some(entry.value);
    }

    method Set(key: string, value: string, ttl: int, now: real)
      modifies this
      ensures entries == Stored(old(entries), key, value, ttl, now)
    {
      entries := entries[key := Entry(value, now + ttl as real)];
    }

    method DropNamespace(prefix: string) returns (removed: nat)
      modifies this
      ensures entries == Dropped(old(entries), prefix)
      ensures removed == |old(entries)| - |entries|
    {
      hide Doomed;
      var doomed := Doomed(entries, prefix);
      DoomedAreEntries(entries, prefix);
      DropCount(entries, doomed);
      var rest := doomed;
      while rest != {}
        invariant rest <= doomed
        invariant entries == old(entries) - (doomed - rest)
      {
        var key :| key in rest;
        DropsOneMore(old(entries), doomed, rest, key);
        entries := entries - {key};
        rest := rest - {key};
      }
      assert doomed - {} == doomed;
      removed := |doomed|;
    }
  }

  lemma DoomedAreEntries(entries: Entries, prefix: string)
    ensures Doomed(entries, prefix) <= entries.Keys
  {}

  lemma DropsOneMore(entries: Entries, doomed: set<string>, rest: set<string>, key: string)
    requires key in rest && rest <= doomed
    ensures (entries - (doomed - rest)) - {key} == entries - (doomed - (rest - {key}))
  {}

  lemma DropCount(entries: Entries, keys: set<string>)
    requires keys <= entries.Keys
    ensures |entries - keys| == |entries| - |keys|
  {}

  // ----- Read-through -------------------------------------------------------

  /** json.dumps, which may refuse a value, and json.loads, which may refuse a text. */
  datatype Codec<!V> = Codec(dumps: V -> Option<string>, loads: string -> Option<V>)

  /**
   * What json.dumps(value, default=str) prints reads back as the value, or does not read at all.
   * Dates, decimals and tuples are values that do read, but as something else.
   */
  predicate ReadsBack<V(==)>(codec: Codec<V>, v: V) {
    match codec.dumps(v)
    case None => true
    case Some(text) => codec.loads(text) == None || codec.loads(text) == Some(v)
  }

  /** `produced` is what produce() would return; the clock is read once to get and once to set. */
  function Cached<V>(codec: Codec<V>, entries: Entries, ns: string, parts: seq<string>, ttl: int,
                     produced: V, now: real, later: real): (Entries, Result<V, Error>)
  {
    match BuildKey(ns, parts)
    case Err(e) => (entries, Err(e))
    case Ok(key) =>
      var (left, hit) := Got(entries, key, now);
      if hit.Some? && codec.loads(hit.value).Some? then (left, Ok(codec.loads(hit.value).value))
      else
        (if codec.dumps(produced).Some? then Stored(left, key, codec.dumps(produced).value, ttl, later)
         else left,
         Ok(produced))
  }

  method CachedRead<V>(store: InMemoryCacheBackend, codec: Codec<V>, ns: string, parts: seq<string>,
                       ttl: int, produced: V, now: real, later: real) returns (r: Result<V, Error>)
    modifies store
    ensures (store.entries, r) == Cached(codec, old(store.entries), ns, parts, ttl, produced, now, later)
  {
    var key := BuildKey(ns, parts);
    if key.Err? { return Err(key.error); }
    var hit := store.Get(key.value, now);
    if hit.Some? {
      var value := codec.loads(hit.value);
      if value.Some? { return Ok(value.value); }
    }
    var text := codec.dumps(produced);
    if text.Some? {
      store.Set(key.value, text.value, ttl, later);
    }
    return Ok(produced);
  }

  function Invalidated(entries: Entries, ns: string, parts: seq<string>): Result<Entries, Error> {
    match BuildKey(ns, parts)
    case Err(e) => Err(e)
    case Ok(key) => Ok(Dropped(entries, if parts == [] then key + ":" else key))
  }

  method Invalidate(store: InMemoryCacheBackend, ns: string, parts: seq<string>)
    returns (removed: Result<nat, Error>)
    modifies store
    ensures match Invalidated(old(store.entries), ns, parts)
            case Err(e) => removed == Err(e) && store.entries == old(store.entries)
            case Ok(left) => removed == Ok(|old(store.entries)| - |left|) && store.entries == left
    ensures ColonFree(ns) && WellKeyed(old(store.entries)) && removed.Ok? ==>
              removed.value == |TakenKeys(old(store.entries), ns, parts)|
  {
    if ColonFree(ns) && WellKeyed(store.entries) && PartsFit(parts) {
      InvalidationCounts(store.entries, ns, parts);
    }
    hide TakenKeys, WellKeyed;
    var key := BuildKey(ns, parts);
    if key.Err? { return Err(key.error); }
    var n := store.DropNamespace(if parts == [] then key.value + ":" else key.value);
    return Ok(n);
  }

  lemma SamePrefix(front: string, a: string, b: string)
    ensures front + a <= front + b <==> a <= b
  {
    if front + a <= front + b {
      assert b[..|a|] == (front + b)[|front|..|front + a|] == a;
    }
  }

  lemma AcrossColon(n: string, s: string, m: string, y: string)
    requires ColonFree(n) && ColonFree(m) && (y == "" || y[0] == ':')
    ensures n + (":" + s) <= m + y <==> n == m && ":" + s <= y
  {
    if n + (":" + s) <= m + y {
      var rest := (m + y)[|n| + 1 + |s|..];
      assert m + y == n + (":" + s + rest);
      FirstColon(m, y, n, ":" + s + rest);
    } else if n == m {
      SamePrefix(n, ":" + s, y);
    }
  }

  /** The keys that start with a namespace, a separator and a text. */
  lemma KeysUnder(n: string, m: string, s: string, t: string)
    requires ColonFree(n) && ColonFree(m)
    ensures (KEY_PREFIX + ":" + n) + (":" + s) <= KeyOf(m, t) <==> n == m && t != "" && s <= t
  {
    var front := KEY_PREFIX + ":";
    var y := if t == "" then "" else ":" + t;
    assert (front + n) + (":" + s) == front + (n + (":" + s));
    assert KeyOf(m, t) == front + (m + y);
    SamePrefix(front, n + (":" + s), m + y);
    AcrossColon(n, s, m, y);
    SamePrefix(":", s, t);
  }

  /** A namespace is dropped whole, except its zero-part key, and no other namespace is touched. */
  lemma NamespaceDrop(n: string, m: string, suffix: string)
    requires ColonFree(n) && ColonFree(m)
    ensures KeyOf(n, "") + ":" <= KeyOf(m, suffix) <==> n == m && suffix != ""
  {
    KeysUnder(n, m, "", suffix);
    assert KeyOf(n, "") + ":" == (KEY_PREFIX + ":" + n) + (":" + "");
  }

  /** A colon-free text starts a namespace's key exactly when it starts the namespace. */
  lemma StartsNamespace(n: string, m: string, y: string)
    requires ColonFree(n) && (y == "" || y[0] == ':')
    ensures n <= m + y <==> n <= m
  {
    if n <= m + y {
      assert n == (m + y)[..|n|];
      assert y != "" ==> (m + y)[|m|] == ':';
      assert |n| <= |m|;
    }
  }

  /**
   * Dropping by parts drops every entry of the namespace whose suffix extends theirs, siblings too;
   * one empty part drops every key of every namespace that extends this one.
   */
  lemma EntryDrop(n: string, m: string, s: string, t: string)
    requires ColonFree(n) && ColonFree(m)
    ensures KeyOf(n, s) <= KeyOf(m, t) <==> if s == "" then n <= m else n == m && s <= t
  {
    if s == "" {
      var front := KEY_PREFIX + ":";
      var y := if t == "" then "" else ":" + t;
      assert KeyOf(n, s) == front + n && KeyOf(m, t) == front + (m + y);
      SamePrefix(front, n, m + y);
      StartsNamespace(n, m, y);
    } else {
      KeysUnder(n, m, s, t);
      assert KeyOf(n, s) == (KEY_PREFIX + ":" + n) + (":" + s);
    }
  }

  // ----- The texts of keys, and what an invalidation takes ------------------------

  /** Each part after a colon. */
  function Tail(parts: seq<string>): string {
    if parts == [] then "" else ":" + parts[0] + Tail(parts[1..])
  }

  lemma {:induction false} JoinIsTail(parts: seq<string>)
    requires parts != []
    ensures ":" + Join(parts) == Tail(parts)
    ensures Join(parts) == "" <==> parts == [""]
    decreases |parts|
  {
    if |parts| > 1 {
      JoinIsTail(parts[1..]);
      assert ":" + (parts[0] + ":" + Join(parts[1..])) == ":" + parts[0] + (":" + Join(parts[1..]));
    } else {
      assert Tail(parts[1..]) == "";
      assert parts == [parts[0]];
    }
  }

  /** A key is the version, the namespace and the parts, in that order, between colons. */
  lemma KeyText(ns: string, parts: seq<string>)
    ensures BuildKey(ns, parts).Err? <==> exists i :: 0 <= i < |parts| && ':' in parts[i]
    ensures BuildKey(ns, parts).Ok? ==>
              BuildKey(ns, parts).value
              == "agentpay:cache:v1:" + ns + (if parts == [""] then "" else Tail(parts))
  {
    if parts != [] {
      JoinIsTail(parts);
    }
    assert KEY_PREFIX + ":" == "agentpay:cache:v1:";
    hide Tail, Join;
  }

  /** The entry ("m", t) is taken by an invalidation of `ns` and these parts. */
  predicate Taken(ns: string, parts: seq<string>, m: string, t: string) {
    if parts == [] then ns == m && t != ""
    else if parts == [""] then ns <= m
    else ns == m && Join(parts) <= t
  }

  lemma TakenIff(entries: Entries, ns: string, parts: seq<string>, m: string, t: string)
    requires ColonFree(ns) && ColonFree(m) && PartsFit(parts)
    ensures BuildKey(ns, parts).Ok?
    ensures var prefix := BuildKey(ns, parts).value + (if parts == [] then ":" else "");
            prefix <= KeyOf(m, t) <==> Taken(ns, parts, m, t)
  {
    hide KeyOf;
    if parts == [] {
      NamespaceDrop(ns, m, t);
    } else {
      JoinIsTail(parts);
      EntryDrop(ns, m, Join(parts), t);
    }
  }

  /** An entry survives with its value exactly when it was there and is not taken. */
  lemma SurvivesIff(entries: Entries, ns: string, parts: seq<string>, m: string, t: string)
    requires ColonFree(ns) && ColonFree(m) && PartsFit(parts)
    ensures Invalidated(entries, ns, parts).Ok?
    ensures var left, key := Invalidated(entries, ns, parts).value, KeyOf(m, t);
            && (key in left <==> key in entries && !Taken(ns, parts, m, t))
            && (key in left ==> left[key] == entries[key])
  {
    TakenIff(entries, ns, parts, m, t);
    hide BuildKey, KeyOf, Taken;
  }

  /** Every key of the store was built from a colon-free namespace. */
  ghost predicate WellKeyed(entries: Entries) {
    forall key :: key in entries ==> exists m, t :: ColonFree(m) && key == KeyOf(m, t)
  }

  /** The stored keys an invalidation takes. */
  ghost function TakenKeys(entries: Entries, ns: string, parts: seq<string>): set<string> {
    set key | key in entries && exists m, t :: ColonFree(m) && key == KeyOf(m, t) && Taken(ns, parts, m, t)
  }

  /** An invalidation removes those and answers how many they were. */
  lemma InvalidationCounts(entries: Entries, ns: string, parts: seq<string>)
    requires ColonFree(ns) && PartsFit(parts) && WellKeyed(entries)
    ensures Invalidated(entries, ns, parts) == Ok(entries - TakenKeys(entries, ns, parts))
    ensures |entries| - |Invalidated(entries, ns, parts).value| == |TakenKeys(entries, ns, parts)|
  {
    hide Invalidated, KeyOf, Taken;
    SurvivesIff(entries, ns, parts, "", "");
    var left, taken := Invalidated(entries, ns, parts).value, TakenKeys(entries, ns, parts);
    LeftAreEntries(entries, ns, parts);
    forall key | key in entries ensures key in left <==> key !in taken {
      var m, t :| ColonFree(m) && key == KeyOf(m, t);
      SurvivesIff(entries, ns, parts, m, t);
      forall n, s | ColonFree(n) && key == KeyOf(n, s) ensures n == m && s == t {
        KeyDetermines(n, s, m, t);
      }
    }
    assert left == entries - taken;
    DropCount(entries, taken);
  }

  /** A store that only such calls write is well keyed. */
  lemma CallsKeepWellKeyed<V>(codec: Codec<V>, entries: Entries, ns: string, parts: seq<string>, ttl: int,
                              produced: V, now: real, later: real)
    requires WellKeyed(entries) && ColonFree(ns)
    ensures WellKeyed(Cached(codec, entries, ns, parts, ttl, produced, now, later).0)
    ensures Invalidated(entries, ns, parts).Ok? ==> WellKeyed(Invalidated(entries, ns, parts).value)
  {
    hide KeyOf, Join;
    if PartsFit(parts) {
      assert ColonFree(ns) && BuildKey(ns, parts) == Ok(KeyOf(ns, Join(parts)));
    }
  }

  lemma LeftAreEntries(entries: Entries, ns: string, parts: seq<string>)
    requires Invalidated(entries, ns, parts).Ok?
    ensures forall key :: key in Invalidated(entries, ns, parts).value ==>
              key in entries && Invalidated(entries, ns, parts).value[key] == entries[key]
  {}

  // ----- What one call answers and leaves ---------------------------------------------

  /** A live entry that reads is answered and stays; anything else is produced, and stored if it prints. */
  lemma CachedAnswers<V>(codec: Codec<V>, entries: Entries, ns: string, parts: seq<string>, ttl: int,
                         produced: V, now: real, later: real)
    requires PartsFit(parts)
    ensures var (left, answer) := Cached(codec, entries, ns, parts, ttl, produced, now, later);
            var key := BuildKey(ns, parts).value;
            var live := key in entries && now < entries[key].expiresAt;
            if live && codec.loads(entries[key].value).Some?
            then left == entries && answer == Ok(codec.loads(entries[key].value).value)
            else
              && answer == Ok(produced)
              && left == match codec.dumps(produced)
                         case Some(text) => entries[key := Entry(text, later + ttl as real)]
                         case None => if live then entries else entries - {key}
  {
    hide KeyOf;
  }

  // ----- What the store sees --------------------------------------------------

  /** The reads, stores and drops of many callers, one after another. */
  datatype Event =
    | GetAt(key: string, now: real)
    | SetAt(key: string, value: string, ttl: int, now: real)
    | DropAt(prefix: string, now: real)

  function Seen(entries: Entries, e: Event): Entries {
    match e
    case GetAt(key, now) => Got(entries, key, now).0
    case SetAt(key, value, ttl, now) => Stored(entries, key, value, ttl, now)
    case DropAt(prefix, _) => Dropped(entries, prefix)
  }

  function Trace(events: seq<Event>): Entries {
    if events == [] then map[] else Seen(Trace(events[..|events| - 1]), events[|events| - 1])
  }

  predicate Monotone(events: seq<Event>, now: real) {
    && (forall i, j :: 0 <= i < j < |events| ==> events[i].now <= events[j].now)
    && (forall i :: 0 <= i < |events| ==> events[i].now <= now)
  }

  /** Event i stored this value, still within its ttl, and nothing has replaced or dropped it since. */
  ghost predicate StillStands(events: seq<Event>, i: nat, key: string, value: string, now: real)
    requires i < |events|
  {
    && events[i].SetAt? && events[i].key == key && events[i].value == value
    && now < events[i].now + events[i].ttl as real
    && forall j :: i < j < |events| ==>
         && !(events[j].SetAt? && events[j].key == key)
         && !(events[j].DropAt? && events[j].prefix <= key)
  }

  lemma {:induction false} HitStillStands(events: seq<Event>, key: string, now: real)
    returns (i: nat)
    requires Got(Trace(events), key, now).1.Some?
    ensures i < |events| && StillStands(events, i, key, Got(Trace(events), key, now).1.value, now)
    decreases |events|
  {
    var n := |events| - 1;
    var before, e := Trace(events[..n]), events[n];
    if e.SetAt? && e.key == key {
      i := n;
    } else {
      i := HitStillStands(events[..n], key, now);
    }
  }

  lemma {:induction false} StandingIsHit(events: seq<Event>, i: nat, key: string, value: string, now: real)
    requires Monotone(events, now) && i < |events| && StillStands(events, i, key, value, now)
    ensures Got(Trace(events), key, now).1 == Some(value)
    decreases |events|
  {
    var n := |events| - 1;
    if i < n {
      StandingIsHit(events[..n], i, key, value, now);
    }
  }

  /** Under a monotone clock a read hits exactly the last store of its key that still stands. */
  lemma HitsAreExactlyWhatStands(events: seq<Event>, key: string, value: string, now: real)
    requires Monotone(events, now)
    ensures Got(Trace(events), key, now).1 == Some(value) <==>
            exists i: nat :: i < |events| && StillStands(events, i, key, value, now)
  {
    if Got(Trace(events), key, now).1 == Some(value) {
      var i := HitStillStands(events, key, now);
      assert StillStands(events, i, key, value, now);
    }
    forall i: nat | i < |events| && StillStands(events, i, key, value, now)
      ensures Got(Trace(events), key, now).1 == Some(value)
    {
      StandingIsHit(events, i, key, value, now);
    }
  }

  /** A hit was never stored before an invalidation of its namespace that completed since. */
  lemma NoHitFromBeforeInvalidation(events: seq<Event>, ns: string, suffix: string, d: nat, now: real)
    returns (i: nat)
    requires d < |events| && ColonFree(ns) && suffix != ""
    requires events[d].DropAt? && events[d].prefix == KeyOf(ns, "") + ":"
    requires Got(Trace(events), KeyOf(ns, suffix), now).1.Some?
    ensures d < i < |events|
    ensures StillStands(events, i, KeyOf(ns, suffix), Got(Trace(events), KeyOf(ns, suffix), now).1.value, now)
  {
    i := HitStillStands(events, KeyOf(ns, suffix), now);
    NamespaceDrop(ns, ns, suffix);
    hide KeyOf, Trace;
  }

  // ----- The remote backend's cooldown --------------------------------------

  /** After a failed call the backend is not tried again until a cooldown has passed. */
  class RedisCacheBackend {
    const cooldown: real
    var unavailableUntil: real

    constructor (cooldown: real)
      requires cooldown >= 0.0
      ensures this.cooldown == cooldown && unavailableUntil == 0.0
    {
      this.cooldown := cooldown;
      unavailableUntil := 0.0;
    }

    /** A read that may reach the server; `reply` is what it would answer, or None for a failure. */
    method Get(now: real, reply: Option<Option<string>>) returns (value: Option<string>, attempted: bool)
      modifies this
      ensures attempted == Attempts(old(unavailableUntil), now)
      ensures unavailableUntil == NextUntil(cooldown, old(unavailableUntil), Call(now, reply.None?))
      ensures value == if attempted && reply.Some? then reply.value else None
    {
      attempted := !(now < unavailableUntil);
      if !attempted { return None, false; }
      if reply.None? {
        unavailableUntil := now + cooldown;
        return None, true;
      }
      return reply.value, true;
    }
  }

  datatype Call = Call(now: real, fails: bool)

  predicate Attempts(until: real, now: real) {
    !(now < until)
  }

  function NextUntil(cooldown: real, until: real, c: Call): real {
    if Attempts(until, c.now) && c.fails then c.now + cooldown else until
  }

  function UntilAfter(cooldown: real, calls: seq<Call>): real {
    if calls == [] then 0.0
    else NextUntil(cooldown, UntilAfter(cooldown, calls[..|calls| - 1]), calls[|calls| - 1])
  }

  lemma {:induction false} UntilOnlyGrows(cooldown: real, calls: seq<Call>, k: nat)
    requires cooldown >= 0.0 && k <= |calls|
    ensures UntilAfter(cooldown, calls[..k]) <= UntilAfter(cooldown, calls)
    decreases |calls|
  {
    if k == |calls| {
      assert calls[..k] == calls;
    } else {
      UntilOnlyGrows(cooldown, calls[..|calls| - 1], k);
      assert calls[..|calls| - 1][..k] == calls[..k];
    }
  }

  /** However the clock moves: an attempt after a failed attempt comes at least a cooldown later. */
  lemma CooldownIsKept(cooldown: real, calls: seq<Call>, i: nat, j: nat)
    requires cooldown >= 0.0 && i < j < |calls|
    requires Attempts(UntilAfter(cooldown, calls[..i]), calls[i].now) && calls[i].fails
    requires Attempts(UntilAfter(cooldown, calls[..j]), calls[j].now)
    ensures calls[j].now >= calls[i].now + cooldown
  {
    assert calls[..i + 1][..i] == calls[..i];
    UntilOnlyGrows(cooldown, calls[..j], i + 1);
    assert calls[..j][..i + 1] == calls[..i + 1];
  }

  /** Call i reached the server and failed. */
  predicate Failed(cooldown: real, calls: seq<Call>, i: nat)
    requires i < |calls|
  {
    Attempts(UntilAfter(cooldown, calls[..i]), calls[i].now) && calls[i].fails
  }

  /** A call reaches the server exactly when every failure before it is a cooldown old. */
  lemma {:induction false} AttemptsIff(cooldown: real, calls: seq<Call>, now: real)
    requires cooldown >= 0.0
    ensures Attempts(UntilAfter(cooldown, calls), now) <==>
            now >= 0.0 && forall i :: 0 <= i < |calls| && Failed(cooldown, calls, i) ==> now >= calls[i].now + cooldown
    decreases |calls|
  {
    if calls != [] {
      var n := |calls| - 1;
      var before := calls[..n];
      AttemptsIff(cooldown, before, now);
      AttemptsIff(cooldown, before, calls[n].now);
      forall i | 0 <= i < n ensures Failed(cooldown, before, i) <==> Failed(cooldown, calls, i) {
        assert before[..i] == calls[..i];
      }
      assert forall i :: 0 <= i < n ==> before[i] == calls[i];
    }
  }
}
