/**
 Edge's fixed-window limiter with a bounded number of keys
 (services/edge-api/middleware/rate_limit.go).

 FixedWindowRateLimit and PrincipalRateLimiter.Allow run the same steps on a key;
 they differ in how the key is made.
 */
module RateLimit {
  import opened Prelude
  import opened Text

  datatype Entry = Entry(started: Time, count: nat)

  datatype Policy = Policy(limit: nat, window: nat, maxKeys: nat)

  predicate Sound(policy: Policy) {
    1 <= policy.limit && 1 <= policy.window && 1 <= policy.maxKeys
  }

  datatype Decision = Decision(allowed: bool, retryAfter: nat)

  predicate Open(policy: Policy, e: Entry, now: Time) {
    now - e.started < policy.window
  }

  function RemainingWindow(now: Time, started: Time, window: nat): nat {
    var remaining := window - (now - started);
    if remaining <= 0 then 0 else remaining
  }

  /** The entry after one more attempt. */
  function Counted(policy: Policy, entries: map<string, Entry>, key: string, now: Time): Entry {
    var e := if key in entries && Open(policy, entries[key], now) then entries[key] else Entry(now, 0);
    e.(count := e.count + 1)
  }

  function Verdict(policy: Policy, e: Entry, now: Time): Decision {
    if e.count > policy.limit then Decision(false, RemainingWindow(now, e.started, policy.window))
        else Decision(true, 0)
  }

  function Pruned(policy: Policy, entries: map<string, Entry>, now: Time): map<string, Entry> {
    map k | k in entries && Open(policy, entries[k], now) :: entries[k]
  }

  /** The entries after room was made for a new key. */
  function Roomy(policy: Policy, entries: map<string, Entry>, key: string, now: Time): map<string, Entry> {
    if key !in entries && |entries| >= policy.maxKeys then Pruned(policy, entries, now) else entries
  }

  /** Refused unheard: the key is new and the table is full of open windows. */
  predicate Full(policy: Policy, entries: map<string, Entry>, key: string, now: Time) {
    key !in entries && |Roomy(policy, entries, key, now)| >= policy.maxKeys
  }

  datatype Outcome = Outcome(entries: map<string, Entry>, decision: Decision)

  function Bounded(policy: Policy, entries: map<string, Entry>, key: string, now: Time): Outcome {
    var roomy := Roomy(policy, entries, key, now);
    if Full(policy, entries, key, now) then Outcome(roomy, Decision(false, policy.window))
    else
      var e := Counted(policy, roomy, key, now);
      Outcome(roomy[key := e], Verdict(policy, e, now))
  }

  /** The same limiter with room for every key. */
  function Unbounded(policy: Policy, entries: map<string, Entry>, key: string, now: Time): Outcome {
    var e := Counted(policy, entries, key, now);
    Outcome(entries[key := e], Verdict(policy, e, now))
  }

  // ---------------------------------------------------------------------
  // The bounded limiter refines the unbounded one

  datatype Call = Call(key: string, now: Time)

  /** Both limiters, and the latest reading at which closed windows were pruned. */
  datatype Pair = Pair(bounded: map<string, Entry>, unbounded: map<string, Entry>, pruned: Option<Time>)

  predicate Prunes(policy: Policy, entries: map<string, Entry>, key: string) {
    key !in entries && |entries| >= policy.maxKeys
  }

  /** The entries of the bounded table are those of the unbounded one. */
  ghost predicate Matches(bounded: map<string, Entry>, unbounded: map<string, Entry>) {
    forall k :: k in bounded ==> k in unbounded && unbounded[k] == bounded[k]
  }

  /** What the bounded table has forgotten are windows closed when it last pruned. */
  ghost predicate Agree(policy: Policy, s: Pair) {
    && |s.bounded| <= policy.maxKeys
    && Matches(s.bounded, s.unbounded)
    && (forall k :: k in s.unbounded && k !in s.bounded
         ==> s.pruned.Some? && !Open(policy, s.unbounded[k], s.pruned.value))
  }

  /** The reading is not older than the last pruning. */
  predicate Current(s: Pair, c: Call) {
    s.pruned.Some? ==> s.pruned.value <= c.now
  }

  /** The unbounded limiter sees the calls that the full table did not turn away. */
  function Both(policy: Policy, s: Pair, c: Call): Pair {
    Pair(Bounded(policy, s.bounded, c.key, c.now).entries,
         if Full(policy, s.bounded, c.key, c.now) then s.unbounded
             else Unbounded(policy, s.unbounded, c.key, c.now).entries,
         if Prunes(policy, s.bounded, c.key) then Some(c.now) else s.pruned)
  }

  lemma PrunedSize(policy: Policy, entries: map<string, Entry>, now: Time)
    ensures |Pruned(policy, entries, now)| <= |entries|
  {
    var p := Pruned(policy, entries, now);
    assert |p| == |p.Keys| && |entries| == |entries.Keys|;
    SubsetSize(p.Keys, entries.Keys);
  }

  lemma OneMoreKey(entries: map<string, Entry>, key: string, e: Entry)
    ensures |entries[key := e]| == |entries| + if key in entries then 0 else 1
  {
    assert entries[key := e].Keys == entries.Keys + {key};
    assert |entries| == |entries.Keys|;
    assert key in entries ==> entries.Keys + {key} == entries.Keys;
  }

  lemma StaysWithin(policy: Policy, entries: map<string, Entry>, key: string, now: Time)
    requires |entries| <= policy.maxKeys
    ensures |Bounded(policy, entries, key, now).entries| <= policy.maxKeys
  {
    hide Pruned, Counted;
    PrunedSize(policy, entries, now);
    var roomy := Roomy(policy, entries, key, now);
    OneMoreKey(roomy, key, Counted(policy, roomy, key, now));
  }

  /** On what the two differ if they do: a key that the bounded table has dropped,
      whose window the reading finds open and used up. */
  predicate Forgotten(policy: Policy, bounded: map<string, Entry>, unbounded: map<string, Entry>, c: Call) {
    && c.key !in bounded && c.key in unbounded
    && Open(policy, unbounded[c.key], c.now) && policy.limit <= unbounded[c.key].count
  }

  /** The exact condition, for any reading of the clock: from tables that match, a
      call that is not turned away is decided alike unless its window is forgotten. */
  lemma DecidedAlike(policy: Policy, bounded: map<string, Entry>, unbounded: map<string, Entry>, c: Call)
    requires Sound(policy) && Matches(bounded, unbounded) && !Full(policy, bounded, c.key, c.now)
    ensures Bounded(policy, bounded, c.key, c.now).decision == Unbounded(policy, unbounded, c.key, c.now).decision
            <==> !Forgotten(policy, bounded, unbounded, c)
  {
    hide Pruned, Full;
    var roomy := Roomy(policy, bounded, c.key, c.now);
    assert c.key in bounded ==> roomy == bounded;
    assert c.key !in bounded ==> c.key !in roomy by { PrunedSelects(policy, bounded, c.now); }
  }

  lemma PrunedSelects(policy: Policy, entries: map<string, Entry>, now: Time)
    ensures forall k :: k in Pruned(policy, entries, now) <==> k in entries && Open(policy, entries[k], now)
    ensures forall k :: k in Pruned(policy, entries, now) ==> Pruned(policy, entries, now)[k] == entries[k]
  {
  }

  lemma SameCount(policy: Policy, s: Pair, c: Call)
    requires Agree(policy, s) && Current(s, c)
    ensures Counted(policy, Roomy(policy, s.bounded, c.key, c.now), c.key, c.now) ==
        Counted(policy, s.unbounded, c.key, c.now)
  {
  }

  lemma RoomyAgrees(policy: Policy, s: Pair, c: Call)
    requires Agree(policy, s) && Current(s, c)
    ensures var roomy := Roomy(policy, s.bounded, c.key, c.now);
            Matches(roomy, s.unbounded)
            && forall k :: k in s.unbounded && k !in roomy ==>
                 var pruned := Both(policy, s, c).pruned; pruned.Some? && !Open(policy, s.unbounded[k], pruned.value)
  {
    hide Bounded, Unbounded, Full;
  }

  lemma BothAgree(policy: Policy, s: Pair, c: Call)
    requires Agree(policy, s) && Current(s, c)
    ensures Agree(policy, Both(policy, s, c))
    ensures !Full(policy, s.bounded, c.key, c.now) ==>
              Bounded(policy, s.bounded, c.key, c.now).decision == Unbounded(policy, s.unbounded, c.key, c.now).decision
  {
    hide Full, Counted, Roomy, Open;
    StaysWithin(policy, s.bounded, c.key, c.now);
    SameCount(policy, s, c);
    RoomyAgrees(policy, s, c);
  }

  function AfterBoth(policy: Policy, s: Pair, calls: seq<Call>): Pair
    decreases |calls|
  {
    if calls == [] then s else AfterBoth(policy, Both(policy, s, calls[0]), calls[1..])
  }

  /** No reading is older than one at which the table pruned. Two readings may come
      in either order as long as no pruning lies between them. */
  predicate PrunesSettled(policy: Policy, s: Pair, calls: seq<Call>)
    decreases |calls|
  {
    calls == [] || (Current(s, calls[0]) && PrunesSettled(policy, Both(policy, s, calls[0]), calls[1..]))
  }

  lemma {:induction false} AgreeThroughout(policy: Policy, s: Pair, calls: seq<Call>)
    requires Agree(policy, s) && PrunesSettled(policy, s, calls)
    ensures Agree(policy, AfterBoth(policy, s, calls))
    decreases |calls|
  {
    hide Agree, Both, Current;
    if calls != [] {
      BothAgree(policy, s, calls[0]);
      AgreeThroughout(policy, Both(policy, s, calls[0]), calls[1..]);
    }
  }

  const IDLE: Pair := Pair(map[], map[], None)

  /** After any calls, the table holds at most maxKeys keys, and decides the next
      call as the unbounded limiter does unless the table is full. */
  lemma BoundedRefinesUnbounded(policy: Policy, calls: seq<Call>, next: Call)
    requires Sound(policy) && PrunesSettled(policy, IDLE, calls) && Current(AfterBoth(policy, IDLE, calls), next)
    ensures var s := AfterBoth(policy, IDLE, calls);
            && |s.bounded| <= policy.maxKeys
            && (Full(policy, s.bounded, next.key, next.now)
                || Bounded(policy, s.bounded, next.key, next.now).decision ==
                     Unbounded(policy, s.unbounded, next.key, next.now).decision)
  {
    hide Bounded, Unbounded, Full, Both, Current;
    AgreeThroughout(policy, IDLE, calls);
    BothAgree(policy, AfterBoth(policy, IDLE, calls), next);
  }

  predicate Ticking(clock: Time, calls: seq<Call>)
    decreases |calls|
  {
    calls == [] || (clock <= calls[0].now && Ticking(calls[0].now, calls[1..]))
  }

  /** A clock that does not step back is more than that asks. */
  lemma {:induction false} TickingSettles(policy: Policy, s: Pair, clock: Time, calls: seq<Call>)
    requires Ticking(clock, calls) && (s.pruned.Some? ==> s.pruned.value <= clock)
    ensures PrunesSettled(policy, s, calls)
    decreases |calls|
  {
    hide Bounded, Unbounded, Full;
    if calls != [] {
      TickingSettles(policy, Both(policy, s, calls[0]), calls[0].now, calls[1..]);
    }
  }

  lemma {:induction false} SettledSplits(policy: Policy, s: Pair, calls: seq<Call>, last: Call)
    requires PrunesSettled(policy, s, calls + [last])
    ensures PrunesSettled(policy, s, calls) && Current(AfterBoth(policy, s, calls), last)
    decreases |calls|
  {
    hide Both, Current;
    var all := calls + [last];
    if calls == [] {
      assert all[0] == last;
    } else {
      assert all[0] == calls[0] && all[1..] == calls[1..] + [last];
      SettledSplits(policy, Both(policy, s, calls[0]), calls[1..], last);
    }
  }

  /** So on such a clock every call is decided alike unless the table is full. */
  lemma SteadyClockRefines(policy: Policy, start: Time, calls: seq<Call>, next: Call)
    requires Sound(policy) && Ticking(start, calls + [next])
    ensures var s := AfterBoth(policy, IDLE, calls);
            Full(policy, s.bounded, next.key, next.now)
            || Bounded(policy, s.bounded, next.key, next.now).decision
               == Unbounded(policy, s.unbounded, next.key, next.now).decision
  {
    hide Bounded, Unbounded, Full, Both, Current, AfterBoth, PrunesSettled;
    TickingSettles(policy, IDLE, start, calls + [next]);
    SettledSplits(policy, IDLE, calls, next);
    BoundedRefinesUnbounded(policy, calls, next);
  }

  /** A reading from before a pruning (the source reads the clock before it locks)
      can find a window open that the full table has forgotten. */
  lemma ClockMustNotStepBack()
    ensures var policy := Policy(1, 10, 2);
            var s := AfterBoth(policy, IDLE, [Call("a", 10), Call("b", 10), Call("c", 30)]);
            && Matches(s.bounded, s.unbounded) && !Full(policy, s.bounded, "a", 19)
            && Forgotten(policy, s.bounded, s.unbounded, Call("a", 19))
            && Bounded(policy, s.bounded, "a", 19).decision == Decision(true, 0)
            && Unbounded(policy, s.unbounded, "a", 19).decision == Decision(false, 1)
  {
    var policy := Policy(1, 10, 2);
    var s1 := Both(policy, IDLE, Call("a", 10));
    assert s1.bounded == map["a" := Entry(10, 1)] && s1.unbounded == map["a" := Entry(10, 1)];
    var s2 := Both(policy, s1, Call("b", 10));
    var two := map["a" := Entry(10, 1), "b" := Entry(10, 1)];
    assert s2.bounded == two && s2.unbounded == two;
    assert two.Keys == {"a", "b"} && |two| == |two.Keys|;
    var s3 := Both(policy, s2, Call("c", 30));
    assert Pruned(policy, two, 30) == map[];
    assert s3.bounded == map["c" := Entry(30, 1)];
    assert s3.unbounded == two["c" := Entry(30, 1)];
    assert [Call("a", 10), Call("b", 10), Call("c", 30)][1..] == [Call("b", 10), Call("c", 30)];
    assert [Call("b", 10), Call("c", 30)][1..] == [Call("c", 30)];
    assert AfterBoth(policy, s2, [Call("c", 30)]) == AfterBoth(policy, s3, []);
    assert |s3.bounded| == |s3.bounded.Keys| == 1;
  }

  // ---------------------------------------------------------------------
  // How many calls get through

  /** An admission, with the start of the window that it was counted in. */
  datatype Admission = Admission(key: string, at: Time, started: Time)

  /** The entries of a limiter, and all that it has admitted. */
  datatype Book = Book(entries: map<string, Entry>, admitted: seq<Admission>)

  /** The limiter as it is. */
  function Serve(policy: Policy, b: Book, c: Call): Book {
    var r := Bounded(policy, b.entries, c.key, c.now);
    Book(r.entries, if r.decision.allowed then b.admitted + [Admission(c.key, c.now, r.entries[c.key].started)]
        else b.admitted)
  }

  /** The limiter with room for every key, by which it is judged. */
  function ServeUnbounded(policy: Policy, b: Book, c: Call): Book {
    var r := Unbounded(policy, b.entries, c.key, c.now);
    Book(r.entries, if r.decision.allowed then b.admitted + [Admission(c.key, c.now, r.entries[c.key].started)]
        else b.admitted)
  }

  function Count(admitted: seq<Admission>, key: string, started: Time): nat {
    if admitted == [] then 0
    else
      var last := admitted[|admitted| - 1];
      Count(admitted[..|admitted| - 1], key, started) + if last.key == key && last.started == started then 1 else 0
  }

  /** The windows of one key follow each other without overlap. */
  predicate Consecutive(policy: Policy, earlier: Admission, later: Admission) {
    earlier.key == later.key ==>
      earlier.at <= later.at && (earlier.started == later.started || earlier.started + policy.window <= later.started)
  }

  predicate Within(policy: Policy, a: Admission, entries: map<string, Entry>, clock: Time) {
    && a.started <= a.at < a.started + policy.window && a.at <= clock
    && a.key in entries
    && (a.started == entries[a.key].started || a.started + policy.window <= entries[a.key].started)
  }

  ghost predicate BookOk(policy: Policy, b: Book, clock: Time) {
    && (forall i :: 0 <= i < |b.admitted| ==> Within(policy, b.admitted[i], b.entries, clock))
    && (forall i, j :: 0 <= i < j < |b.admitted| ==> Consecutive(policy, b.admitted[i], b.admitted[j]))
    && (forall k :: k in b.entries ==> b.entries[k].started <= clock)
    && (forall k :: k in b.entries ==> Count(b.admitted, k, b.entries[k].started) <= b.entries[k].count)
    && (forall k, s :: Count(b.admitted, k, s) <= policy.limit)
  }

  lemma CountOneMore(admitted: seq<Admission>, a: Admission, key: string, started: Time)
    ensures Count(admitted + [a], key, started) == Count(admitted, key, started) + if a.key == key
        && a.started == started then 1 else 0
  {
    assert (admitted + [a])[..|admitted|] == admitted;
  }

  lemma {:induction false} NoneCounted(admitted: seq<Admission>, key: string, started: Time)
    requires forall i :: 0 <= i < |admitted| && admitted[i].key == key ==> admitted[i].started != started
    ensures Count(admitted, key, started) == 0
    decreases |admitted|
  {
    if admitted != [] {
      NoneCounted(admitted[..|admitted| - 1], key, started);
    }
  }

  /** The count of the entry is at least that of the window's admissions, also when
      the window is a new one. */
  lemma CountedCovers(policy: Policy, b: Book, c: Call, clock: Time)
    requires Sound(policy) && BookOk(policy, b, clock) && clock <= c.now
    ensures var e := Counted(policy, b.entries, c.key, c.now);
            && Count(b.admitted, c.key, e.started) + 1 <= e.count
            && e.started <= c.now < e.started + policy.window
            && (c.key in b.entries && e.started != b.entries[c.key].started ==>
                 b.entries[c.key].started + policy.window <= e.started)
  {
    var e := Counted(policy, b.entries, c.key, c.now);
    if c.key in b.entries && Open(policy, b.entries[c.key], c.now) {
    } else {
      forall i | 0 <= i < |b.admitted| && b.admitted[i].key == c.key ensures b.admitted[i].started != e.started {
        assert Within(policy, b.admitted[i], b.entries, clock);
      }
      NoneCounted(b.admitted, c.key, e.started);
    }
  }

  lemma WithinLater(policy: Policy, b: Book, c: Call, clock: Time, a: Admission)
    requires Sound(policy) && BookOk(policy, b, clock) && clock <= c.now && Within(policy, a, b.entries, clock)
    ensures Within(policy, a, b.entries[c.key := Counted(policy, b.entries, c.key, c.now)], c.now)
    ensures a.key == c.key ==>
              Consecutive(policy, a, Admission(c.key, c.now, Counted(policy, b.entries, c.key, c.now).started))
  {
    hide BookOk, Counted;
    CountedCovers(policy, b, c, clock);
  }

  lemma ServeKeeps(policy: Policy, b: Book, c: Call, clock: Time)
    requires Sound(policy) && BookOk(policy, b, clock) && clock <= c.now
    ensures BookOk(policy, ServeUnbounded(policy, b, c), c.now)
  {
    hide Counted, Within, Consecutive;
    CountedCovers(policy, b, c, clock);
    var e := Counted(policy, b.entries, c.key, c.now);
    var b' := ServeUnbounded(policy, b, c);
    var a := Admission(c.key, c.now, e.started);
    forall i | 0 <= i < |b.admitted| ensures Within(policy, b.admitted[i], b'.entries, c.now)
        && Consecutive(policy, b.admitted[i], a) {
      WithinLater(policy, b, c, clock, b.admitted[i]);
      OtherKeys(policy, b.admitted[i], a);
    }
    NewWithin(policy, b, c, clock);
    forall k, s ensures Count(b'.admitted, k, s) == Count(b.admitted, k, s) + if b'.admitted != b.admitted && k == c.key
        && s == e.started then 1 else 0 {
      CountOneMore(b.admitted, a, k, s);
    }
  }

  lemma OtherKeys(policy: Policy, a: Admission, b: Admission)
    ensures a.key != b.key ==> Consecutive(policy, a, b)
  {
  }

  lemma NewWithin(policy: Policy, b: Book, c: Call, clock: Time)
    requires Sound(policy) && BookOk(policy, b, clock) && clock <= c.now
    ensures var e := Counted(policy, b.entries, c.key, c.now);
            Within(policy, Admission(c.key, c.now, e.started), b.entries[c.key := e], c.now)
  {
    hide BookOk, Counted;
    CountedCovers(policy, b, c, clock);
  }

  function Served(policy: Policy, b: Book, calls: seq<Call>): Book
    decreases |calls|
  {
    if calls == [] then b else Served(policy, Serve(policy, b, calls[0]), calls[1..])
  }

  lemma BookOkLater(policy: Policy, b: Book, clock: Time, later: Time)
    requires BookOk(policy, b, clock) && clock <= later
    ensures BookOk(policy, b, later)
  {
    forall i | 0 <= i < |b.admitted| ensures Within(policy, b.admitted[i], b.entries, later) {
      assert Within(policy, b.admitted[i], b.entries, clock);
    }
  }

  /** The unbounded book `u` has admitted the same, and knows every key of `b`. */
  ghost predicate Shadows(policy: Policy, b: Book, u: Book, clock: Time) {
    && u.admitted == b.admitted && BookOk(policy, u, clock)
    && |b.entries| <= policy.maxKeys && Matches(b.entries, u.entries)
    && (forall k :: k in u.entries && k !in b.entries ==> !Open(policy, u.entries[k], clock))
  }

  lemma ShadowsAgree(policy: Policy, b: Book, u: Book, c: Call, clock: Time)
    requires Shadows(policy, b, u, clock) && clock <= c.now
    ensures var s := Pair(b.entries, u.entries, Some(c.now)); Agree(policy, s) && Current(s, c)
  {
    hide BookOk;
  }

  lemma AllowedEntry(policy: Policy, entries: map<string, Entry>, c: Call)
    ensures var r := Bounded(policy, entries, c.key, c.now);
            if Full(policy, entries, c.key, c.now) then !r.decision.allowed
            else c.key in r.entries && r.entries[c.key] == Counted(policy, Roomy(policy, entries, c.key, c.now),
                c.key, c.now)
  {
  }

  lemma ServeShadowed(policy: Policy, b: Book, u: Book, c: Call, clock: Time) returns (u': Book)
    requires Sound(policy) && Shadows(policy, b, u, clock) && clock <= c.now
    ensures Shadows(policy, Serve(policy, b, c), u', c.now)
  {
    ShadowsAgree(policy, b, u, c, clock);
    hide BookOk, Counted, Roomy, Full;
    var s := Pair(b.entries, u.entries, Some(c.now));
    BothAgree(policy, s, c);
    SameCount(policy, s, c);
    AllowedEntry(policy, b.entries, c);
    if Full(policy, b.entries, c.key, c.now) {
      BookOkLater(policy, u, clock, c.now);
      u' := u;
    } else {
      ServeKeeps(policy, u, c, clock);
      u' := ServeUnbounded(policy, u, c);
    }
  }

  lemma {:induction false} ServedShadowed(policy: Policy, b: Book, u: Book, clock: Time, calls: seq<Call>)
      returns (u': Book, end: Time)
    requires Sound(policy) && Shadows(policy, b, u, clock) && Ticking(clock, calls)
    ensures Shadows(policy, Served(policy, b, calls), u', end)
    decreases |calls|
  {
    hide Shadows, Serve;
    u', end := u, clock;
    if calls != [] {
      u' := ServeShadowed(policy, b, u, calls[0], clock);
      u', end := ServedShadowed(policy, Serve(policy, b, calls[0]), u', calls[0].now, calls[1..]);
    }
  }

  /** The admissions of a key in the interval that starts at `from`, one window long. */
  function During(policy: Policy, admitted: seq<Admission>, key: string, from: Time): seq<Admission> {
    if admitted == [] then []
    else
      var last := admitted[|admitted| - 1];
      During(policy, admitted[..|admitted| - 1], key, from)
      + if last.key == key && from <= last.at < from + policy.window then [last] else []
  }

  /** They stem from at most two windows, those of the first and of the last. */
  lemma {:induction false} DuringTwoWindows(policy: Policy, admitted: seq<Admission>, key: string, from: Time,
      first: Time, last: Time)
    requires forall i :: 0 <= i < |admitted| ==> InEither(policy, admitted[i], key, from, first, last)
    ensures |During(policy, admitted, key, from)| <= Count(admitted, key, first) + Count(admitted, key, last)
    decreases |admitted|
  {
    if admitted != [] {
      var n := |admitted| - 1;
      DuringTwoWindows(policy, admitted[..n], key, from, first, last);
      assert InEither(policy, admitted[n], key, from, first, last);
    }
  }

  predicate InEither(policy: Policy, a: Admission, key: string, from: Time, first: Time, last: Time) {
    a.key == key && from <= a.at < from + policy.window ==> a.started == first || a.started == last
  }

  predicate IsDuring(policy: Policy, a: Admission, key: string, from: Time) {
    a.key == key && from <= a.at < from + policy.window
  }

  lemma Between(policy: Policy, admitted: seq<Admission>, key: string, from: Time, f: nat, i: nat, l: nat)
    requires f <= i <= l < |admitted|
    requires forall i :: 0 <= i < |admitted| ==>
        admitted[i].started <= admitted[i].at < admitted[i].started + policy.window
    requires forall i, j :: 0 <= i < j < |admitted| ==> Consecutive(policy, admitted[i], admitted[j])
    requires IsDuring(policy, admitted[f], key, from) && IsDuring(policy, admitted[i], key, from)
        && IsDuring(policy, admitted[l], key, from)
    ensures admitted[i].started == admitted[f].started || admitted[i].started == admitted[l].started
  {
    assert f < i ==> Consecutive(policy, admitted[f], admitted[i]);
    assert i < l ==> Consecutive(policy, admitted[i], admitted[l]);
  }

  lemma {:induction false} FirstAndLast(policy: Policy, admitted: seq<Admission>, key: string, from: Time)
      returns (f: nat, l: nat)
    requires exists i :: 0 <= i < |admitted| && IsDuring(policy, admitted[i], key, from)
    ensures f <= l < |admitted| && IsDuring(policy, admitted[f], key, from) && IsDuring(policy, admitted[l], key, from)
    ensures forall i :: 0 <= i < |admitted| && IsDuring(policy, admitted[i], key, from) ==> f <= i <= l
    decreases |admitted|
  {
    var n := |admitted| - 1;
    var init := admitted[..n];
    if exists i :: 0 <= i < |init| && IsDuring(policy, init[i], key, from) {
      f, l := FirstAndLast(policy, init, key, from);
      assert init[f] == admitted[f] && init[l] == admitted[l];
      assert forall i :: 0 <= i < n ==> init[i] == admitted[i];
      if IsDuring(policy, admitted[n], key, from) {
        l := n;
      }
    } else {
      assert forall i :: 0 <= i < n ==> admitted[i] == init[i];
      f, l := n, n;
    }
  }

  lemma {:induction false} NoneDuring(policy: Policy, admitted: seq<Admission>, key: string, from: Time)
    requires forall i :: 0 <= i < |admitted| ==> !IsDuring(policy, admitted[i], key, from)
    ensures During(policy, admitted, key, from) == []
    decreases |admitted|
  {
    if admitted != [] {
      var n := |admitted| - 1;
      NoneDuring(policy, admitted[..n], key, from);
      assert !IsDuring(policy, admitted[n], key, from);
    }
  }

  lemma BookIsBounded(policy: Policy, b: Book, clock: Time, key: string, from: Time)
    requires Sound(policy) && BookOk(policy, b, clock)
    ensures forall s :: Count(b.admitted, key, s) <= policy.limit
    ensures |During(policy, b.admitted, key, from)| <= 2 * policy.limit
  {
    hide Within;
    var a := b.admitted;
    if exists i :: 0 <= i < |a| && IsDuring(policy, a[i], key, from) {
      var f, l := FirstAndLast(policy, a, key, from);
      forall i | 0 <= i < |a| ensures a[i].started <= a[i].at < a[i].started + policy.window {
        assert Within(policy, a[i], b.entries, clock);
        WithinMeans(policy, a[i], b.entries, clock);
      }
      forall i | 0 <= i < |a| ensures InEither(policy, a[i], key, from, a[f].started, a[l].started) {
        if IsDuring(policy, a[i], key, from) {
          Between(policy, a, key, from, f, i, l);
        }
      }
      DuringTwoWindows(policy, a, key, from, a[f].started, a[l].started);
    } else {
      NoneDuring(policy, a, key, from);
    }
  }

  /** In every run of the limiter as it is, on a clock that does not step back, a key
      gets at most the limit in each of its windows, and at most twice the limit in
      any interval as long as a window; and no more than maxKeys keys are held. */
  lemma AdmissionsAreBounded(policy: Policy, start: Time, calls: seq<Call>, key: string, from: Time)
    requires Sound(policy) && Ticking(start, calls)
    ensures var b := Served(policy, Book(map[], []), calls);
            && (forall s :: Count(b.admitted, key, s) <= policy.limit)
            && |During(policy, b.admitted, key, from)| <= 2 * policy.limit
            && |b.entries| <= policy.maxKeys
  {
    var b0 := Book(map[], []);
    assert Shadows(policy, b0, b0, start);
    var u, end := ServedShadowed(policy, b0, b0, start, calls);
    hide BookOk, Served;
    BookIsBounded(policy, u, end, key, from);
  }

  lemma WithinMeans(policy: Policy, a: Admission, entries: map<string, Entry>, clock: Time)
    requires Within(policy, a, entries, clock)
    ensures a.started <= a.at < a.started + policy.window
  {
  }

  // ---------------------------------------------------------------------
  // How long to wait

  function AfterCalls(policy: Policy, entries: map<string, Entry>, calls: seq<Call>): map<string, Entry>
    decreases |calls|
  {
    if calls == [] then entries
        else AfterCalls(policy, Bounded(policy, entries, calls[0].key, calls[0].now).entries, calls[1..])
  }

  /** The key has used up the window that closes at `until`. */
  predicate Exhausted(policy: Policy, entries: map<string, Entry>, key: string, until: Time) {
    key in entries && entries[key].started + policy.window == until && policy.limit <= entries[key].count
  }

  /** No call before that time, of whatever key, frees or forgets the window. */
  lemma ExhaustedStays(policy: Policy, entries: map<string, Entry>, key: string, until: Time, c: Call)
    requires Exhausted(policy, entries, key, until) && c.now < until
    ensures Exhausted(policy, Bounded(policy, entries, c.key, c.now).entries, key, until)
  {
    hide Full;
  }

  lemma {:induction false} ExhaustedThroughout(policy: Policy, entries: map<string, Entry>, key: string, until: Time,
      calls: seq<Call>)
    requires Exhausted(policy, entries, key, until) && forall i :: 0 <= i < |calls| ==> calls[i].now < until
    ensures Exhausted(policy, AfterCalls(policy, entries, calls), key, until)
    decreases |calls|
  {
    hide Exhausted, Bounded;
    if calls != [] {
      ExhaustedStays(policy, entries, key, until, calls[0]);
      ExhaustedThroughout(policy, Bounded(policy, entries, calls[0].key, calls[0].now).entries, key, until, calls[1..]);
    }
  }

  /** A call of the key is then denied, with the time that is left, or admitted as
      the first of its next window. */
  lemma ExhaustedDecides(policy: Policy, entries: map<string, Entry>, key: string, until: Time, at: Time)
    requires Sound(policy) && Exhausted(policy, entries, key, until)
    ensures Bounded(policy, entries, key, at).decision == if at < until then Decision(false, until - at)
        else Decision(true, 0)
  {
  }

  lemma DeniedIsExhausted(policy: Policy, entries: map<string, Entry>, key: string, now: Time)
    requires Sound(policy) && !Full(policy, entries, key, now) && !Bounded(policy, entries, key, now).decision.allowed
    ensures var denied := Bounded(policy, entries, key, now);
            0 < denied.decision.retryAfter && Exhausted(policy, denied.entries, key, now + denied.decision.retryAfter)
    ensures key in entries && (entries[key].started <= now
        ==> Bounded(policy, entries, key, now).decision.retryAfter <= policy.window)
  {
  }

  /** After a denial that is not for a full table, and any calls of any keys before
      the time that the reply names, a call of the key is denied before that time,
      and told the rest of the wait, and admitted from that time on. */
  lemma RetryAfterIsExact(policy: Policy, entries: map<string, Entry>, key: string, now: Time,
      calls: seq<Call>, at: Time)
    requires Sound(policy) && !Full(policy, entries, key, now) && !Bounded(policy, entries, key, now).decision.allowed
    requires var until := now + Bounded(policy, entries, key, now).decision.retryAfter;
             forall i :: 0 <= i < |calls| ==> calls[i].now < until
    ensures var denied := Bounded(policy, entries, key, now);
            var until := now + denied.decision.retryAfter;
            && now < until
            && key in entries && (entries[key].started <= now ==> until <= now + policy.window)
            && Bounded(policy, AfterCalls(policy, denied.entries, calls), key, at).decision ==
               if at < until then Decision(false, until - at) else Decision(true, 0)
  {
    hide Bounded, Full, Exhausted, AfterCalls;
    DeniedIsExhausted(policy, entries, key, now);
    var denied := Bounded(policy, entries, key, now);
    var until := now + denied.decision.retryAfter;
    ExhaustedThroughout(policy, denied.entries, key, until, calls);
    ExhaustedDecides(policy, AfterCalls(policy, denied.entries, calls), key, until, at);
  }

  // ---------------------------------------------------------------------
  // Keys of principals

  function PrincipalKey(user: string, role: string): string {
    user + (":" + role)
  }

  /** A call that a full table turns away is told to wait a window. After that, if
      nobody called from the future, there is room, and it is admitted. */
  lemma FullForOneWindow(policy: Policy, entries: map<string, Entry>, key: string, now: Time, at: Time)
    requires Sound(policy) && now + policy.window <= at
    requires key !in entries && |Pruned(policy, entries, now)| >= policy.maxKeys
    requires forall k :: k in entries ==> entries[k].started <= now
    ensures Bounded(policy, entries, key, now).decision == Decision(false, policy.window)
    ensures Bounded(policy, Bounded(policy, entries, key, now).entries, key, at).decision == Decision(true, 0)
  {
    var open := Pruned(policy, entries, now);
    FewerOpen(policy, entries, now);
    assert Pruned(policy, open, at) == map[];
  }

  lemma FewerOpen(policy: Policy, entries: map<string, Entry>, now: Time)
    ensures |Pruned(policy, entries, now)| <= |entries|
  {
    var open := Pruned(policy, entries, now);
    assert open.Keys <= entries.Keys;
    SubsetSize(open.Keys, entries.Keys);
  }

  predicate ColonFree(s: string) {
    forall i :: 0 <= i < |s| ==> s[i] != ':'
  }

  /** Principals have keys of their own as long as roles hold no colon. */
  lemma PrincipalKeyInjective(user: string, role: string, user': string, role': string)
    requires ColonFree(role) && ColonFree(role') && PrincipalKey(user, role) == PrincipalKey(user', role')
    ensures user == user' && role == role'
  {
    LastColon(user, role);
    LastColon(user', role');
    var key := PrincipalKey(user, role);
    assert user == key[..|user|] && user' == key[..|user'|];
    assert role == key[|user| + 1..] && role' == key[|user'| + 1..];
  }

  lemma LastColon(user: string, role: string)
    requires ColonFree(role)
    ensures var key := PrincipalKey(user, role);
            key[|user|] == ':' && forall i :: |user| < i < |key| ==> key[i] != ':'
  {
  }

  predicate EndsIn(s: string, tail: string) {
    |tail| <= |s| && s[|s| - |tail|..] == tail
  }

  predicate Collide(user: string, role: string, user': string, role': string) {
    (user != user' || role != role') && PrincipalKey(user, role) == PrincipalKey(user', role')
  }

  /** In general two roles give some two principals one key exactly if one role ends
      in a colon and the other: a user "a" with role "b:c" is a user "a:b" with role "c". */
  lemma RolesCollideExactly(role: string, role': string)
    ensures (exists user, user' :: Collide(user, role, user', role'))
            <==> EndsIn(role', ":" + role) || EndsIn(role, ":" + role')
  {
    if user, user' :| Collide(user, role, user', role') {
      if |role| < |role'| {
        ShorterRoleEnds(user, role, user', role');
      } else if |role'| < |role| {
        ShorterRoleEnds(user', role', user, role);
      } else {
        SameRoleSameUser(user, role, user', role');
      }
    }
    if EndsIn(role', ":" + role) {
      SuffixCollides(role, role');
    }
    if EndsIn(role, ":" + role') {
      SuffixCollides(role', role);
      var user, user' :| Collide(user', role', user, role);
      assert Collide(user, role, user', role');
    }
  }

  lemma ShorterRoleEnds(user: string, role: string, user': string, role': string)
    requires |role| < |role'| && PrincipalKey(user, role) == PrincipalKey(user', role')
    ensures EndsIn(role', ":" + role)
  {
    var key := PrincipalKey(user, role);
    assert key[|user|..] == ":" + role;
    assert role' == key[|user'| + 1..];
    assert role'[|role'| - |role| - 1..] == key[|user|..];
  }

  lemma SameRoleSameUser(user: string, role: string, user': string, role': string)
    requires |role| == |role'| && PrincipalKey(user, role) == PrincipalKey(user', role')
    ensures user == user' && role == role'
  {
    var key := PrincipalKey(user, role);
    assert user == key[..|user|] && user' == key[..|user'|];
    assert role == key[|user| + 1..] && role' == key[|user'| + 1..];
  }

  lemma SuffixCollides(role: string, role': string)
    requires EndsIn(role', ":" + role)
    ensures exists user, user' :: Collide(user, role, user', role')
  {
    var rest := role'[..|role'| - |role| - 1];
    assert role' == rest + (":" + role);
    assert PrincipalKey(":" + rest, role) == PrincipalKey("", role');
    assert Collide(":" + rest, role, "", role');
  }

  // ---------------------------------------------------------------------
  // The object

  class PrincipalRateLimiter {
    const policy: Policy
    var entries: map<string, Entry>

    constructor (policy: Policy)
      requires Sound(policy)
      ensures this.policy == policy && entries == map[]
    {
      this.policy := policy;
      entries := map[];
    }

    method Allow(user: string, role: string, now: Time) returns (decision: Decision)
      modifies this
      ensures user == "" || role == "" ==> entries == old(entries) && decision == Decision(false, policy.window)
      ensures user != "" && role != "" ==>
                Outcome(entries, decision) == Bounded(policy, old(entries), PrincipalKey(user, role), now)
    {
      if user == "" || role == "" {
        return Decision(false, policy.window);
      }
      decision := AllowKey(PrincipalKey(user, role), now);
    }

    method AllowKey(key: string, now: Time) returns (decision: Decision)
      modifies this
      ensures Outcome(entries, decision) == Bounded(policy, old(entries), key, now)
    {
      var known := key in entries;
      if !known && |entries| >= policy.maxKeys {
        PruneClosed(now);
      }
      if !known && |entries| >= policy.maxKeys {
        return Decision(false, policy.window);
      }
      var entry := Entry(now, 0);
      if known && now - entries[key].started < policy.window {
        entry := entries[key];
      }
      entry := entry.(count := entry.count + 1);
      entries := entries[key := entry];
      if entry.count > policy.limit {
        return Decision(false, RemainingWindow(now, entry.started, policy.window));
      }
      return Decision(true, 0);
    }

    method PruneClosed(now: Time)
      modifies this
      ensures entries == Pruned(policy, old(entries), now)
    {
      var todo := entries.Keys;
      ghost var before := entries;
      while todo != {}
        invariant todo <= entries.Keys <= before.Keys
        invariant forall k :: k in entries ==> entries[k] == before[k]
        invariant forall k :: k in before && k !in todo ==> (k in entries <==> Open(policy, before[k], now))
        decreases |todo|
      {
        var k :| k in todo;
        todo := todo - {k};
        if now - entries[k].started >= policy.window {
          entries := entries - {k};
        }
      }
    }
  }
}
