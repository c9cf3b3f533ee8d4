/**
 The plain cache that the answer cache is: a table from classes of questions to
 entries, each stamped with its last use. Expired entries go first, and when the
 table is full the entry with the oldest stamp does.
 */
module LeastRecentlyUsed {
  import opened Prelude
  import opened Fingerprints
  import Output
  import opened AnswerCache
  import opened AnswerCacheRuns

  datatype Used = Used(entry: Entry, at: nat)

  /** Stamps are drawn from `tick`. */
  datatype Table = Table(slots: map<Class, Used>, tick: nat)

  const NEW: Table := Table(map[], 0)

  predicate IsOldest(slots: map<Class, Used>, among: set<Class>, c: Class) {
    c in among && c in slots && forall d :: d in among && d in slots ==> slots[c].at <= slots[d].at
  }

  function Unexpired(env: Setting, slots: map<Class, Used>, now: Time): map<Class, Used> {
    map c | c in slots && Live(env, slots[c].entry, now) :: slots[c]
  }

  function Hits(env: Setting, slots: map<Class, Used>, call: Call): set<Class> {
    set c | c in slots && Verdict(env, slots[c].entry, KeyFor(env, call), MatchOf(env, call),
        EvidenceFor(env, call)) == Hit
  }

  /** A lookup takes the oldest of the entries that hit, and stamps it. */
  predicate TableLookup(env: Setting, t: Table, now: Time, call: Call, t': Table, found: Option<Entry>) {
    if !Cacheable(env, call) then t' == t && found == None
    else
      var slots := Unexpired(env, t.slots, now);
      var hits := Hits(env, slots, call);
      if found.None? then hits == {} && t' == Table(slots, t.tick)
      else
        var c := ClassOf(found.value);
        IsOldest(slots, hits, c) && slots[c].entry == found.value
            && t' == Table(slots[c := Used(found.value, t.tick)], t.tick + 1)
  }

  /** A store replaces the entry of its class; a new class in a full table costs
      the oldest entry. */
  ghost predicate TableAdmit(env: Setting, t: Table, e: Entry, t': Table) {
    var slots := Unexpired(env, t.slots, e.created);
    var kept := t'.slots - {ClassOf(e)};
    && t' == Table(kept[ClassOf(e) := Used(e, t.tick)], t.tick + 1)
    && (if ClassOf(e) in slots || |slots| < env.policy.capacity then kept == slots - {ClassOf(e)}
        else exists c :: IsOldest(slots, slots.Keys, c) && kept == slots - {c})
  }

  // ---------------------------------------------------------------------
  // The relation

  /** The list holds the table's entries, the longest unused one first. */
  predicate Ordered(entries: seq<Entry>, slots: map<Class, Used>) {
    && (forall i :: 0 <= i < |entries|
         ==> ClassOf(entries[i]) in slots && slots[ClassOf(entries[i])].entry == entries[i])
    && (forall i, j :: 0 <= i < j < |entries| ==>
          ClassOf(entries[i]) in slots && ClassOf(entries[j]) in slots
              && slots[ClassOf(entries[i])].at < slots[ClassOf(entries[j])].at)
  }

  function Classes(entries: seq<Entry>): set<Class> {
    set i | 0 <= i < |entries| :: ClassOf(entries[i])
  }

  predicate Refines(entries: seq<Entry>, t: Table) {
    && Ordered(entries, t.slots)
    && t.slots.Keys == Classes(entries)
    && (forall c :: c in t.slots ==> t.slots[c].at < t.tick)
  }

  lemma {:induction false} DistinctClasses(entries: seq<Entry>, slots: map<Class, Used>)
    requires Ordered(entries, slots)
    ensures |Classes(entries)| == |entries|
    decreases |entries|
  {
    if entries != [] {
      var n := |entries| - 1;
      DistinctClasses(entries[..n], slots);
      assert Classes(entries) == Classes(entries[..n]) + {ClassOf(entries[n])};
      assert ClassOf(entries[n]) !in Classes(entries[..n]);
    }
  }

  lemma RefinesSize(entries: seq<Entry>, t: Table)
    requires Refines(entries, t)
    ensures |t.slots| == |entries|
  {
    DistinctClasses(entries, t.slots);
    assert |t.slots| == |t.slots.Keys|;
  }

  lemma OrderedTail(entries: seq<Entry>, slots: map<Class, Used>)
    requires Ordered(entries, slots) && entries != []
    ensures Ordered(entries[1..], slots)
  {
    var tail := entries[1..];
    assert forall i :: 0 <= i < |tail| ==> tail[i] == entries[i + 1];
  }

  lemma ConsOrdered(e: Entry, rest: seq<Entry>, slots: map<Class, Used>)
    requires Ordered(rest, slots) && ClassOf(e) in slots && slots[ClassOf(e)].entry == e
    requires forall j :: 0 <= j < |rest| ==>
               ClassOf(rest[j]) in slots && slots[ClassOf(e)].at < slots[ClassOf(rest[j])].at
    ensures Ordered([e] + rest, slots)
  {
    hide ClassOf;
    var all := [e] + rest;
    assert forall i :: 0 < i < |all| ==> all[i] == rest[i - 1];
  }

  lemma FirstIsBefore(entries: seq<Entry>, slots: map<Class, Used>, e: Entry)
    requires Ordered(entries, slots) && entries != [] && e in entries[1..]
    ensures ClassOf(e) in slots && slots[ClassOf(entries[0])].at < slots[ClassOf(e)].at
  {
    hide ClassOf;
    var k :| 0 <= k < |entries[1..]| && entries[1..][k] == e;
    assert entries[k + 1] == e;
  }

  lemma {:induction false} PruneOrdered(env: Setting, entries: seq<Entry>, slots: map<Class, Used>, now: Time)
    requires Ordered(entries, slots)
    ensures Ordered(Prune(env, entries, now), slots)
    decreases |entries|
  {
    hide Live, ClassOf;
    if entries != [] {
      OrderedTail(entries, slots);
      PruneOrdered(env, entries[1..], slots, now);
      PruneSelects(env, entries[1..], now);
      var rest := Prune(env, entries[1..], now);
      forall j | 0 <= j < |rest|
        ensures ClassOf(rest[j]) in slots && slots[ClassOf(entries[0])].at < slots[ClassOf(rest[j])].at
      {
        FirstIsBefore(entries, slots, rest[j]);
      }
      ConsOrdered(entries[0], rest, slots);
    }
  }

  /** The classes of the live entries are those of the unexpired slots. */
  lemma UnexpiredClasses(env: Setting, entries: seq<Entry>, live: seq<Entry>, t: Table, now: Time)
    requires Refines(entries, t)
    requires forall e :: e in live <==> e in entries && Live(env, e, now)
    ensures Unexpired(env, t.slots, now).Keys == Classes(live)
  {
    hide Live, ClassOf;
    var slots := Unexpired(env, t.slots, now);
    forall i | 0 <= i < |live| ensures ClassOf(live[i]) in slots {
      assert live[i] in live;
      var k :| 0 <= k < |entries| && entries[k] == live[i];
    }
    forall c | c in slots ensures c in Classes(live) {
      var i :| 0 <= i < |entries| && ClassOf(entries[i]) == c;
      assert entries[i] in live;
      var j :| 0 <= j < |live| && live[j] == entries[i];
    }
  }

  lemma UnexpiredOrdered(env: Setting, live: seq<Entry>, slots: map<Class, Used>, now: Time)
    requires Ordered(live, slots) && forall e :: e in live ==> Live(env, e, now)
    ensures Ordered(live, Unexpired(env, slots, now))
  {
    hide Live, ClassOf;
    forall i | 0 <= i < |live| ensures ClassOf(live[i]) in Unexpired(env, slots, now) {
      assert live[i] in live;
    }
  }

  lemma UnexpiredStamps(env: Setting, t: Table, now: Time)
    requires forall c :: c in t.slots ==> t.slots[c].at < t.tick
    ensures forall c :: c in Unexpired(env, t.slots, now) ==> Unexpired(env, t.slots, now)[c].at < t.tick
  {
    hide Live;
  }

  lemma PruneRefines(env: Setting, entries: seq<Entry>, t: Table, now: Time)
    requires Refines(entries, t)
    ensures Refines(Prune(env, entries, now), Table(Unexpired(env, t.slots, now), t.tick))
  {
    hide Live, Prune, Ordered, Classes, Unexpired;
    var live := Prune(env, entries, now);
    PruneOrdered(env, entries, t.slots, now);
    PruneSelects(env, entries, now);
    UnexpiredClasses(env, entries, live, t, now);
    UnexpiredOrdered(env, live, t.slots, now);
    UnexpiredStamps(env, t, now);
  }

  /** `moved` is `entries` without the entry at `i`, and `e` behind it. */
  predicate MovedToEnd(entries: seq<Entry>, i: nat, e: Entry, moved: seq<Entry>) {
    && i < |entries| == |moved|
    && ClassOf(e) == ClassOf(entries[i])
    && moved[|entries| - 1] == e
    && forall k :: 0 <= k < |entries| - 1 ==> moved[k] == entries[if k < i then k else k + 1]
  }

  lemma TouchMoves(entries: seq<Entry>, i: nat, e: Entry)
    requires i < |entries| && ClassOf(e) == ClassOf(entries[i])
    ensures MovedToEnd(entries, i, e, Touched(entries[i := e], i))
  {
    hide ClassOf;
  }

  lemma MoveOrdered(entries: seq<Entry>, t: Table, i: nat, e: Entry, moved: seq<Entry>)
    requires Refines(entries, t) && MovedToEnd(entries, i, e, moved)
    ensures Ordered(moved, t.slots[ClassOf(e) := Used(e, t.tick)])
  {
    hide ClassOf, Classes;
    var slots := t.slots[ClassOf(e) := Used(e, t.tick)];
    var n := |entries|;
    OthersDiffer(entries, t.slots, i);
    forall k | 0 <= k < n - 1
      ensures ClassOf(moved[k]) in slots && slots[ClassOf(moved[k])] == t.slots[ClassOf(moved[k])]
          && slots[ClassOf(moved[k])].entry == moved[k]
    {
      assert moved[k] == entries[if k < i then k else k + 1];
    }
  }

  lemma MoveClasses(entries: seq<Entry>, i: nat, e: Entry, moved: seq<Entry>)
    requires MovedToEnd(entries, i, e, moved)
    ensures Classes(moved) == Classes(entries)
  {
    hide ClassOf;
    var n := |entries|;
    forall j | 0 <= j < n ensures ClassOf(entries[j]) in Classes(moved) {
      if j == i {
        assert moved[n - 1] == e;
      } else {
        assert moved[if j < i then j else j - 1] == entries[j];
      }
    }
    forall k | 0 <= k < n ensures ClassOf(moved[k]) in Classes(entries) {
      assert k < n - 1 ==> moved[k] == entries[if k < i then k else k + 1];
    }
  }

  /** Moving an entry to the end is stamping its class. */
  lemma TouchRefines(entries: seq<Entry>, t: Table, i: nat, e: Entry)
    requires Refines(entries, t) && i < |entries| && ClassOf(e) == ClassOf(entries[i])
    ensures Refines(Touched(entries[i := e], i), Table(t.slots[ClassOf(e) := Used(e, t.tick)], t.tick + 1))
  {
    hide MovedToEnd, Touched, ClassOf;
    var moved := Touched(entries[i := e], i);
    TouchMoves(entries, i, e);
    MoveOrdered(entries, t, i, e, moved);
    MoveClasses(entries, i, e, moved);
    assert ClassOf(entries[i]) in Classes(entries);
    assert t.slots[ClassOf(e) := Used(e, t.tick)].Keys == t.slots.Keys + {ClassOf(e)};
  }

  lemma OthersDiffer(entries: seq<Entry>, slots: map<Class, Used>, i: nat)
    requires Ordered(entries, slots) && i < |entries|
    ensures forall k :: 0 <= k < |entries| && k != i ==> ClassOf(entries[k]) != ClassOf(entries[i])
  {
  }

  /** The first in the list of some entries is the oldest of them. */
  lemma FirstIsOldest(entries: seq<Entry>, t: Table, among: set<Class>, i: nat)
    requires Refines(entries, t) && i < |entries| && ClassOf(entries[i]) in among
    requires forall j :: 0 <= j < i ==> ClassOf(entries[j]) !in among
    ensures IsOldest(t.slots, among, ClassOf(entries[i]))
  {
    forall d | d in among && d in t.slots ensures t.slots[ClassOf(entries[i])].at <= t.slots[d].at {
      var j :| 0 <= j < |entries| && ClassOf(entries[j]) == d;
    }
  }

  lemma AppendRefines(entries: seq<Entry>, t: Table, e: Entry)
    requires Refines(entries, t) && ClassOf(e) !in t.slots
    ensures Refines(entries + [e], Table(t.slots[ClassOf(e) := Used(e, t.tick)], t.tick + 1))
  {
    AppendOrdered(entries, t, e);
    AppendClasses(entries, e);
    hide ClassOf, Ordered, Classes;
    assert t.slots[ClassOf(e) := Used(e, t.tick)].Keys == t.slots.Keys + {ClassOf(e)};
  }

  lemma AppendOrdered(entries: seq<Entry>, t: Table, e: Entry)
    requires Refines(entries, t) && ClassOf(e) !in t.slots
    ensures Ordered(entries + [e], t.slots[ClassOf(e) := Used(e, t.tick)])
  {
    hide ClassOf, Classes;
    var more := entries + [e];
    assert more[|entries|] == e && forall i :: 0 <= i < |entries| ==> more[i] == entries[i];
  }

  lemma AppendClasses(entries: seq<Entry>, e: Entry)
    ensures Classes(entries + [e]) == Classes(entries) + {ClassOf(e)}
  {
    hide ClassOf;
    var more := entries + [e];
    assert more[|entries|] == e;
    forall i | 0 <= i < |entries| ensures ClassOf(entries[i]) in Classes(more) {
      assert more[i] == entries[i];
    }
  }

  lemma DropRefines(entries: seq<Entry>, t: Table)
    requires Refines(entries, t) && entries != []
    ensures Refines(entries[1..], Table(t.slots - {ClassOf(entries[0])}, t.tick))
    ensures IsOldest(t.slots, t.slots.Keys, ClassOf(entries[0]))
  {
    FirstIsOldest(entries, t, t.slots.Keys, 0);
    DropClasses(entries, t.slots);
    DropOrdered(entries, t.slots);
    hide ClassOf, Ordered, Classes;
    assert (t.slots - {ClassOf(entries[0])}).Keys == t.slots.Keys - {ClassOf(entries[0])};
  }

  lemma DropOrdered(entries: seq<Entry>, slots: map<Class, Used>)
    requires Ordered(entries, slots) && entries != []
    ensures Ordered(entries[1..], slots - {ClassOf(entries[0])})
  {
    hide ClassOf;
    OthersDiffer(entries, slots, 0);
    var tail := entries[1..];
    assert forall i :: 0 <= i < |tail| ==> tail[i] == entries[i + 1];
  }

  lemma DropClasses(entries: seq<Entry>, slots: map<Class, Used>)
    requires Ordered(entries, slots) && entries != []
    ensures Classes(entries[1..]) == Classes(entries) - {ClassOf(entries[0])}
  {
    OthersDiffer(entries, slots, 0);
    hide ClassOf, Ordered;
    var tail := entries[1..];
    forall i | 0 < i < |entries| ensures ClassOf(entries[i]) in Classes(tail) {
      assert tail[i - 1] == entries[i];
    }
    assert forall i :: 0 <= i < |tail| ==> tail[i] == entries[i + 1];
  }

  // ---------------------------------------------------------------------
  // The cache is the table

  /** A lookup of the list is the table's, with the same entry found. */
  lemma LookupRefines(env: Setting, s: State, t: Table, now: Time, call: Call) returns (t': Table)
    requires Refines(s.entries, t)
    ensures var r := Lookup(env, s, now, call);
            TableLookup(env, t, now, call, t', r.entry) && Refines(r.state.entries, t')
  {
    hide Cacheable, KeyFor, MatchOf, EvidenceFor, Verdict, Refines, Prune, Unexpired, IsOldest, Preferred;
    t' := t;
    if Cacheable(env, call) {
      var pruned := Pruned(env, s, now);
      PruneRefines(env, s.entries, t, now);
      var t1 := Table(Unexpired(env, t.slots, now), t.tick);
      var key, m, evidence := KeyFor(env, call), MatchOf(env, call), EvidenceFor(env, call);
      ScanFinds(env, pruned.entries, 0, key, m, evidence, BaseOutcome(s, pruned));
      var found := ScanFrom(env, pruned.entries, 0, key, m, evidence, BaseOutcome(s, pruned)).found;
      HitsOfList(env, pruned.entries, t1, call);
      if found.None? {
        t' := t1;
      } else {
        var i := found.value;
        var e := pruned.entries[i];
        FirstIsOldest(pruned.entries, t1, Hits(env, t1.slots, call), i);
        t' := Table(t1.slots[ClassOf(e) := Used(e, t1.tick)], t1.tick + 1);
        TouchRefines(pruned.entries, t1, i, e);
        assert pruned.entries[i := e] == pruned.entries;
        SlotOf(pruned.entries, t1, i);
      }
    }
  }

  lemma SlotOf(entries: seq<Entry>, t: Table, i: nat)
    requires Refines(entries, t) && i < |entries|
    ensures ClassOf(entries[i]) in t.slots && t.slots[ClassOf(entries[i])].entry == entries[i]
  {
  }

  lemma HitsOfList(env: Setting, entries: seq<Entry>, t: Table, call: Call)
    requires Refines(entries, t)
    ensures forall i :: 0 <= i < |entries| ==>
              (ClassOf(entries[i]) in Hits(env, t.slots, call) <==>
               Verdict(env, entries[i], KeyFor(env, call), MatchOf(env, call), EvidenceFor(env, call)) == Hit)
    ensures (forall i :: 0 <= i < |entries| ==> ClassOf(entries[i]) !in Hits(env, t.slots, call))
        ==> Hits(env, t.slots, call) == {}
  {
    hide KeyFor, MatchOf, EvidenceFor, Verdict;
    if c :| c in Hits(env, t.slots, call) {
      var i :| 0 <= i < |entries| && ClassOf(entries[i]) == c;
    }
  }

  lemma AdmitRefines(env: Setting, s: State, t: Table, e: Entry) returns (t': Table)
    requires Refines(s.entries, t) && |s.entries| <= env.policy.capacity
    ensures TableAdmit(env, t, e, t') && Refines(Admit(env, s, e).entries, t')
    ensures |Admit(env, s, e).entries| <= env.policy.capacity
  {
    hide Refines, Prune, Unexpired, IsOldest, Touched;
    var pruned := Pruned(env, s, e.created).entries;
    PruneRefines(env, s.entries, t, e.created);
    var t1 := Table(Unexpired(env, t.slots, e.created), t.tick);
    var twin := EquivalentFrom(pruned, 0, e);
    RefinesSize(pruned, t1);
    ClassesOfList(pruned, t1);
    if twin.Some? {
      TouchRefines(pruned, t1, twin.value, e);
      assert |Touched(pruned[twin.value := e], twin.value)| == |pruned| by {
        TouchedSize(pruned[twin.value := e], twin.value);
      }
      t' := Table(t1.slots[ClassOf(e) := Used(e, t1.tick)], t1.tick + 1);
      AdmitsInto(env, t, e, t1.slots, t');
    } else if |pruned| == env.policy.capacity {
      DropRefines(pruned, t1);
      var t2 := Table(t1.slots - {ClassOf(pruned[0])}, t1.tick);
      AppendRefines(pruned[1..], t2, e);
      t' := Table(t2.slots[ClassOf(e) := Used(e, t2.tick)], t2.tick + 1);
      AdmitsInto(env, t, e, t2.slots, t');
      assert t2.slots - {ClassOf(e)} == t2.slots;
    } else {
      AppendRefines(pruned, t1, e);
      t' := Table(t1.slots[ClassOf(e) := Used(e, t1.tick)], t1.tick + 1);
      AdmitsInto(env, t, e, t1.slots, t');
    }
  }

  lemma TouchedSize(entries: seq<Entry>, i: nat)
    requires i < |entries|
    ensures |Touched(entries, i)| == |entries|
  {
  }

  lemma ClassesOfList(entries: seq<Entry>, t: Table)
    requires Refines(entries, t)
    ensures forall c :: c in t.slots <==> exists i :: 0 <= i < |entries| && ClassOf(entries[i]) == c
  {
  }

  lemma AdmitsInto(env: Setting, t: Table, e: Entry, slots: map<Class, Used>, t': Table)
    requires t' == Table(slots[ClassOf(e) := Used(e, t.tick)], t.tick + 1)
    ensures t'.slots - {ClassOf(e)} == slots - {ClassOf(e)}
    ensures t' == Table((t'.slots - {ClassOf(e)})[ClassOf(e) := Used(e, t.tick)], t.tick + 1)
  {
    assert (slots - {ClassOf(e)})[ClassOf(e) := Used(e, t.tick)] == slots[ClassOf(e) := Used(e, t.tick)];
  }

  /** One step of the table, with the answer it gives. */
  ghost predicate TableStep(env: Setting, t: Table, op: Op, t': Table, found: Option<Entry>) {
    match op
    case Ask(now, call) => TableLookup(env, t, now, call, t', found)
    case Save(now, call, segments) =>
      found == None && if Cacheable(env, call)
          then TableAdmit(env, t, EntryOf(env, now, call, segments), t') else t' == t
  }

  function AnswerTo(env: Setting, s: State, op: Op): Option<Entry> {
    match op
    case Ask(now, call) => Lookup(env, s, now, call).entry
    case Save(_, _, _) => None
  }

  /** A run of the table that gives the cache's answers. */
  ghost predicate TableRun(env: Setting, ops: seq<Op>, tables: seq<Table>) {
    && |tables| == |ops| + 1 && tables[0] == NEW
    && forall i :: 0 <= i < |ops|
         ==> TableStep(env, tables[i], ops[i], tables[i + 1], AnswerTo(env, After(env, ops[..i]), ops[i]))
  }

  lemma StepRefines(env: Setting, s: State, t: Table, op: Op) returns (t': Table)
    requires Refines(s.entries, t) && |s.entries| <= env.policy.capacity
    ensures TableStep(env, t, op, t', AnswerTo(env, s, op)) && Refines(Step(env, s, op).entries, t')
    ensures |Step(env, s, op).entries| <= env.policy.capacity
  {
    hide TableLookup, TableAdmit, Refines, Lookup, Admit, Cacheable, EntryOf;
    t' := t;
    match op
    case Ask(now, call) =>
      t' := LookupRefines(env, s, t, now, call);
      LookupKeepsSize(env, s, now, call);
    case Save(now, call, segments) =>
      if Cacheable(env, call) {
        t' := AdmitRefines(env, s, t, EntryOf(env, now, call, segments));
      }
  }

  lemma LookupKeepsSize(env: Setting, s: State, now: Time, call: Call)
    ensures |Lookup(env, s, now, call).state.entries| <= |s.entries|
  {
    hide Cacheable, Prune, KeyFor, MatchOf, EvidenceFor;
  }

  lemma {:induction false} RunRefines(env: Setting, ops: seq<Op>) returns (tables: seq<Table>, s: State)
    ensures s == After(env, ops)
    ensures TableRun(env, ops, tables) && |tables| == |ops| + 1
    ensures Refines(s.entries, tables[|ops|]) && |s.entries| <= env.policy.capacity
    decreases |ops|
  {
    hide TableRun, TableStep, Step, After, Refines, AnswerTo;
    if ops == [] {
      tables, s := [NEW], EMPTY;
      EmptyRun(env);
    } else {
      var n := |ops| - 1;
      tables, s := RunRefines(env, ops[..n]);
      var t' := StepRefines(env, s, tables[n], ops[n]);
      RunExtends(env, ops, tables, t');
      assert (tables + [t'])[|ops|] == t';
      tables, s := tables + [t'], Step(env, s, ops[n]);
    }
  }

  /** Refinement over all histories: the cache answers as the table does, and holds
      its entries in the order of their last use, one for each class, within capacity. */
  lemma CacheIsTheTable(env: Setting, ops: seq<Op>) returns (tables: seq<Table>)
    ensures TableRun(env, ops, tables) && |tables| == |ops| + 1
    ensures var entries := After(env, ops).entries;
            && Refines(entries, tables[|ops|])
            && |entries| <= env.policy.capacity
            && forall i, j :: 0 <= i < j < |entries| ==> ClassOf(entries[i]) != ClassOf(entries[j])
  {
    hide TableRun, After, Refines, ClassOf;
    var s;
    tables, s := RunRefines(env, ops);
    RefinesDistinct(s.entries, tables[|ops|]);
  }

  lemma EmptyRun(env: Setting)
    ensures TableRun(env, [], [NEW]) && After(env, []) == EMPTY && Refines([], NEW)
  {
  }

  lemma RunExtends(env: Setting, ops: seq<Op>, tables: seq<Table>, t': Table)
    requires ops != [] && TableRun(env, ops[..|ops| - 1], tables)
    requires TableStep(env, tables[|ops| - 1], ops[|ops| - 1], t',
        AnswerTo(env, After(env, ops[..|ops| - 1]), ops[|ops| - 1]))
    ensures TableRun(env, ops, tables + [t'])
    ensures After(env, ops) == Step(env, After(env, ops[..|ops| - 1]), ops[|ops| - 1])
  {
    hide TableStep, Step, AnswerTo;
    var n := |ops| - 1;
    forall i | 0 <= i < n ensures ops[..n][..i] == ops[..i] && ops[..n][i] == ops[i] {
    }
  }

  lemma RefinesDistinct(entries: seq<Entry>, t: Table)
    requires Refines(entries, t)
    ensures forall i, j :: 0 <= i < j < |entries| ==> ClassOf(entries[i]) != ClassOf(entries[j])
  {
    hide ClassOf;
  }
}
