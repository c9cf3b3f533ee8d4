/**
 One generation for all concurrent askers of a question
 (services/answer-service/internal/application/service.go, Service.Answer from the
 flight key on, and answerInflight).

 A world interleaves the calls of Answer at its critical sections: every action
 below is what one call does under the mutex, on the permits, or on a channel.
 */
module SingleFlight {
  import opened Prelude
  import opened Fingerprints
  import opened Guards
  import Questions
  import Evidence
  import Output
  import opened AnswerCache

  datatype Flight = Flight(key: CacheKey, query: string, modes: set<Mode>)

  function FlightOf(env: Setting, call: Call): Flight {
    Flight(KeyFor(env, call), MatchOf(env, call).query, MatchOf(env, call).modes)
  }

  function Rendered(env: Setting, call: Call, segments: seq<Output.Segment>): Result<seq<Output.Segment>,
      Output.OutputError> {
    Output.Validated(env.u, segments, EvidenceFor(env, call), env.limits)
  }

  /** The flight key leaves out guards and embedding profile, but not the evidence,
      so an outcome renders alike for all who share it. */
  lemma SameFlightSameRendering(env: Setting, a: Call, b: Call, segments: seq<Output.Segment>)
    requires SaneSetting(env) && FlightOf(env, a) == FlightOf(env, b)
    ensures Rendered(env, a, segments) == Rendered(env, b, segments)
  {
    hide EvidenceFor, SameFilters, MatchOf, KeyOf, Separating, Output.Validated;
    KeyAgrees(env.digests, env.policy.profile, a.request, b.request,
                 a.search.retrievalProfile, b.search.retrievalProfile, EvidenceFor(env, a), EvidenceFor(env, b));
  }

  /** Whom the flight key brings together, the cache would have answered alike
      exactly if the same turns their questions and their embedding profiles agree. */
  lemma CoalescedWouldHit(env: Setting, a: Call, b: Call)
    requires FlightOf(env, a) == FlightOf(env, b)
    ensures QueriesMatch(env, MatchOf(env, a), MatchOf(env, b)) == Hit <==>
            a.search.embeddingProfile == b.search.embeddingProfile
            && Questions.SameTurns(env.u, env.lexicon, a.request.question, b.request.question)
  {
    hide KeyFor, GuardTokens, Modes, Topics, QueryWords, Questions.SameTurns;
    Questions.GuardsAreTurns(env.u, env.lexicon, a.request.question, b.request.question);
  }

  /** They need not: askers of c# and of c can share a generation that the cache,
      a moment later, would not have let them share. */
  lemma FlightsIgnoreGuards(env: Setting, search: Evidence.Search, filters: Filters, limit: nat,
      actor: Actor, score: real)
    requires PlainAscii(env.u) && env.lexicon == ENGLISH
    ensures var a := Call(Request(SHARP, filters, limit, actor, score), search);
            var b := Call(Request(PLAIN, filters, limit, actor, score), search);
            FlightOf(env, a) == FlightOf(env, b) && QueriesMatch(env, MatchOf(env, a), MatchOf(env, b)) == GuardMismatch
  {
    hide PlainAscii, GuardTokens, Modes, Topics, QueryWords;
    GuardsTellApart(env.u);
  }

  // ---------------------------------------------------------------------
  // The table of calls in flight

  /** `closes` counts how often the ready channel was closed; a second time panics. */
  datatype InFlight = InFlight(leader: Id, segments: seq<Output.Segment>, ok: bool, closes: nat)

  /** Calls stay reachable for their followers after the table has dropped them. */
  datatype Table = Table(calls: map<Flight, nat>, made: seq<InFlight>)

  predicate WellKept(t: Table) {
    forall k :: k in t.calls ==> t.calls[k] < |t.made|
  }

  function Begin(t: Table, key: Flight, leader: Id): Table {
    if key in t.calls then t
    else Table(t.calls[key := |t.made|], t.made + [InFlight(leader, [], false, 0)])
  }

  function Fill(t: Table, key: Flight, segments: seq<Output.Segment>, ok: bool): Table
    requires WellKept(t)
  {
    if key in t.calls then t.(made := t.made[t.calls[key] := t.made[t.calls[key]].(segments := segments, ok := ok)])
        else t
  }

  function Target(t: Table, key: Flight): Option<nat> {
    if key in t.calls then Some(t.calls[key]) else None
  }

  function Close(t: Table, n: nat): Table
    requires n < |t.made|
  {
    t.(made := t.made[n := t.made[n].(closes := t.made[n].closes + 1)])
  }

  function Discard(t: Table, key: Flight): Table
    requires WellKept(t)
  {
    if key !in t.calls then t
    else
      var n := t.calls[key];
      var closed := if t.made[n].closes == 0 then Close(t, n) else t;
      closed.(calls := closed.calls - {key})
  }

  // ---------------------------------------------------------------------
  // The world

  datatype Reply = Answered(shown: seq<Output.Segment>) | Unanswered | ContextError

  /** Leading to Leaving: the call will run its deferred done. Settled: only its
      deferred functions are left, the permit first. `from` is the call in flight
      whose outcome a follower took. */
  datatype Phase =
    | Idle
    | Waiting(call: nat)
    | Leading
    | Generating
    | Filled(target: Option<nat>, reply: Reply)
    | Settled(reply: Reply)
    | Leaving(reply: Reply)
    | Finished(reply: Reply, from: Option<nat>)

  datatype Proc = Proc(call: Call, phase: Phase)

  datatype World = World(procs: map<Id, Proc>, table: Table, permits: nat)

  datatype Action =
    | Enter | Wake | GiveUp | Acquire
    | Return(segments: seq<Output.Segment>) | Fail(reply: Reply) | Abort
    | CloseReady | Release | Depart

  predicate Owning(phase: Phase) {
    phase.Leading? || phase.Generating? || phase.Filled? || phase.Settled? || phase.Leaving?
  }

  predicate Holding(phase: Phase) {
    phase.Generating? || phase.Filled? || phase.Settled?
  }

  predicate Enabled(env: Setting, w: World, p: Id, a: Action) {
    p in w.procs && WellKept(w.table) &&
    var phase := w.procs[p].phase;
    match a
    case Enter => phase.Idle?
    case Wake => phase.Waiting? && phase.call < |w.table.made| && w.table.made[phase.call].closes > 0
    case GiveUp => phase.Waiting?
    case Acquire => phase.Leading?
    case Return(_) => phase.Generating?
    case Fail(reply) => phase.Generating? && !reply.Answered?
    case Abort => phase.Generating?
    case CloseReady => phase.Filled? && (phase.target.Some? ==> phase.target.value < |w.table.made|)
    case Release => phase.Settled? && w.permits > 0
    case Depart => phase.Leaving?
  }

  function To(w: World, p: Id, phase: Phase): World
    requires p in w.procs
  {
    w.(procs := w.procs[p := w.procs[p].(phase := phase)])
  }

  /** complete: fills the call in flight, then closes it outside of the mutex. */
  function Complete(env: Setting, w: World, p: Id, segments: seq<Output.Segment>, ok: bool, reply: Reply): World
    requires p in w.procs && WellKept(w.table)
  {
    var key := FlightOf(env, w.procs[p].call);
    if Cacheable(env, w.procs[p].call)
    then To(w, p, Filled(Target(w.table, key), reply)).(table := Fill(w.table, key, segments, ok))
    else To(w, p, Settled(reply))
  }

  function Next(env: Setting, concurrency: nat, w: World, p: Id, a: Action): World
    requires Enabled(env, w, p, a)
  {
    var call := w.procs[p].call;
    var phase := w.procs[p].phase;
    match a
    case Enter =>
      if !Cacheable(env, call) then To(w, p, Leading)
      else
        var key := FlightOf(env, call);
        if key in w.table.calls then To(w, p, Waiting(w.table.calls[key]))
        else To(w, p, Leading).(table := Begin(w.table, key, p))
    case Wake =>
      var told := w.table.made[phase.call];
      var shown := Rendered(env, call, told.segments);
      if !told.ok then To(w, p, Finished(Unanswered, Some(phase.call)))
      else if shown.Ok? then To(w, p, Finished(Answered(shown.value), Some(phase.call)))
      else To(w, p, Leading)
    case GiveUp => To(w, p, Finished(ContextError, Some(phase.call)))
    case Acquire =>
      if w.permits < concurrency then To(w, p, Generating).(permits := w.permits + 1)
      else To(w, p, Leaving(Unanswered))
    case Return(segments) =>
      var shown := Rendered(env, call, segments);
      if shown.Ok? then Complete(env, w, p, segments, true, Answered(shown.value))
      else Complete(env, w, p, [], false, Unanswered)
    case Fail(reply) => Complete(env, w, p, [], false, reply)
    case Abort => To(w, p, Settled(Unanswered))
    case CloseReady =>
      var to := To(w, p, Settled(phase.reply));
      if phase.target.Some? then to.(table := Close(w.table, phase.target.value)) else to
    case Release => To(w, p, Leaving(phase.reply)).(permits := w.permits - 1)
    case Depart =>
      var to := To(w, p, Finished(phase.reply, None));
      if Cacheable(env, call) then to.(table := Discard(w.table, FlightOf(env, call))) else to
  }

  // ---------------------------------------------------------------------
  // The invariant

  /** The call in flight holds the outcome that the reply shows. */
  predicate Told(env: Setting, f: InFlight, call: Call, reply: Reply) {
    f.ok == reply.Answered? && (f.ok ==> Rendered(env, call, f.segments) == Ok(reply.shown))
  }

  predicate LeaderTells(env: Setting, f: InFlight, leader: Proc) {
    match leader.phase
    case Leading => f.closes == 0 && !f.ok
    case Generating => f.closes == 0 && !f.ok
    case Filled(_, reply) => f.closes == 0 && Told(env, f, leader.call, reply)
    case Settled(reply) => f.closes <= 1 && (f.closes == 0 ==> !f.ok) && Told(env, f, leader.call, reply)
    case Leaving(reply) => f.closes <= 1 && (f.closes == 0 ==> !f.ok) && Told(env, f, leader.call, reply)
    case Finished(reply, _) => f.closes == 1 && Told(env, f, leader.call, reply)
    case _ => false
  }

  /** The call in flight, its leader and this process have one flight key. */
  predicate Shares(env: Setting, w: World, n: nat, call: Call) {
    && n < |w.table.made| && w.table.made[n].leader in w.procs
    && FlightOf(env, w.procs[w.table.made[n].leader].call) == FlightOf(env, call)
  }

  predicate ProcOk(env: Setting, w: World, p: Id)
    requires p in w.procs
  {
    var q := w.procs[p];
    var key := FlightOf(env, q.call);
    && (Owning(q.phase) && Cacheable(env, q.call) ==>
          key in w.table.calls && w.table.calls[key] < |w.table.made| && w.table.made[w.table.calls[key]].leader == p)
    && (q.phase.Filled? ==> Cacheable(env, q.call) && q.phase.target == Target(w.table, key))
    && (q.phase.Waiting? ==> Shares(env, w, q.phase.call, q.call))
    && (q.phase.Finished? && q.phase.from.Some? ==> Shares(env, w, q.phase.from.value, q.call))
    && (q.phase.Finished? && q.phase.from.Some? && q.phase.reply != ContextError ==>
          w.table.made[q.phase.from.value].closes == 1
              && Told(env, w.table.made[q.phase.from.value], q.call, q.phase.reply))
  }

  predicate FlightOk(env: Setting, w: World, n: nat)
    requires n < |w.table.made|
  {
    var f := w.table.made[n];
    && f.leader in w.procs
    && Cacheable(env, w.procs[f.leader].call)
    && LeaderTells(env, f, w.procs[f.leader])
    && (Owning(w.procs[f.leader].phase) ==> Target(w.table, FlightOf(env, w.procs[f.leader].call)) == Some(n))
  }

  predicate CallOk(env: Setting, w: World, k: Flight)
    requires k in w.table.calls
  {
    var n := w.table.calls[k];
    && n < |w.table.made| && w.table.made[n].leader in w.procs
    && FlightOf(env, w.procs[w.table.made[n].leader].call) == k
    && Owning(w.procs[w.table.made[n].leader].phase)
  }

  function Holders(procs: map<Id, Proc>): set<Id> {
    set p | p in procs && Holding(procs[p].phase)
  }

  predicate PermitsOk(concurrency: nat, w: World) {
    w.permits == |Holders(w.procs)| <= concurrency
  }

  predicate TableOk(env: Setting, w: World) {
    && (forall p :: p in w.procs ==> ProcOk(env, w, p))
    && (forall n :: 0 <= n < |w.table.made| ==> FlightOk(env, w, n))
    && (forall k :: k in w.table.calls ==> CallOk(env, w, k))
  }

  predicate Inv(env: Setting, concurrency: nat, w: World) {
    TableOk(env, w) && PermitsOk(concurrency, w)
  }

  /** How much of the world one action of `p` may change. */
  predicate OnlyOwn(env: Setting, w: World, w': World, p: Id) {
    && p in w.procs && p in w'.procs
    && w'.procs == w.procs[p := w'.procs[p]] && w'.procs[p].call == w.procs[p].call
    && |w.table.made| <= |w'.table.made|
    && (forall n :: 0 <= n < |w.table.made| ==>
          w'.table.made[n].leader == w.table.made[n].leader
          && (w.table.made[n].closes == 1 || w.table.made[n].leader != p ==> w'.table.made[n] == w.table.made[n]))
    && (forall n :: |w.table.made| <= n < |w'.table.made| ==> w'.table.made[n].leader == p)
    && (forall k ::
          k in w.table.calls && w.table.calls[k] < |w.table.made| && w.table.made[w.table.calls[k]].leader != p ==>
          k in w'.table.calls && w'.table.calls[k] == w.table.calls[k])
    && (forall k :: k in w'.table.calls
         ==> (k in w.table.calls && w'.table.calls[k] == w.table.calls[k]) || k == FlightOf(env, w.procs[p].call))
  }

  /** What is left to show for the one that acted. */
  predicate OwnOk(env: Setting, w: World, p: Id)
    requires p in w.procs
  {
    && ProcOk(env, w, p)
    && (forall n :: 0 <= n < |w.table.made| && w.table.made[n].leader == p ==> FlightOk(env, w, n))
    && (FlightOf(env, w.procs[p].call) in w.table.calls ==> CallOk(env, w, FlightOf(env, w.procs[p].call)))
  }

  lemma OtherProcStays(env: Setting, w: World, w': World, p: Id, q: Id)
    requires TableOk(env, w) && OnlyOwn(env, w, w', p) && q in w.procs && q != p
    ensures ProcOk(env, w', q)
  {
    hide FlightOf, Cacheable, Told, LeaderTells;
    assert ProcOk(env, w, q);
    var r := w.procs[q];
    assert w'.procs[q] == r;
    if r.phase.Filled? {
      var key := FlightOf(env, r.call);
      assert w.table.made[w.table.calls[key]].leader == q;
    }
  }

  lemma OtherFlightStays(env: Setting, w: World, w': World, p: Id, n: nat)
    requires TableOk(env, w) && OnlyOwn(env, w, w', p) && n < |w'.table.made| && w'.table.made[n].leader != p
    ensures FlightOk(env, w', n)
  {
    hide FlightOf, Cacheable, Told, LeaderTells, ProcOk;
    assert FlightOk(env, w, n);
  }

  lemma OtherCallStays(env: Setting, w: World, w': World, p: Id, k: Flight)
    requires TableOk(env, w) && OnlyOwn(env, w, w', p) && k in w'.table.calls && k != FlightOf(env, w.procs[p].call)
    ensures CallOk(env, w', k)
  {
    hide FlightOf, Cacheable, FlightOk, ProcOk;
    assert CallOk(env, w, k);
  }

  lemma TableStays(env: Setting, w: World, w': World, p: Id)
    requires TableOk(env, w) && OnlyOwn(env, w, w', p) && OwnOk(env, w', p)
    ensures TableOk(env, w')
  {
    hide FlightOf, ProcOk, FlightOk, CallOk;
    assert w'.procs.Keys == w.procs.Keys && w'.procs[p].call == w.procs[p].call by { SameProcs(env, w, w', p); }
    forall q | q in w'.procs ensures ProcOk(env, w', q) {
      if q != p {
        hide *;
        OtherProcStays(env, w, w', p, q);
      }
    }
    forall n | 0 <= n < |w'.table.made| ensures FlightOk(env, w', n) {
      if w'.table.made[n].leader != p {
        hide *;
        OtherFlightStays(env, w, w', p, n);
      }
    }
    forall k | k in w'.table.calls ensures CallOk(env, w', k) {
      if k != FlightOf(env, w.procs[p].call) {
        hide *;
        OtherCallStays(env, w, w', p, k);
      }
    }
  }

  lemma SameProcs(env: Setting, w: World, w': World, p: Id)
    requires OnlyOwn(env, w, w', p)
    ensures w'.procs.Keys == w.procs.Keys && w'.procs[p].call == w.procs[p].call
  {
  }

  // ---------------------------------------------------------------------
  // Every action keeps the invariant

  lemma TableIsKept(env: Setting, w: World)
    requires TableOk(env, w)
    ensures WellKept(w.table)
  {
    forall k | k in w.table.calls ensures w.table.calls[k] < |w.table.made| {
      assert CallOk(env, w, k);
    }
  }

  /** Who has not begun leading has no call in flight to its name. */
  lemma LeadsNothing(env: Setting, w: World, p: Id)
    requires TableOk(env, w) && p in w.procs && (w.procs[p].phase.Idle? || w.procs[p].phase.Waiting?)
    ensures forall n :: 0 <= n < |w.table.made| ==> w.table.made[n].leader != p
    ensures forall k :: k in w.table.calls ==>
        w.table.calls[k] < |w.table.made| && w.table.made[w.table.calls[k]].leader != p
  {
    hide ProcOk;
    forall n | 0 <= n < |w.table.made| ensures w.table.made[n].leader != p {
      assert FlightOk(env, w, n);
    }
    TableIsKept(env, w);
  }

  /** An owner has exactly one call in flight, the one under its key. */
  lemma LeadsItsOwn(env: Setting, w: World, p: Id)
    requires TableOk(env, w) && p in w.procs && Owning(w.procs[p].phase)
    ensures var key := FlightOf(env, w.procs[p].call);
            if Cacheable(env, w.procs[p].call) then
              && key in w.table.calls && w.table.calls[key] < |w.table.made|
                   && w.table.made[w.table.calls[key]].leader == p
              && LeaderTells(env, w.table.made[w.table.calls[key]], w.procs[p])
              && forall n :: 0 <= n < |w.table.made| && w.table.made[n].leader == p ==> n == w.table.calls[key]
            else
              forall n :: 0 <= n < |w.table.made| ==> w.table.made[n].leader != p
  {
    hide LeaderTells;
    assert ProcOk(env, w, p);
    forall n | 0 <= n < |w.table.made| && w.table.made[n].leader == p
      ensures Cacheable(env, w.procs[p].call) && Target(w.table, FlightOf(env, w.procs[p].call)) == Some(n)
      ensures LeaderTells(env, w.table.made[n], w.procs[p])
    {
      assert FlightOk(env, w, n);
    }
  }

  lemma EnterKeeps(env: Setting, concurrency: nat, w: World, p: Id)
    requires TableOk(env, w) && Enabled(env, w, p, Enter)
    ensures OnlyOwn(env, w, Next(env, concurrency, w, p, Enter), p)
        && OwnOk(env, Next(env, concurrency, w, p, Enter), p)
  {
    hide FlightOf, Cacheable, Told, TableOk;
    LeadsNothing(env, w, p);
    var w' := Next(env, concurrency, w, p, Enter);
    var key := FlightOf(env, w.procs[p].call);
    if key in w.table.calls {
      CallIsLed(env, w, p, key);
    }
  }

  lemma CallIsLed(env: Setting, w: World, p: Id, k: Flight)
    requires TableOk(env, w) && k in w.table.calls
    ensures CallOk(env, w, k) && w.table.made[w.table.calls[k]].leader in w.procs
  {
  }

  /** What a follower replies with. */
  function OutcomeOf(env: Setting, w: World, n: nat, call: Call): Reply
    requires n < |w.table.made|
  {
    var shown := Rendered(env, call, w.table.made[n].segments);
    if w.table.made[n].ok && shown.Ok? then Answered(shown.value) else Unanswered
  }

  /** A follower that wakes always finishes: its revalidation cannot fail, so it
      never goes on to lead a call that is not its own. */
  lemma WakeKeeps(env: Setting, concurrency: nat, w: World, p: Id)
    requires SaneSetting(env) && TableOk(env, w) && Enabled(env, w, p, Wake)
    ensures OnlyOwn(env, w, Next(env, concurrency, w, p, Wake), p) && OwnOk(env, Next(env, concurrency, w, p, Wake), p)
    ensures var n := w.procs[p].phase.call; Next(env, concurrency, w, p, Wake) == To(w, p,
        Finished(OutcomeOf(env, w, n, w.procs[p].call), Some(n)))
  {
    hide FlightOf, Cacheable, TableOk, Rendered, SaneSetting;
    LeadsNothing(env, w, p);
    var n := w.procs[p].phase.call;
    ToldByLeader(env, w, p);
    var leader := w.procs[w.table.made[n].leader];
    SameFlightSameRendering(env, leader.call, w.procs[p].call, w.table.made[n].segments);
    if FlightOf(env, w.procs[p].call) in w.table.calls {
      CallIsLed(env, w, p, FlightOf(env, w.procs[p].call));
    }
  }

  /** A closed call tells its waiters what its leader will reply. */
  lemma ToldByLeader(env: Setting, w: World, p: Id)
    requires TableOk(env, w) && p in w.procs && w.procs[p].phase.Waiting?
    ensures var n := w.procs[p].phase.call;
            && Shares(env, w, n, w.procs[p].call)
            && w.table.made[n].leader != p
            && (w.table.made[n].closes > 0 ==> w.table.made[n].closes == 1)
            && (w.table.made[n].ok ==> Rendered(env, w.procs[w.table.made[n].leader].call,
                 w.table.made[n].segments).Ok?)
  {
    hide Rendered, FlightOf, Cacheable;
    assert ProcOk(env, w, p);
    assert FlightOk(env, w, w.procs[p].phase.call);
  }

  lemma GiveUpKeeps(env: Setting, concurrency: nat, w: World, p: Id)
    requires TableOk(env, w) && Enabled(env, w, p, GiveUp)
    ensures OnlyOwn(env, w, Next(env, concurrency, w, p, GiveUp), p)
        && OwnOk(env, Next(env, concurrency, w, p, GiveUp), p)
  {
    hide FlightOf, Cacheable, TableOk, Rendered;
    LeadsNothing(env, w, p);
    ToldByLeader(env, w, p);
    if FlightOf(env, w.procs[p].call) in w.table.calls {
      CallIsLed(env, w, p, FlightOf(env, w.procs[p].call));
    }
  }

  /** A step of an owner that leaves the table as it is. */
  lemma PhaseKeeps(env: Setting, w: World, p: Id, phase: Phase)
    requires TableOk(env, w) && p in w.procs && Owning(w.procs[p].phase) && Owning(phase) && !phase.Filled?
    requires forall f: InFlight :: LeaderTells(env, f, w.procs[p]) ==> LeaderTells(env, f, w.procs[p].(phase := phase))
    ensures OnlyOwn(env, w, To(w, p, phase), p) && OwnOk(env, To(w, p, phase), p)
  {
    hide FlightOf, Cacheable, TableOk, LeaderTells;
    LeadsItsOwn(env, w, p);
    var key := FlightOf(env, w.procs[p].call);
    if key in w.table.calls {
      CallIsLed(env, w, p, key);
    }
  }

  lemma CompleteKeeps(env: Setting, w: World, p: Id, segments: seq<Output.Segment>, ok: bool, reply: Reply)
    requires TableOk(env, w) && WellKept(w.table) && p in w.procs && w.procs[p].phase.Generating?
    requires Told(env, InFlight(p, segments, ok, 0), w.procs[p].call, reply)
    ensures OnlyOwn(env, w, Complete(env, w, p, segments, ok, reply), p)
        && OwnOk(env, Complete(env, w, p, segments, ok, reply), p)
  {
    hide FlightOf, Cacheable, TableOk, Rendered;
    LeadsItsOwn(env, w, p);
    var key := FlightOf(env, w.procs[p].call);
    if key in w.table.calls {
      CallIsLed(env, w, p, key);
    }
  }

  lemma CloseReadyKeeps(env: Setting, concurrency: nat, w: World, p: Id)
    requires TableOk(env, w) && Enabled(env, w, p, CloseReady)
    ensures OnlyOwn(env, w, Next(env, concurrency, w, p, CloseReady), p)
        && OwnOk(env, Next(env, concurrency, w, p, CloseReady), p)
  {
    hide FlightOf, Cacheable, TableOk, Rendered;
    LeadsItsOwn(env, w, p);
    FilledTargets(env, w, p);
    var key := FlightOf(env, w.procs[p].call);
    CallIsLed(env, w, p, key);
  }

  lemma FilledTargets(env: Setting, w: World, p: Id)
    requires TableOk(env, w) && p in w.procs && w.procs[p].phase.Filled?
    ensures Cacheable(env, w.procs[p].call)
    ensures w.procs[p].phase.target == Target(w.table, FlightOf(env, w.procs[p].call)) && w.procs[p].phase.target.Some?
  {
    assert ProcOk(env, w, p);
  }

  lemma DepartKeeps(env: Setting, concurrency: nat, w: World, p: Id)
    requires TableOk(env, w) && Enabled(env, w, p, Depart)
    ensures OnlyOwn(env, w, Next(env, concurrency, w, p, Depart), p)
        && OwnOk(env, Next(env, concurrency, w, p, Depart), p)
  {
    hide FlightOf, Cacheable, TableOk, Rendered;
    LeadsItsOwn(env, w, p);
    var key := FlightOf(env, w.procs[p].call);
    if key in w.table.calls {
      CallIsLed(env, w, p, key);
    }
  }

  lemma TableStep(env: Setting, concurrency: nat, w: World, p: Id, a: Action)
    requires SaneSetting(env) && TableOk(env, w) && Enabled(env, w, p, a)
    ensures TableOk(env, Next(env, concurrency, w, p, a))
    ensures OnlyOwn(env, w, Next(env, concurrency, w, p, a), p)
  {
    hide TableOk, OnlyOwn, OwnOk, SaneSetting, Rendered, FlightOf, Cacheable, Complete;
    match a {
      case Enter => EnterKeeps(env, concurrency, w, p);
      case Wake => WakeKeeps(env, concurrency, w, p);
      case GiveUp => GiveUpKeeps(env, concurrency, w, p);
      case Acquire => PhaseKeeps(env, w, p, if w.permits < concurrency then Generating else Leaving(Unanswered));
        PermitsDoNotMatter(env, w, To(w, p, Generating), p, w.permits + 1);
      case Return(segments) =>
        var shown := Rendered(env, w.procs[p].call, segments);
        if shown.Ok? {
          CompleteKeeps(env, w, p, segments, true, Answered(shown.value));
        } else {
          CompleteKeeps(env, w, p, [], false, Unanswered);
        }
      case Fail(reply) => CompleteKeeps(env, w, p, [], false, reply);
      case Abort => PhaseKeeps(env, w, p, Settled(Unanswered));
      case CloseReady => CloseReadyKeeps(env, concurrency, w, p);
      case Release => PhaseKeeps(env, w, p, Leaving(w.procs[p].phase.reply));
        PermitsDoNotMatter(env, w, To(w, p, Leaving(w.procs[p].phase.reply)), p, w.permits - 1);
      case Depart => DepartKeeps(env, concurrency, w, p);
    }
    TableStays(env, w, Next(env, concurrency, w, p, a), p);
  }

  lemma PermitsDoNotMatter(env: Setting, w: World, w': World, p: Id, permits: int)
    requires p in w'.procs && permits >= 0
    ensures OnlyOwn(env, w, w', p) ==> OnlyOwn(env, w, w'.(permits := permits), p)
    ensures OwnOk(env, w', p) ==> OwnOk(env, w'.(permits := permits), p)
  {
    hide FlightOf, Cacheable, Told, LeaderTells;
  }

  lemma HoldersOfOneMore(procs: map<Id, Proc>, p: Id, q: Proc)
    requires p in procs
    ensures Holders(procs[p := q]) == if Holding(q.phase) then Holders(procs) + {p} else Holders(procs) - {p}
  {
  }

  lemma PermitStep(env: Setting, concurrency: nat, w: World, p: Id, a: Action)
    requires PermitsOk(concurrency, w) && Enabled(env, w, p, a)
    ensures PermitsOk(concurrency, Next(env, concurrency, w, p, a))
  {
    hide Holders, Enabled, Next, Holding;
    var w' := Next(env, concurrency, w, p, a);
    StepOfOne(env, concurrency, w, p, a);
    HoldersOfOneMore(w.procs, p, w'.procs[p]);
    HoldersOfOneMore(w.procs, p, w.procs[p]);
    SameProc(w.procs, p);
    SizeOf(Holders(w.procs), p);
  }

  lemma SizeOf(s: set<Id>, p: Id)
    ensures |s + {p}| == |s| + if p in s then 0 else 1
    ensures |s - {p}| == |s| - if p in s then 1 else 0
  {
    assert p in s ==> s + {p} == s;
    assert p !in s ==> s - {p} == s;
  }

  /** A step moves one process, and the permits with its own. */
  lemma StepOfOne(env: Setting, concurrency: nat, w: World, p: Id, a: Action)
    requires Enabled(env, w, p, a)
    ensures var w' := Next(env, concurrency, w, p, a);
            && p in w.procs && p in w'.procs && w'.procs == w.procs[p := w'.procs[p]]
            && w'.permits - w.permits == (if Holding(w'.procs[p].phase) then 1 else 0) - (if Holding(w.procs[p].phase)
                 then 1 else 0)
            && (w'.permits > w.permits ==> w.permits < concurrency)
  {
    hide Rendered, FlightOf, Cacheable, Fill, Close, Begin, Discard, WellKept, Target;
    match a
    case Enter =>
    case Wake =>
    case GiveUp =>
    case Acquire =>
    case Return(_) =>
    case Fail(_) =>
    case Abort =>
    case CloseReady =>
    case Release =>
    case Depart =>
  }

  lemma SameProc(procs: map<Id, Proc>, p: Id)
    requires p in procs
    ensures procs[p := procs[p]] == procs
  {
  }

  // ---------------------------------------------------------------------
  // All runs

  datatype Event = Event(who: Id, action: Action)

  ghost predicate Runs(env: Setting, concurrency: nat, worlds: seq<World>, events: seq<Event>) {
    && |worlds| == |events| + 1
    && forall i :: 0 <= i < |events| ==>
         Enabled(env, worlds[i], events[i].who, events[i].action)
         && worlds[i + 1] == Next(env, concurrency, worlds[i], events[i].who, events[i].action)
  }

  predicate Starts(w: World) {
    (forall p :: p in w.procs ==> w.procs[p].phase.Idle?) && w.table == Table(map[], []) && w.permits == 0
  }

  lemma StartsOk(env: Setting, concurrency: nat, w: World)
    requires Starts(w)
    ensures Inv(env, concurrency, w)
  {
    hide FlightOf, Cacheable;
    assert Holders(w.procs) == {};
  }

  lemma {:induction false} RunsKeep(env: Setting, concurrency: nat, worlds: seq<World>, events: seq<Event>, i: nat)
    requires SaneSetting(env) && Runs(env, concurrency, worlds, events) && Starts(worlds[0]) && i < |worlds|
    ensures Inv(env, concurrency, worlds[i])
    decreases i
  {
    hide SaneSetting, TableOk, PermitsOk, Enabled;
    if i == 0 {
      StartsOk(env, concurrency, worlds[0]);
    } else {
      RunsKeep(env, concurrency, worlds, events, i - 1);
      TableStep(env, concurrency, worlds[i - 1], events[i - 1].who, events[i - 1].action);
      PermitStep(env, concurrency, worlds[i - 1], events[i - 1].who, events[i - 1].action);
    }
  }

  /** Both own the flight of one key. */
  predicate Rivals(env: Setting, w: World, p: Id, q: Id) {
    && p in w.procs && Owning(w.procs[p].phase) && Cacheable(env, w.procs[p].call)
    && q in w.procs && Owning(w.procs[q].phase) && Cacheable(env, w.procs[q].call)
    && FlightOf(env, w.procs[p].call) == FlightOf(env, w.procs[q].call)
  }

  /** In every reachable world: no flight key has two owners; no ready channel was
      closed twice, and that of a finished leader, however it ended, was closed once;
      and at most `concurrency` generations run. */
  lemma SingleFlightIsSafe(env: Setting, concurrency: nat, worlds: seq<World>, events: seq<Event>, i: nat)
    requires SaneSetting(env) && Runs(env, concurrency, worlds, events) && Starts(worlds[0]) && i < |worlds|
    ensures var w := worlds[i];
            && (forall p, q :: Rivals(env, w, p, q) ==> p == q)
            && (forall n :: 0 <= n < |w.table.made| ==>
                  && w.table.made[n].closes <= 1
                  && w.table.made[n].leader in w.procs
                  && (w.procs[w.table.made[n].leader].phase.Finished? ==> w.table.made[n].closes == 1))
            && |Holders(w.procs)| <= concurrency
  {
    hide FlightOf, Cacheable, Holders, Runs, SaneSetting, Told;
    RunsKeep(env, concurrency, worlds, events, i);
    var w := worlds[i];
    forall p, q | Rivals(env, w, p, q) ensures p == q {
      assert ProcOk(env, w, p) && ProcOk(env, w, q);
    }
    forall n | 0 <= n < |w.table.made|
      ensures w.table.made[n].closes <= 1 && w.table.made[n].leader in w.procs
      ensures w.procs[w.table.made[n].leader].phase.Finished? ==> w.table.made[n].closes == 1
    {
      assert FlightOk(env, w, n);
    }
  }

  /** A follower that was not cancelled replies exactly what its leader replies,
      the same rendering, or no answer when the leader has none. */
  lemma FollowersGetTheOutcome(env: Setting, concurrency: nat, worlds: seq<World>, events: seq<Event>, i: nat, p: Id)
    requires SaneSetting(env) && Runs(env, concurrency, worlds, events) && Starts(worlds[0]) && i < |worlds|
    requires p in worlds[i].procs && worlds[i].procs[p].phase.Finished? && worlds[i].procs[p].phase.from.Some?
    requires worlds[i].procs[p].phase.reply != ContextError
    ensures var w := worlds[i];
            var n := w.procs[p].phase.from.value;
            && n < |w.table.made| && w.table.made[n].leader in w.procs && w.table.made[n].closes == 1
            && var leader := w.procs[w.table.made[n].leader].phase;
            && (leader.Settled? || leader.Leaving? || leader.Finished?)
            && (leader.reply.Answered? <==> w.procs[p].phase.reply.Answered?)
            && (leader.reply.Answered? ==> leader.reply == w.procs[p].phase.reply)
  {
    hide FlightOf, Cacheable, Runs, SaneSetting, Rendered, PermitsOk;
    RunsKeep(env, concurrency, worlds, events, i);
    var w := worlds[i];
    assert ProcOk(env, w, p);
    var n := w.procs[p].phase.from.value;
    assert FlightOk(env, w, n);
    var f := w.table.made[n];
    SameFlightSameRendering(env, w.procs[f.leader].call, w.procs[p].call, f.segments);
  }

  // ---------------------------------------------------------------------
  // Replies are earned

  function ReplyOf(phase: Phase): Option<Reply> {
    match phase
    case Filled(_, reply) => Some(reply)
    case Settled(reply) => Some(reply)
    case Leaving(reply) => Some(reply)
    case Finished(reply, _) => Some(reply)
    case _ => None
  }

  lemma ReplyStays(env: Setting, concurrency: nat, w: World, p: Id, a: Action, q: Id)
    requires Enabled(env, w, p, a) && q in w.procs && ReplyOf(w.procs[q].phase).Some?
    ensures var w' := Next(env, concurrency, w, p, a);
            && q in w'.procs && w'.procs[q].call == w.procs[q].call
            && ReplyOf(w'.procs[q].phase) == ReplyOf(w.procs[q].phase)
  {
    hide Rendered, FlightOf, Cacheable, Fill, Close, Begin, Discard, WellKept, Target;
  }

  /** What a call replies from the action on that decides it: an answer if what the
      generator returned can be shown, what the generator failed with, and nothing if
      there is no permit. */
  function Decided(env: Setting, concurrency: nat, w: World, call: Call, a: Action): Option<Reply> {
    match a
    case Return(segments) =>
      if Output.Acceptable(env.u, segments, EvidenceFor(env, call), env.limits)
      then Some(Answered(Output.Shown(env.u, segments, EvidenceFor(env, call)))) else Some(Unanswered)
    case Fail(reply) => Some(reply)
    case Abort => Some(Unanswered)
    case GiveUp => Some(ContextError)
    case Acquire => if w.permits < concurrency then None else Some(Unanswered)
    case _ => None
  }

  lemma ActionDecides(env: Setting, concurrency: nat, w: World, p: Id, a: Action)
    requires Enabled(env, w, p, a)
    ensures var reply := Decided(env, concurrency, w, w.procs[p].call, a);
            var w' := Next(env, concurrency, w, p, a);
            reply.Some? ==> p in w'.procs && w'.procs[p].call == w.procs[p].call && ReplyOf(w'.procs[p].phase) == reply
  {
    hide EvidenceFor, FlightOf, Cacheable, Fill, Close, Begin, Discard, WellKept, Target, Output.Acceptable,
        Output.Shown;
  }

  /** Over every run, a call's reply is the one that its own deciding action earned. */
  lemma {:induction false} RepliesAreEarned(env: Setting, concurrency: nat, worlds: seq<World>, events: seq<Event>,
      i: nat, j: nat)
    requires Runs(env, concurrency, worlds, events) && i < j < |worlds|
    requires Enabled(env, worlds[i], events[i].who, events[i].action)
    requires var q := worlds[i].procs[events[i].who];
             Decided(env, concurrency, worlds[i], q.call, events[i].action).Some?
    ensures var q := worlds[i].procs[events[i].who];
            && events[i].who in worlds[j].procs
            && ReplyOf(worlds[j].procs[events[i].who].phase) ==
               Decided(env, concurrency, worlds[i], q.call, events[i].action)
    decreases j
  {
    hide Enabled, Next, Decided;
    if j == i + 1 {
      ActionDecides(env, concurrency, worlds[i], events[i].who, events[i].action);
    } else {
      RepliesAreEarned(env, concurrency, worlds, events, i, j - 1);
      ReplyStays(env, concurrency, worlds[j - 1], events[j - 1].who, events[j - 1].action, events[i].who);
    }
  }

  predicate DecidedAt(env: Setting, concurrency: nat, w: World, e: Event, p: Id, reply: Reply) {
    && e.who == p && p in w.procs
    && (Decided(env, concurrency, w, w.procs[p].call, e.action) == Some(reply) || e.action.Wake?)
  }

  /** And who has a reply has earned it by such an action, or was woken. */
  lemma {:induction false} RepliesComeFromActions(env: Setting, concurrency: nat, worlds: seq<World>,
      events: seq<Event>, j: nat, p: Id)
    requires Runs(env, concurrency, worlds, events) && Starts(worlds[0]) && j < |worlds|
    requires p in worlds[j].procs && ReplyOf(worlds[j].procs[p].phase).Some?
    ensures exists i :: 0 <= i < j
              && DecidedAt(env, concurrency, worlds[i], events[i], p, ReplyOf(worlds[j].procs[p].phase).value)
    decreases j
  {
    hide Enabled, Next, Decided, DecidedAt;
    if j > 0 {
      var w := worlds[j - 1];
      StepDecides(env, concurrency, w, events[j - 1], p);
      if p in w.procs && ReplyOf(w.procs[p].phase).Some? {
        ReplyStays(env, concurrency, w, events[j - 1].who, events[j - 1].action, p);
        RepliesComeFromActions(env, concurrency, worlds, events, j - 1, p);
      }
    }
  }

  lemma StepDecides(env: Setting, concurrency: nat, w: World, e: Event, p: Id)
    requires Enabled(env, w, e.who, e.action)
    ensures var w' := Next(env, concurrency, w, e.who, e.action);
            p in w'.procs && ReplyOf(w'.procs[p].phase).Some? ==>
              && p in w.procs
              && (ReplyOf(w.procs[p].phase).Some?
                  || DecidedAt(env, concurrency, w, e, p, ReplyOf(w'.procs[p].phase).value))
  {
    hide EvidenceFor, FlightOf, Cacheable, Fill, Close, Begin, Discard, WellKept, Target, Output.Acceptable,
        Output.Shown;
  }

  // ---------------------------------------------------------------------
  // Nobody is left waiting by the protocol

  /** The actions that an owner still has before it. */
  function Rank(phase: Phase): nat {
    match phase
    case Leading => 5
    case Generating => 4
    case Filled(_, _) => 3
    case Settled(_) => 2
    case Leaving(_) => 1
    case _ => 0
  }

  /** Every owner can act, by an action of its own that is a step nearer to its end;
      and a call that is waited for has such an owner until it is closed. */
  lemma OwnersProceed(env: Setting, concurrency: nat, w: World, p: Id) returns (a: Action)
    requires Inv(env, concurrency, w) && p in w.procs && Owning(w.procs[p].phase)
    ensures Enabled(env, w, p, a) && !a.Abort?
    ensures var w' := Next(env, concurrency, w, p, a); p in w'.procs && Rank(w'.procs[p].phase) < Rank(w.procs[p].phase)
  {
    hide FlightOf, Cacheable, Rendered, TableOk, Fill, Begin, Discard;
    TableIsKept(env, w);
    match w.procs[p].phase {
      case Leading => a := Acquire;
      case Generating => a := Fail(Unanswered);
      case Filled(_, _) =>
        FilledTargets(env, w, p);
        CallIsLed(env, w, p, FlightOf(env, w.procs[p].call));
        a := CloseReady;
      case Settled(_) =>
        assert p in Holders(w.procs);
        a := Release;
      case Leaving(_) => a := Depart;
    }
  }

  lemma WaitedForHasOwner(env: Setting, concurrency: nat, w: World, p: Id)
    requires Inv(env, concurrency, w) && p in w.procs && w.procs[p].phase.Waiting?
    ensures var n := w.procs[p].phase.call;
            && n < |w.table.made| && w.table.made[n].leader in w.procs
            && (w.table.made[n].closes == 0 ==> Owning(w.procs[w.table.made[n].leader].phase))
            && (w.table.made[n].closes > 0 ==> Enabled(env, w, p, Wake))
  {
    hide FlightOf, Cacheable, Told, PermitsOk;
    TableIsKept(env, w);
    assert ProcOk(env, w, p);
    assert FlightOk(env, w, w.procs[p].phase.call);
  }

  // ---------------------------------------------------------------------
  // The object

  class InflightCall {
    var ready: bool
    var segments: seq<Output.Segment>
    var ok: bool
    ghost var leader: Id
    ghost var closes: nat
    ghost var number: nat

    constructor (ghost leader: Id, ghost number: nat)
      ensures Value() == InFlight(leader, [], false, 0) && this.number == number && !ready
    {
      ready, segments, ok := false, [], false;
      this.leader, this.closes, this.number := leader, 0, number;
    }

    ghost function Value(): InFlight
      reads this
    {
      InFlight(leader, segments, ok, closes)
    }
  }

  ghost function Values(made: seq<InflightCall>): seq<InFlight>
    reads made
  {
    seq(|made|, n requires 0 <= n < |made| reads made => made[n].Value())
  }

  ghost function Numbers(calls: map<Flight, InflightCall>): map<Flight, nat>
    reads calls.Values
  {
    map k | k in calls :: calls[k].number
  }

  class AnswerInflight {
    var calls: map<Flight, InflightCall>
    ghost var made: seq<InflightCall>

    ghost predicate Valid()
      reads this, made
    {
      && (forall n :: 0 <= n < |made| ==> made[n].number == n && (made[n].ready <==> made[n].closes > 0))
      && (forall k :: k in calls ==> calls[k] in made)
    }

    ghost function View(): Table
      requires Valid()
      reads this, made
    {
      Table(Numbers(calls), Values(made))
    }

    constructor ()
      ensures Valid() && View() == Table(map[], [])
    {
      calls, made := map[], [];
    }

    /** The critical section of wait; the call to wait on, or None to lead. */
    method Wait(key: Flight, ghost caller: Id) returns (waitOn: InflightCall?)
      requires Valid()
      modifies this
      ensures Valid() && View() == Begin(old(View()), key, caller)
      ensures (waitOn == null) == (key !in old(calls))
      ensures waitOn != null ==> waitOn == calls[key]
    {
      if key in calls {
        return calls[key];
      }
      var call := new InflightCall(caller, |made|);
      ghost var numbers, values := Numbers(calls), Values(made);
      calls := calls[key := call];
      made := made + [call];
      assert Numbers(calls) == numbers[key := |values|];
      assert Values(made) == values + [call.Value()];
      return null;
    }

    /** complete's critical section. */
    method FillCall(key: Flight, segments: seq<Output.Segment>, ok: bool) returns (call: InflightCall?)
      requires Valid()
      modifies made
      ensures Valid() && View() == Fill(old(View()), key, segments, ok)
      ensures (call == null) == (key !in calls) && (call != null ==> call == calls[key])
    {
      if key !in calls {
        return null;
      }
      call := calls[key];
      call.segments := segments;
      call.ok := ok;
    }

    /** close(call.ready), which panics on a closed channel. */
    method CloseReady(call: InflightCall)
      requires Valid() && call in made && !call.ready
      modifies call
      ensures Valid() && View() == Close(old(View()), call.number) && call.ready
    {
      ghost var values := Values(made);
      call.ready := true;
      call.closes := call.closes + 1;
      assert Values(made) == values[call.number := call.Value()];
    }

    /** What done defers. */
    method Done(key: Flight)
      requires Valid()
      modifies this, made
      ensures Valid() && View() == Discard(old(View()), key)
    {
      if key in calls {
        var call := calls[key];
        if !call.ready {
          CloseReady(call);
        }
        Forget(key);
      }
    }

    /** delete(i.calls, key) */
    method Forget(key: Flight)
      requires Valid()
      modifies this`calls
      ensures Valid() && View() == old(View()).(calls := old(View()).calls - {key})
    {
      ghost var numbers := Numbers(calls);
      calls := calls - {key};
      assert Numbers(calls) == numbers - {key};
    }
  }
}
